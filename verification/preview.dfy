/** The sidebar preview rule shared by both back ends: the first message's
    text cut to 50 characters, with "..." appended when something was cut. */
module Preview {

  const PreviewLimit: nat := 50
  const Ellipsis := "..."
  /** Placeholder shown for a conversation without a usable first message. */
  const NewConversationLabel := "New conversation"

  /** `text[:50] + ('...' if len(text) > 50 else '')`. */
  function Truncate(text: string): (r: string)
    ensures |text| <= PreviewLimit ==> r == text
    ensures |text| > PreviewLimit ==> |r| == PreviewLimit + |Ellipsis|
    ensures |text| > PreviewLimit ==> r[..PreviewLimit] == text[..PreviewLimit] && r[PreviewLimit..] == Ellipsis
  {
    if |text| <= PreviewLimit then text else text[..PreviewLimit] + Ellipsis
  }

  /** A preview is never longer than 53 characters and always begins with
      the first (up to) 50 characters of the text. */
  lemma TruncateBounds(text: string)
    ensures |Truncate(text)| <= PreviewLimit + |Ellipsis|
    ensures |text| <= PreviewLimit ==> |Truncate(text)| == |text|
    ensures HasTextPrefix(Truncate(text), text)
  {
  }

  predicate HasTextPrefix(preview: string, text: string) {
    var n := if |text| <= PreviewLimit then |text| else PreviewLimit;
    n <= |preview| && preview[..n] == text[..n]
  }

  /** Re-previewing a preview changes nothing: a 53-character preview is cut
      back to the same 50 characters and gets the same ellipsis. */
  lemma {:induction false} TruncateIdempotent(text: string)
    ensures Truncate(Truncate(text)) == Truncate(text)
  {
    if |text| > PreviewLimit {
      var p := Truncate(text);
      assert p[..PreviewLimit] == text[..PreviewLimit];
      assert p == p[..PreviewLimit] + Ellipsis;
    }
  }

  /** The placeholder itself is short enough to be shown unchanged. */
  lemma PlaceholderUnchanged()
    ensures Truncate(NewConversationLabel) == NewConversationLabel
  {
  }

  /** A 60-character first message becomes its first 50 characters plus "...". */
  lemma SixtyCharacterExample(text: string)
    requires |text| == 60
    ensures Truncate(text) == text[..50] + "..."
    ensures |Truncate(text)| == 53
  {
  }
}

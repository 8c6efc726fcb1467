/** The conversation documents of main.py as the code reads them, and the
    sidebar listing built from them. */
module Documents {
  import opened Wrappers
  import opened Preview

  /** The `file` sub-document of a message; each field is `None` when the key
      is missing. */
  datatype FileRef = FileRef(name: Option<string>, path: Option<string>, mime: Option<string>)

  /** A stored message: `sender` and `text` are `None` when the key is
      missing, `file` is `None` when absent, null or empty. */
  datatype DocMessage = DocMessage(sender: Option<string>, text: Option<string>, file: Option<FileRef>)

  /** The preview of one conversation in `get_all_conversations`. */
  function SidebarPreview(messages: seq<DocMessage>): (r: string)
    ensures |messages| == 0 ==> r == NewConversationLabel
    ensures |messages| > 0 && messages[0].text.None? ==> r == NewConversationLabel
    ensures |messages| > 0 && messages[0].text.Some? && |messages[0].text.value| <= 50 ==>
      r == messages[0].text.value
    ensures |messages| > 0 && messages[0].text.Some? && |messages[0].text.value| > 50 ==>
      |r| == 53 && r == messages[0].text.value[..50] + "..."
  {
    var first := if |messages| > 0 then messages[0].text.GetOr(NewConversationLabel) else NewConversationLabel;
    PlaceholderUnchanged();
    Truncate(first)
  }
}

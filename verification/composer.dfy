/** main.py's `generate_ai_response`: the payload it sends to the completion
    API (persona, history with inlined attachments, latest message) and the
    text it returns. */
module Composer {
  import opened Wrappers
  import opened Ascii
  import opened ChatPayload
  import opened Documents
  import opened Attachments
  import Accounts
  import Persona

  /** The text sent for one history message: its text (or "" when it has
      none), followed for a user message with a file by the attachment note. */
  function MessageContent(m: DocMessage, fs: Filesystem): (r: string)
    ensures HasPrefix(r, m.text.GetOr(""))
    ensures !(m.sender == Some("user") && m.file.Some?) ==> r == m.text.GetOr("")
    ensures m.sender == Some("user") && m.file.Some? ==>
      r == m.text.GetOr("") + Describe(Classify(m.file.value, fs))
  {
    var text := m.text.GetOr("");
    var r := if m.sender == Some("user") && m.file.Some? then text + Describe(Classify(m.file.value, fs)) else text;
    assert r[..|text|] == text;
    r
  }

  /** The role a history message is sent with; other senders are dropped. */
  function RoleOf(sender: Option<string>): (r: Option<Role>)
    ensures r == Some(User) <==> sender == Some("user")
    ensures r == Some(Assistant) <==> sender == Some("bot")
    ensures r != Some(System)
  {
    if sender == Some("user") then Some(User)
    else if sender == Some("bot") then Some(Assistant)
    else None
  }

  predicate Kept(m: DocMessage) {
    RoleOf(m.sender).Some?
  }

  /** The number of history messages sent on, i.e. those from `user` or `bot`. */
  function KeptCount(h: seq<DocMessage>): (n: nat)
    ensures n <= |h|
  {
    if |h| == 0 then 0
    else KeptCount(h[..|h| - 1]) + (if Kept(h[|h| - 1]) then 1 else 0)
  }

  /** The history part of the payload, built message by message in order. */
  function HistoryEntries(h: seq<DocMessage>, fs: Filesystem): (r: seq<Entry>)
    ensures |r| == KeptCount(h)
    ensures forall i :: 0 <= i < |r| ==> r[i].role != System
  {
    if |h| == 0 then []
    else
      var m := h[|h| - 1];
      HistoryEntries(h[..|h| - 1], fs)
        + (if Kept(m) then [Entry(RoleOf(m.sender).value, MessageContent(m, fs))] else [])
  }

  /** Order and role mapping: the kept message at position `i` of the history
      is sent as entry number `KeptCount(h[..i])`, the number of kept
      messages before it, with its mapped role and its content. */
  lemma {:induction false} HistoryEntryAt(h: seq<DocMessage>, fs: Filesystem, i: nat)
    requires i < |h| && Kept(h[i])
    ensures KeptCount(h[..i]) < KeptCount(h)
    ensures HistoryEntries(h, fs)[KeptCount(h[..i])] == Entry(RoleOf(h[i].sender).value, MessageContent(h[i], fs))
    decreases |h|
  {
    var front := h[..|h| - 1];
    if i == |h| - 1 {
      assert h[..i] == front;
    } else {
      assert front[..i] == h[..i];
      HistoryEntryAt(front, fs, i);
      KeptCountPrefix(h, |h| - 1);
    }
  }

  /** Conversely every history entry stems from a kept message: entry `j`
      is the one for the kept message with exactly `j` kept messages before it. */
  lemma {:induction false} HistoryEntryFrom(h: seq<DocMessage>, j: nat)
    requires j < KeptCount(h)
    ensures exists i :: 0 <= i < |h| && Kept(h[i]) && KeptCount(h[..i]) == j
    decreases |h|
  {
    var front := h[..|h| - 1];
    if j < KeptCount(front) {
      HistoryEntryFrom(front, j);
      var i :| 0 <= i < |front| && Kept(front[i]) && KeptCount(front[..i]) == j;
      assert front[..i] == h[..i];
    } else {
      assert h[..|h| - 1] == front;
    }
  }

  /** Kept messages keep their relative order: a later kept message is sent
      at a later position. */
  lemma {:induction false} KeptCountMonotone(h: seq<DocMessage>, i: nat, j: nat)
    requires i < j <= |h| && Kept(h[i])
    ensures KeptCount(h[..i]) < KeptCount(h[..j])
    decreases j
  {
    if j == i + 1 {
      assert h[..j][..i] == h[..i];
    } else {
      assert h[..j][..j - 1] == h[..j - 1];
      KeptCountMonotone(h, i, j - 1);
    }
  }

  /** Counting over a prefix never exceeds counting over the whole. */
  lemma {:induction false} KeptCountPrefix(h: seq<DocMessage>, n: nat)
    requires n <= |h|
    ensures KeptCount(h[..n]) <= KeptCount(h)
    decreases |h|
  {
    if n < |h| {
      assert h[..|h| - 1][..n] == h[..n];
      KeptCountPrefix(h[..|h| - 1], n);
    } else {
      assert h[..n] == h;
    }
  }

  /** With only `user` and `bot` senders every message is sent. */
  lemma {:induction false} AllKept(h: seq<DocMessage>)
    requires forall i :: 0 <= i < |h| ==> h[i].sender == Some("user") || h[i].sender == Some("bot")
    ensures KeptCount(h) == |h|
  {
    if |h| > 0 {
      AllKept(h[..|h| - 1]);
    }
  }

  /** The latest message is already the history's last entry, from `user`
      and with the same text, so it is not sent twice. */
  predicate IsRepeat(h: seq<DocMessage>, latest: string)
    ensures IsRepeat(h, latest) ==> |h| > 0 && Kept(h[|h| - 1]) && RoleOf(h[|h| - 1].sender) == Some(User)
  {
    |h| > 0 && h[|h| - 1].sender == Some("user") && h[|h| - 1].text == Some(latest)
  }

  /** The whole payload. */
  function Compose(persona: string, h: seq<DocMessage>, latest: string, fs: Filesystem): (r: seq<Entry>)
    ensures |r| == 1 + KeptCount(h) + (if IsRepeat(h, latest) then 0 else 1)
    ensures r[0] == Entry(System, persona)
    ensures SystemFirstOnly(r)
    ensures r[1..1 + KeptCount(h)] == HistoryEntries(h, fs)
    ensures !IsRepeat(h, latest) ==> r[|r| - 1] == Entry(User, latest)
  {
    var history := HistoryEntries(h, fs);
    var r := [Entry(System, persona)] + history + (if IsRepeat(h, latest) then [] else [Entry(User, latest)]);
    assert r[1..1 + |history|] == history;
    r
  }

  /** A double submission is not duplicated: when the history already ends
      with the pending user message (no file), the payload ends with that one
      copy and nothing is appended after the history. */
  lemma DoubleSubmissionSentOnce(persona: string, h: seq<DocMessage>, latest: string, fs: Filesystem)
    requires |h| > 0 && h[|h| - 1] == DocMessage(Some("user"), Some(latest), None)
    ensures |Compose(persona, h, latest, fs)| == 1 + KeptCount(h)
    ensures Compose(persona, h, latest, fs)[|Compose(persona, h, latest, fs)| - 1] == Entry(User, latest)
  {
    HistoryEntryAt(h, fs, |h| - 1);
    assert KeptCount(h[..|h| - 1]) == KeptCount(h) - 1;
  }

  /** The fixed note that ends the reply while no Azure client is configured. */
  const PlaceholderTail :=
    "! This is a temporary response for UI styling testing. The chat functionality will be enabled once Azure OpenAI is properly configured."

  /** The reply without a client: a greeting naming the user and their
      company, then the fixed note. */
  function Placeholder(u: Accounts.UserRecord): (r: string)
    ensures HasPrefix(r, "Hello " + u.name + " from " + Accounts.Company(u))
    ensures EndsWith(r, PlaceholderTail)
    ensures |r| == |"Hello "| + |u.name| + |" from "| + |Accounts.Company(u)| + |PlaceholderTail|
  {
    var greeting := "Hello " + u.name + " from " + Accounts.Company(u);
    Persona.Framed(greeting, "", PlaceholderTail);
    greeting + PlaceholderTail
  }

  const ApologyPrefix :=
    "I apologize, but I encountered an error while processing your request. Please try again later. Error: "

  /** The reply text: the placeholder without a client, otherwise the
      provider's answer to the composed payload, with a failure turned into
      an apology carrying the error text. It never fails itself. */
  function GenerateReply(
    configured: bool, u: Accounts.UserRecord, h: seq<DocMessage>, latest: string, fs: Filesystem,
    provider: seq<Entry> -> ProviderResult): (r: string)
    ensures !configured ==> r == Placeholder(u)
    ensures configured ==>
      var sent := Compose(Persona.SystemMessage(u), h, latest, fs);
      && SystemFirstOnly(sent)
      && (provider(sent).Completed? ==> r == provider(sent).text)
      && (provider(sent).ProviderError? ==> HasPrefix(r, ApologyPrefix) && r == ApologyPrefix + provider(sent).message)
  {
    if !configured then Placeholder(u)
    else
      var sent := Compose(Persona.SystemMessage(u), h, latest, fs);
      match provider(sent)
      case Completed(text) => text
      case ProviderError(message) =>
        var r := ApologyPrefix + message;
        assert r[..|ApologyPrefix|] == ApologyPrefix;
        r
  }
}

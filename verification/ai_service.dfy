/** ai_service.py's `generate_ai_response`, the reply generator app.py calls:
    a fixed persona, the last ten stored messages, and the latest message
    unless the history already ends with a user message. */
module AiService {
  import opened ChatPayload
  import opened MemoryStore

  const SystemPrompt :=
    "You are Sumersault Assistant, a helpful AI assistant. Provide informative, concise, and friendly responses to user queries."
  /** How many stored messages are sent at most. */
  const HistoryWindow: nat := 10
  const MissingKeyReply :=
    "Error: OpenAI API key not configured. Please set the OPENAI_API_KEY environment variable."
  const ErrorPrefix := "Sorry, I encountered an error: "

  /** `history[-10:]`. */
  function Window(h: seq<StoredMessage>): (w: seq<StoredMessage>)
    ensures |w| == (if |h| <= HistoryWindow then |h| else HistoryWindow)
    ensures w == h[|h| - |w|..]
  {
    if |h| <= HistoryWindow then h else h[|h| - HistoryWindow..]
  }

  /** `user` is sent as the user; every other sender as the assistant. */
  function RoleFor(sender: string): (r: Role)
    ensures r == User <==> sender == "user"
    ensures r != System
  {
    if sender == "user" then User else Assistant
  }

  /** The latest message is added unless the history ends with a `user`
      message; only the sender is compared, not the text. */
  predicate AppendsLatest(h: seq<StoredMessage>)
    ensures |h| == 0 ==> AppendsLatest(h)
    ensures !AppendsLatest(h) ==> RoleFor(h[|h| - 1].sender) == User
  {
    |h| == 0 || h[|h| - 1].sender != "user"
  }

  /** The window's entries, one per message, in order. */
  function WindowEntries(w: seq<StoredMessage>): (r: seq<Entry>)
    ensures |r| == |w|
    ensures forall i :: 0 <= i < |w| ==> r[i] == Entry(RoleFor(w[i].sender), w[i].text)
  {
    seq(|w|, i requires 0 <= i < |w| => Entry(RoleFor(w[i].sender), w[i].text))
  }

  /** A system entry, then the history entries, then the optional tail. */
  function Assemble(prompt: string, history: seq<Entry>, tail: seq<Entry>): (r: seq<Entry>)
    requires forall i :: 0 <= i < |history| ==> history[i].role != System
    requires forall i :: 0 <= i < |tail| ==> tail[i].role != System
    ensures |r| == 1 + |history| + |tail|
    ensures r[0] == Entry(System, prompt)
    ensures SystemFirstOnly(r)
    ensures forall i :: 1 <= i <= |history| ==> r[i] == history[i - 1]
    ensures forall i :: 0 <= i < |tail| ==> r[1 + |history| + i] == tail[i]
  {
    [Entry(System, prompt)] + history + tail
  }

  /** The payload. */
  function BuildPayload(latest: string, h: seq<StoredMessage>): (r: seq<Entry>)
    ensures |r| == 1 + |Window(h)| + (if AppendsLatest(h) then 1 else 0)
    ensures |r| <= HistoryWindow + 2
    ensures r[0] == Entry(System, SystemPrompt)
    ensures SystemFirstOnly(r)
    ensures forall i :: 1 <= i <= |Window(h)| ==>
      r[i] == Entry(RoleFor(Window(h)[i - 1].sender), Window(h)[i - 1].text)
    ensures AppendsLatest(h) ==> r[|r| - 1] == Entry(User, latest)
  {
    var w := Window(h);
    var tail := if AppendsLatest(h) then [Entry(User, latest)] else [];
    Assemble(SystemPrompt, WindowEntries(w), tail)
  }

  /** The reply text: the fixed notice without an API key (no payload is
      built), otherwise the provider's answer, with a failure turned into an
      apology that carries the error text. */
  function GenerateAiResponse(apiKey: string, latest: string, h: seq<StoredMessage>, provider: seq<Entry> -> ProviderResult): (r: string)
    ensures apiKey == "" ==> r == MissingKeyReply
    ensures apiKey != "" && provider(BuildPayload(latest, h)).Completed? ==>
      r == provider(BuildPayload(latest, h)).text
    ensures apiKey != "" && provider(BuildPayload(latest, h)).ProviderError? ==>
      r == ErrorPrefix + provider(BuildPayload(latest, h)).message
  {
    if apiKey == "" then MissingKeyReply
    else
      match provider(BuildPayload(latest, h))
      case Completed(text) => text
      case ProviderError(message) => ErrorPrefix + message
  }

  /** Only the last ten messages are sent: with more than ten, the oldest
      ones do not influence the payload at all. */
  lemma {:induction false} OlderMessagesIgnored(latest: string, older: seq<StoredMessage>, recent: seq<StoredMessage>)
    requires |recent| == HistoryWindow
    ensures BuildPayload(latest, older + recent) == BuildPayload(latest, recent)
  {
    var h := older + recent;
    assert Window(h) == recent;
    assert h[|h| - 1] == recent[|recent| - 1];
  }

  /** The rule compares senders only: a history ending with any user message
      suppresses the latest one, even when the texts differ. */
  lemma LatestDroppedAfterAnyUserMessage(latest: string, h: seq<StoredMessage>)
    requires |h| > 0 && h[|h| - 1].sender == "user" && h[|h| - 1].text != latest
    ensures |BuildPayload(latest, h)| == 1 + |Window(h)|
    ensures BuildPayload(latest, h)[|BuildPayload(latest, h)| - 1] != Entry(User, latest)
  {
  }

  /** Called from app.py, which appends the user message before generating
      the reply, the latest message is sent exactly once, as the final entry,
      and nothing is appended after the history. */
  lemma AppSendsLatestOnce(store: Store, id: string, text: string, stamp: string)
    ensures
      var h := HistoryForReply(store, id, text, stamp);
      var p := BuildPayload(text, h);
      && !AppendsLatest(h)
      && |p| == 1 + |Window(h)|
      && p[|p| - 1] == Entry(User, text)
  {
    var h := HistoryForReply(store, id, text, stamp);
    EndsWithPendingMessage(text, h);
  }

  /** A history whose last entry is the pending user message yields a
      payload ending with exactly that message. */
  lemma EndsWithPendingMessage(text: string, h: seq<StoredMessage>)
    requires |h| > 0 && h[|h| - 1].sender == "user" && h[|h| - 1].text == text
    ensures !AppendsLatest(h)
    ensures |BuildPayload(text, h)| == 1 + |Window(h)|
    ensures BuildPayload(text, h)[|BuildPayload(text, h)| - 1] == Entry(User, text)
  {
    var w := Window(h);
    var p := BuildPayload(text, h);
    assert w[|w| - 1] == h[|h| - 1];
    assert p[|w|] == Entry(RoleFor(w[|w| - 1].sender), w[|w| - 1].text);
  }
}

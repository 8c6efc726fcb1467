/** The in-memory conversation store of app.py: a map from conversation id to
    conversation, with fetch-or-create, the user-then-bot append, and the
    sidebar listing. */
module MemoryStore {
  import opened Wrappers
  import opened Preview

  /** A message as app.py stores it; `id` is its position in the list. */
  datatype StoredMessage = StoredMessage(id: nat, text: string, sender: string, timestamp: string)

  datatype Conversation = Conversation(id: string, messages: seq<StoredMessage>)

  type Store = map<string, Conversation>

  predicate IdsAreIndices(messages: seq<StoredMessage>) {
    forall i :: 0 <= i < |messages| ==> messages[i].id == i
  }

  /** Every conversation is filed under its own id and numbers its messages
      by position. */
  predicate WellFormed(store: Store) {
    forall k :: k in store ==> store[k].id == k && IdsAreIndices(store[k].messages)
  }

  /** A store and the conversation an operation returned. */
  datatype Fetched = Fetched(store: Store, conversation: Conversation)

  /** The key `get_conversation` files its answer under: the requested id, or
      the current time (`%Y%m%d%H%M%S`) when no id was given. */
  function FetchKey(requested: string, now: string): string {
    if requested == "" then now else requested
  }

  /** `get_conversation`. `requested` is "" when the `id` argument is missing
      or empty; `now` is the formatted clock reading. */
  function GetConversation(store: Store, requested: string, now: string): (r: Fetched)
    ensures var key := FetchKey(requested, now);
      && key in r.store && r.conversation == r.store[key]
      && r.store.Keys == store.Keys + {key}
      && (forall k :: k in store && k != key ==> r.store[k] == store[k])
    ensures requested == "" ==> r.conversation == Conversation(now, [])
    ensures requested != "" && requested !in store ==> r.conversation == Conversation(requested, [])
    ensures requested != "" && requested in store ==> r == Fetched(store, store[requested])
  {
    if requested == "" || requested !in store then
      var key := FetchKey(requested, now);
      var s := store[key := Conversation(key, [])];
      Fetched(s, s[key])
    else
      Fetched(store, store[requested])
  }

  /** The well-formedness of the store survives a fetch. */
  lemma GetConversationKeepsWellFormed(store: Store, requested: string, now: string)
    requires WellFormed(store)
    ensures WellFormed(GetConversation(store, requested, now).store)
    ensures GetConversation(store, requested, now).conversation.id == FetchKey(requested, now)
  {
  }

  /** As written, a request without an id replaces whatever is filed under
      the current second, so a conversation created in the same second loses
      its messages. */
  lemma NoIdRequestWipesSameSecond(store: Store, now: string)
    requires now in store && |store[now].messages| > 0
    ensures GetConversation(store, "", now).store[now].messages == []
    ensures GetConversation(store, "", now).store[now] != store[now]
  {
  }

  /** The concrete case: a conversation with one message, asked for again
      without an id within the same second. */
  lemma NoIdRequestWipesExample()
    ensures
      var stamp := "20240101120000";
      var before := map[stamp := Conversation(stamp, [StoredMessage(0, "hello", "user", "t0")])];
      GetConversation(before, "", stamp).store[stamp].messages == []
  {
  }

  /** The fetch app.py:28 and the front end's "new chat" ask for: a request
      without an id opens a new, empty conversation under `newKey`, a key that
      stands for a unique id and that nothing is stored under yet; an unknown
      id gets an empty conversation as before; nothing stored is replaced. */
  function GetConversationFresh(store: Store, requested: string, newKey: string): (r: Fetched)
    requires requested == "" ==> newKey !in store
    ensures var key := FetchKey(requested, newKey);
      && key in r.store && r.conversation == r.store[key]
      && r.store.Keys == store.Keys + {key}
    ensures forall k :: k in store ==> k in r.store && r.store[k] == store[k]
    ensures requested == "" ==> r.conversation == Conversation(newKey, []) && |r.store| == |store| + 1
    ensures requested != "" && requested !in store ==>
      r.conversation == Conversation(requested, []) && |r.store| == |store| + 1
    ensures requested != "" && requested in store ==> r == Fetched(store, store[requested])
  {
    var key := FetchKey(requested, newKey);
    if key in store then Fetched(store, store[key])
    else
      var s := store[key := Conversation(key, [])];
      assert s.Keys == store.Keys + {key};
      Fetched(s, s[key])
  }

  /** The corrected fetch differs from `get_conversation` only for a request
      without an id. */
  lemma FreshAgreesWhenIdGiven(store: Store, requested: string, newKey: string, now: string)
    requires requested != ""
    ensures GetConversationFresh(store, requested, newKey) == GetConversation(store, requested, now)
  {
  }

  /** The corrected fetch keeps the store well formed. */
  lemma FreshFetchKeepsWellFormed(store: Store, requested: string, newKey: string)
    requires WellFormed(store)
    requires requested == "" ==> newKey !in store
    ensures WellFormed(GetConversationFresh(store, requested, newKey).store)
  {
  }

  /** The concrete case of the overwrite, corrected: the conversation of the
      same second keeps its message and the request gets a new one. */
  lemma FreshFetchExample()
    ensures
      var stamp := "20240101120000";
      var msg := StoredMessage(0, "hello", "user", "t0");
      var before := map[stamp := Conversation(stamp, [msg])];
      var r := GetConversationFresh(before, "", stamp + "-1");
      && r.store[stamp].messages == [msg]
      && r.conversation == Conversation(stamp + "-1", [])
  {
  }

  /** What the AI reply generation did: returned a text or raised. */
  datatype Reply = Generated(text: string) | Raised(error: string)

  /** The JSON answer of `add_message`. */
  datatype AddResult =
    | Added(conversation: Conversation, message: StoredMessage)
    | BadRequest(error: string)
    | ServerError(error: string)

  datatype Posted = Posted(store: Store, result: AddResult)

  const MissingFieldError := "Missing conversation ID or message"
  const GenerationError := "Failed to generate AI response"

  /** The messages filed under `id`, none if there is no such conversation. */
  function MessagesOf(store: Store, id: string): seq<StoredMessage> {
    if id in store then store[id].messages else []
  }

  /** The store after the first half of `add_message`: the conversation is
      created if missing, then the user message is appended with the next id. */
  function WithUserMessage(store: Store, id: string, text: string, stamp: string): (s: Store)
    ensures id in s
    ensures s[id].messages == MessagesOf(store, id) + [StoredMessage(|MessagesOf(store, id)|, text, "user", stamp)]
  {
    var conv := if id in store then store[id] else Conversation(id, []);
    store[id := conv.(messages := conv.messages + [StoredMessage(|conv.messages|, text, "user", stamp)])]
  }

  /** The history the reply is generated from: the conversation's messages
      including the user message just appended. */
  function HistoryForReply(store: Store, id: string, text: string, stamp: string): (h: seq<StoredMessage>)
    ensures |h| > 0 && h[|h| - 1] == StoredMessage(|h| - 1, text, "user", stamp)
    ensures h[..|h| - 1] == MessagesOf(store, id)
  {
    WithUserMessage(store, id, text, stamp)[id].messages
  }

  /** `add_message`. `id` and `text` are "" when missing or empty; the two
      stamps are the clock readings for the two messages. */
  function AddMessage(store: Store, id: string, text: string, userStamp: string, botStamp: string, reply: Reply): (r: Posted)
    ensures id == "" || text == "" ==> r == Posted(store, BadRequest(MissingFieldError))
    ensures id != "" && text != "" ==>
      && id in r.store
      && r.store.Keys == store.Keys + {id}
      && (forall k :: k in store && k != id ==> r.store[k] == store[k])
      && r.store[id].id == (if id in store then store[id].id else id)
    ensures id != "" && text != "" && reply.Generated? ==>
      var before := MessagesOf(store, id);
      var bot := StoredMessage(|before| + 1, reply.text, "bot", botStamp);
      && r.store[id].messages == before + [StoredMessage(|before|, text, "user", userStamp), bot]
      && r.result == Added(r.store[id], bot)
    ensures id != "" && text != "" && reply.Raised? ==>
      var before := MessagesOf(store, id);
      && r.store[id].messages == before + [StoredMessage(|before|, text, "user", userStamp)]
      && r.result == ServerError(GenerationError)
  {
    if id == "" || text == "" then Posted(store, BadRequest(MissingFieldError))
    else
      var withUser := WithUserMessage(store, id, text, userStamp);
      var conv := withUser[id];
      match reply
      case Raised(_) => Posted(withUser, ServerError(GenerationError))
      case Generated(answer) =>
        var bot := StoredMessage(|conv.messages|, answer, "bot", botStamp);
        var done := withUser[id := conv.(messages := conv.messages + [bot])];
        assert done[id].messages == MessagesOf(store, id) + [StoredMessage(|MessagesOf(store, id)|, text, "user", userStamp), bot];
        Posted(done, Added(done[id], bot))
  }

  /** Posting "hello" to a new conversation `abc` yields a conversation of two
      messages: the user's "hello", then the bot's reply. */
  lemma FirstExchangeExample(userStamp: string, botStamp: string, answer: string)
    ensures
      var r := AddMessage(map[], "abc", "hello", userStamp, botStamp, Generated(answer));
      && r.result.Added?
      && |r.result.conversation.messages| == 2
      && r.result.conversation.messages[0].sender == "user"
      && r.result.conversation.messages[0].text == "hello"
      && r.result.conversation.messages[1].sender == "bot"
      && r.result.conversation.id == "abc"
  {
  }

  /** A value `request.json` may hold under a key; objects are left out. */
  datatype Json = JString(s: string) | JNumber(n: int) | JBool(b: bool) | JNull | JArray(items: seq<Json>)

  /** Python truthiness of a decoded value. */
  predicate Truthy(v: Json) {
    match v
    case JString(s) => s != ""
    case JNumber(n) => n != 0
    case JBool(b) => b
    case JNull => false
    case JArray(items) => |items| > 0
  }

  /** Whether `value[:50]` works on it: Python slices strings and lists. */
  predicate Sliceable(v: Json) {
    v.JString? || v.JArray?
  }

  /** The guard of app.py:45 on one field, as written: present and truthy. */
  predicate PassesAsWritten(field: Option<Json>) {
    field.Some? && Truthy(field.value)
  }

  /** As written, the message 42 passes the guard and is stored as the text,
      and it is a value the listing's `[:50]` at app.py:90 cannot slice. */
  lemma NumberMessageBreaksListing()
    ensures PassesAsWritten(Some(JNumber(42))) && !Sliceable(JNumber(42))
  {
  }

  /** The guard as intended: a non-empty string, as the front end sends. */
  predicate PassesCorrected(field: Option<Json>) {
    field.Some? && field.value.JString? && field.value.s != ""
  }

  /** The corrected guard lets through only what the listing can slice, and
      on strings it agrees with the written one. */
  lemma CorrectedGuardNarrows(field: Option<Json>)
    ensures PassesCorrected(field) ==> PassesAsWritten(field) && Sliceable(field.value)
    ensures field.Some? && field.value.JString? ==> (PassesCorrected(field) <==> PassesAsWritten(field))
  {
  }

  /** `add_message` on the decoded JSON body with the corrected guard: string
      fields go on to `AddMessage`, anything else is refused. */
  function AddMessageRequest(
    store: Store, id: Option<Json>, text: Option<Json>, userStamp: string, botStamp: string, reply: Reply): (r: Posted)
    ensures r.result.BadRequest? <==> !(PassesCorrected(id) && PassesCorrected(text))
    ensures r.result.BadRequest? ==> r == Posted(store, BadRequest(MissingFieldError))
    ensures forall i, t :: id == Some(JString(i)) && text == Some(JString(t)) ==>
      r == AddMessage(store, i, t, userStamp, botStamp, reply)
  {
    if id.Some? && id.value.JString? && text.Some? && text.value.JString? then
      AddMessage(store, id.value.s, text.value.s, userStamp, botStamp, reply)
    else
      Posted(store, BadRequest(MissingFieldError))
  }

  /** Appending keeps every message id equal to its position, in the
      conversation written to and in all others. */
  lemma {:induction false} AddMessageKeepsWellFormed(
    store: Store, id: string, text: string, userStamp: string, botStamp: string, reply: Reply)
    requires WellFormed(store)
    ensures WellFormed(AddMessage(store, id, text, userStamp, botStamp, reply).store)
  {
    var r := AddMessage(store, id, text, userStamp, botStamp, reply);
    if id != "" && text != "" {
      var before := MessagesOf(store, id);
      assert IdsAreIndices(before);
      var after := r.store[id].messages;
      forall i | 0 <= i < |after|
        ensures after[i].id == i
      {
        if i < |before| {
          assert after[i] == before[i];
        }
      }
    }
  }

  /** One row of the sidebar listing. */
  datatype Summary = Summary(id: string, preview: string)

  /** The preview of a stored conversation. */
  function ConversationPreview(c: Conversation): (r: string)
    ensures |c.messages| == 0 ==> r == NewConversationLabel
    ensures |c.messages| > 0 && |c.messages[0].text| <= 50 ==> r == c.messages[0].text
    ensures |c.messages| > 0 && |c.messages[0].text| > 50 ==>
      |r| == 53 && r == c.messages[0].text[..50] + "..."
  {
    PlaceholderUnchanged();
    Truncate(if |c.messages| > 0 then c.messages[0].text else NewConversationLabel)
  }

  /** `get_all_conversations`: one summary per stored conversation, filed
      under its key, with that conversation's preview. */
  method ListConversations(store: Store) returns (r: seq<Summary>)
    ensures |r| == |store|
    ensures forall i :: 0 <= i < |r| ==> r[i].id in store && r[i].preview == ConversationPreview(store[r[i].id])
    ensures forall i, j :: 0 <= i < j < |r| ==> r[i].id != r[j].id
    ensures forall k :: k in store ==> exists i :: 0 <= i < |r| && r[i].id == k
  {
    var remaining := store.Keys;
    r := [];
    while remaining != {}
      invariant remaining <= store.Keys
      invariant |r| + |remaining| == |store.Keys|
      invariant forall i :: 0 <= i < |r| ==>
        r[i].id in store.Keys - remaining && r[i].preview == ConversationPreview(store[r[i].id])
      invariant forall i, j :: 0 <= i < j < |r| ==> r[i].id != r[j].id
      invariant forall k :: k in store.Keys - remaining ==> exists i :: 0 <= i < |r| && r[i].id == k
      decreases remaining
    {
      var k :| k in remaining;
      var r' := r + [Summary(k, ConversationPreview(store[k]))];
      forall k' | k' in store.Keys - (remaining - {k})
        ensures exists i :: 0 <= i < |r'| && r'[i].id == k'
      {
        if k' == k {
          assert r'[|r|].id == k';
        } else {
          assert k' in store.Keys - remaining;
          var i :| 0 <= i < |r| && r[i].id == k';
          assert r'[i].id == k';
        }
      }
      r, remaining := r', remaining - {k};
    }
    assert store.Keys - remaining == store.Keys;
  }
}

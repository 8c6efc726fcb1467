/** The message list sent to the chat-completion API, and what the API call
    can come back with. */
module ChatPayload {

  datatype Role = System | User | Assistant

  /** One `{"role": ..., "content": ...}` entry of the request. */
  datatype Entry = Entry(role: Role, content: string)

  /** The provider call, seen from the caller: a reply text, or the text of
      the exception it raised. */
  datatype ProviderResult = Completed(text: string) | ProviderError(message: string)

  /** Exactly one system entry, and it comes first. */
  predicate SystemFirstOnly(payload: seq<Entry>) {
    && |payload| > 0
    && payload[0].role == System
    && forall i :: 1 <= i < |payload| ==> payload[i].role != System
  }
}

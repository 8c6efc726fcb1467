# Sumersault chat back end — a Dafny model of its request logic

Sumersault is a chat web application. A signed-in user talks to a
chat-completion provider, can attach uploaded files, and sees their
conversations in a sidebar. There are two back ends:

- `main.py`, backed by Mongo and Microsoft login;
- `app.py` with `ai_service.py`, a small one with an in-memory store.

This project models the decision logic of both back ends as pure functions
over immutable values:

- **Uploads**: the extension allow-list (`allowed_file`) and the validation
  done by `/api/upload`.
- **Accounts**: the `User` record and the company name derived from its
  e-mail domain.
- **OAuth**: the anti-forgery `state` token of the Microsoft login, from
  redirect to callback.
- **Preview**: the 50-character sidebar preview. **Documents** applies it
  to Mongo documents, **MemoryStore** to the in-memory store.
- **Persona**, **Attachments**, **Composer**: `main.py`'s
  `generate_ai_response`. This covers the persona system message, the
  history with inlined text attachments, the de-duplicated latest message,
  and the reply text. The reply text is the placeholder without a client,
  the provider's answer, or an apology.
- **MemoryStore**: `app.py`'s store, with `get_conversation`,
  `add_message` and `get_all_conversations`.
- **AiService**: `ai_service.py`'s `generate_ai_response`. It sends the
  last ten messages, and the latest message unless the history already
  ends with a user message.

Outside effects are parameters. The filesystem is a map from path to what
reading that path yields. The clock is a formatted timestamp. The provider
is a function from the payload to a reply or an error. The login steps
after the state check are one abstract outcome.

Two behaviours are easy to misread:

- A failed state check only answers 400. The pending token stays in the
  session, and the session is otherwise untouched (`OAuth.Callback`,
  `OAuth.ForgedTokenRefused`).
- `main.py`'s duplicate check compares sender and text (`Composer.IsRepeat`).
  `ai_service.py`'s compares the sender only
  (`AiService.LatestDroppedAfterAnyUserMessage`).

## Model

| member | source | states |
|---|---|---|
| Ascii.LowerStr | main.py:88 | lower-casing keeps the length and maps every character through the ASCII lower-case map |
| Ascii.Capitalize | main.py:129 | capitalising keeps the length, upper-cases the first character and lower-cases the rest |
| Ascii.IndexOf | main.py:122 | the position of the first occurrence: the character is there, absent before it, and the end is returned exactly when it does not occur |
| Ascii.LastIndexOf | main.py:88 | the position of the last occurrence: absent after it, and -1 exactly when it does not occur |
| Uploads.AllowedFile | main.py:87-88 | an allowed name has a dot and a non-empty extension after its last dot, with no dot in it (the full characterisation is `Uploads.AllowedFileIff`) |
| Uploads.AllowedFileIff | main.py:77-88 | a name is allowed iff it has a last dot and the lower-cased text after it is one of the 27 listed extensions |
| Uploads.ExtensionInIff | main.py:87-88 | the same characterisation, for any extension list |
| Uploads.ExtensionAfterLastDot | main.py:88 | the extension is the text after the one dot with no dot after it |
| Uploads.AllowedFileIgnoresCase | main.py:88 | for `stem.ext` with a dot-free `ext`, the verdict depends only on the lower-cased `ext`, so case does not matter |
| Uploads.ExtensionInIgnoresCase | main.py:88 | the same, for any extension list |
| Uploads.RefusesExe | main.py:77-88 | `notes.exe` is refused |
| Uploads.AcceptsTxt | main.py:77-88 | `notes.txt` is accepted |
| Uploads.AcceptsUpperCaseTxt | main.py:87-88 | `notes.TXT` is accepted, because the extension is lower-cased first |
| Uploads.RefusesNameWithoutDot | main.py:88 | a name with no dot is never allowed |
| Uploads.CheckUpload | main.py:557-586 | accepted iff a non-empty allowed name was sent; otherwise "No file provided", "No file selected" or "File type not allowed", in that order of checks |
| Accounts.ExtractCompany | main.py:117-130 | no `@` gives no company; a public-provider domain gives none; any other domain gives its first label, capitalised |
| Accounts.EmailDomainSplit | main.py:122 | the domain is what lies between the first `@` and the next `@` or the end: the address is local part, `@`, domain, rest, with no `@` in the first two |
| Accounts.CompanyShape | main.py:128-130 | a company name holds no `.` or `@`, starts with a non-lower-case character, has no upper case after that, and equals the domain's first label up to case |
| Accounts.LowerOfUpper | main.py:129 | lower-casing an upper-cased character gives the lower-cased character |
| Accounts.CaseMappingKeepsSeparators | main.py:128-129 | capitalising a label that holds no `.` or `@` adds neither |
| Accounts.CompanyDomainExample | main.py:117-130 | `alice@acme.co.uk` belongs to company `Acme` |
| Accounts.PublicProviderExample | main.py:124-126 | `bob@gmail.com` has no company |
| Accounts.ProviderCheckIsCaseSensitive | main.py:124-130 | `bob@GMAIL.com` is not recognised as a public provider and yields `Gmail` |
| OAuth.BeginLogin | main.py:149-151 | the redirect stores the fresh token as the pending state and leaves the signed-in user alone |
| OAuth.StateMatches | main.py:181 | the check passes iff a received token is present, non-empty and equal to the stored one, so a missing or empty token never matches |
| OAuth.Callback | main.py:177-290 | a missing, empty or different token fails with 400 and leaves the session unchanged; a match clears the token; login happens iff the token matched and the provider verified the user, and only then is the user set |
| OAuth.EchoedTokenAccepted | main.py:149-186 | echoing the issued token lets a verified user in |
| OAuth.ForgedTokenRefused | main.py:178-183 | any other or missing token is refused before anything else, and the session keeps its pending token |
| OAuth.TokenSingleUse | main.py:185-186 | after a passed check the same token is refused a second time |
| Preview.Truncate | main.py:482 | the same rule in both back ends (also app.py:90): texts of at most 50 characters are kept; longer ones become their first 50 characters followed by "..." (53 characters) |
| Preview.TruncateBounds | app.py:90 | a preview is at most 53 characters and starts with the first (up to) 50 characters of the text |
| Preview.TruncateIdempotent | app.py:90 | previewing a preview changes nothing |
| Preview.PlaceholderUnchanged | main.py:476-478 | the "New conversation" placeholder is shown unchanged |
| Preview.SixtyCharacterExample | main.py:482 | a 60-character text becomes its first 50 characters and "..." |
| Documents.SidebarPreview | main.py:473-482 | no messages, or a first message without text, shows the placeholder; otherwise the first text, cut at 50 characters with "..." |
| Attachments.Excerpt | main.py:650 | the excerpt is a prefix of at most 10,000 characters, and the whole content exactly when it fits |
| Attachments.TextLike | main.py:646 | only a non-empty declared type can be text-like, and any type containing `text/` is text-like whatever the file name |
| Attachments.Classify | main.py:639-662 | a missing path or a path not on disk gives not-found; a non-text type gives binary; a text type gives inlined or read-failed depending on the read; the excerpt and truncation flag follow the 10,000-character rule; missing keys default as in the source |
| Attachments.Describe | main.py:651-662 | every note starts with the file-attached lead and the file name |
| Attachments.InlinedNoteSize | main.py:648-654 | an inlined note has the fixed parts plus at most 10,000 characters of content, plus the truncation marker exactly when the file is longer |
| Attachments.ShortFileInlinedWhole | main.py:648-654 | a file of at most 10,000 characters is inlined whole with no marker |
| Attachments.TextTypeOrNoType | main.py:646 | a declared `text/` type makes a readable file inlined whatever its name; a file with no declared type is always treated as binary |
| Persona.Persona | main.py:617-625 | the system message starts with the lead and the user's name and ends with the fixed instructions; it has exactly the length of those parts iff company, job title and department are all empty |
| Persona.SystemMessage | main.py:617-625 | for a stored user, the message starts with the lead and the name; it is bare iff the derived company, the job title and the department are all empty; an e-mail without `@` contributes no company |
| Persona.PersonaFrame | main.py:617-625 | the persona starts with the lead and the name and ends with the fixed instructions; with no company, job title or department it is just those |
| Persona.FragmentsIffFields | main.py:617-623 | after the name, the company fragment appears iff the company is known, then the job fragment iff the job title is known, then the department fragment iff the department is known, each in full |
| Persona.Slot | main.py:618-623 | an optional fragment shows at its place iff its value is non-empty, provided what follows cannot be mistaken for it |
| Composer.MessageContent | main.py:634-665 | a message's content starts with its text; only a user message with a file gets the attachment note appended |
| Composer.RoleOf | main.py:667-671 | a `user` sender maps to the user role, a `bot` sender to the assistant role, any other sender to none; never the system role |
| Composer.KeptCount | main.py:667-671 | the number of messages sent on is at most the history length |
| Composer.HistoryEntries | main.py:633-671 | one entry per user or bot message, none of them a system entry |
| Composer.HistoryEntryAt | main.py:633-671 | the kept message at position `i` is sent as entry number "kept messages before it", with its mapped role and content |
| Composer.HistoryEntryFrom | main.py:633-671 | every history entry comes from a kept message |
| Composer.KeptCountMonotone | main.py:633-671 | kept messages keep their relative order |
| Composer.KeptCountPrefix | main.py:633-671 | a prefix never sends more entries than the whole history |
| Composer.AllKept | main.py:667-671 | with only `user` and `bot` senders every message is sent |
| Composer.IsRepeat | main.py:673-675 | a repeat needs a non-empty history whose last message is a user message, so that message is itself among the entries sent |
| Composer.Compose | main.py:614-675 | the payload is the persona as the only system entry, then the history entries, then the latest message unless it repeats the last user message |
| Composer.DoubleSubmissionSentOnce | main.py:673-675 | when the history already ends with the pending user message, the payload ends with that one copy |
| Composer.Placeholder | main.py:609-611 | without a client the reply greets the user by name and company, then ends in the fixed note about Azure OpenAI not being configured |
| Composer.GenerateReply | main.py:607-774 | without a client the placeholder; otherwise the provider's answer to the composed payload, or the apology followed by the error text |
| MemoryStore.GetConversation | app.py:23-37 | the answer is filed under the requested id or, without one, under the timestamp; an unknown id or no id stores a fresh empty conversation there; a known id changes nothing; other entries are untouched |
| MemoryStore.GetConversationKeepsWellFormed | app.py:23-37 | the fetch keeps every conversation filed under its own id with position-numbered messages |
| MemoryStore.NoIdRequestWipesSameSecond | app.py:27-35 | a request without an id, in the same second as an existing conversation, empties that conversation |
| MemoryStore.NoIdRequestWipesExample | app.py:27-35 | the same, for a conversation of one message |
| MemoryStore.GetConversationFresh | app.py:27-35 | the corrected fetch: without an id the answer is a new, empty conversation under a key that was free, the store grows by exactly one and every stored conversation is unchanged; an unknown id gets an empty conversation and a known id changes nothing |
| MemoryStore.FreshAgreesWhenIdGiven | app.py:27-35 | when an id is given, the corrected fetch and `get_conversation` give the same store and answer |
| MemoryStore.FreshFetchKeepsWellFormed | app.py:27-35 | the corrected fetch keeps every conversation filed under its own id with position-numbered messages |
| MemoryStore.FreshFetchExample | app.py:27-35 | with the corrected fetch, the conversation of the same second keeps its message and the request gets a new, empty conversation |
| MemoryStore.WithUserMessage | app.py:48-61 | the conversation is created if missing and gets the user message with the next position as its id |
| MemoryStore.HistoryForReply | app.py:54-65 | the reply is generated from the old messages followed by the user message just appended |
| MemoryStore.AddMessage | app.py:39-80 | a missing id or text answers 400 and changes nothing; otherwise only that conversation changes; a reply adds the user and bot messages with consecutive ids and answers both; a raised error keeps the user message and answers 500 |
| MemoryStore.FirstExchangeExample | app.py:39-76 | posting "hello" to a new conversation `abc` gives two messages, the user's "hello" then the bot's |
| MemoryStore.NumberMessageBreaksListing | app.py:42-45 | the number 42 as `message` passes the truthiness guard, yet it is a value that the listing's `[:50]` at app.py:90 cannot slice |
| MemoryStore.CorrectedGuardNarrows | app.py:45 | the corrected guard passes only non-empty strings: each passes the written guard and can be sliced, and on strings the two guards agree |
| MemoryStore.AddMessageRequest | app.py:41-45 | the request is refused with the 400 and the store unchanged iff either field is not a non-empty string; two string fields give exactly what `AddMessage` gives |
| MemoryStore.AddMessageKeepsWellFormed | app.py:39-80 | posting keeps every message id equal to its position |
| MemoryStore.ConversationPreview | app.py:87-90 | an empty conversation shows the placeholder; otherwise the first text, cut at 50 characters with "..." |
| MemoryStore.ListConversations | app.py:82-92 | one summary per stored conversation, with distinct ids, each carrying its conversation's preview |
| AiService.Window | ai_service.py:36 | the last ten messages, or all of them when there are fewer |
| AiService.RoleFor | ai_service.py:37-40 | a `user` sender is sent as user and every other sender as assistant, never as system |
| AiService.AppendsLatest | ai_service.py:43-44 | an empty history always gets the latest message; when it is not appended, the history's last message is sent in the user role |
| AiService.BuildPayload | ai_service.py:31-44 | the fixed prompt as the only system entry, then the windowed messages in order with their roles, then the latest message unless the history ends with a user message; at most 12 entries |
| AiService.GenerateAiResponse | ai_service.py:27-54 | without an API key the fixed notice; otherwise the provider's answer or "Sorry, I encountered an error: " followed by the error |
| AiService.OlderMessagesIgnored | ai_service.py:36 | messages older than the last ten do not influence the payload |
| AiService.LatestDroppedAfterAnyUserMessage | ai_service.py:43-44 | a history ending with any user message suppresses the latest message even when the texts differ |
| AiService.AppSendsLatestOnce | app.py:54-65 | `add_message` appends the user message before calling the generator. So, under the duplicate check at ai_service.py:43-44, the latest message is sent exactly once, as the final entry |
| AiService.EndsWithPendingMessage | ai_service.py:36-44 | a history ending with the pending user message gives a payload ending with exactly that message |

## Left out

- Mongo persistence, owner filtering and the listing's sort by update time in `main.py`. The Mongo-backed `get_conversation` and `add_message` are not modelled; the in-memory versions in `app.py` are.
- Flask routing, `login_required`, JSON encoding and HTTP status plumbing beyond the codes stated.
- The OAuth code exchange, the Graph profile call and the user upsert. They appear as one `ProviderLogin` outcome after the state check. Token generation (`secrets.token_urlsafe`) is a parameter.
- Logout, the admin routes, pinning, deletion, the profile route and file download.
- The streaming endpoint and the provider SDK.
- The `stream=True` mismatch in `main.py`. That call passes `stream=True` (main.py:712-718) and then reads `response.choices` (main.py:742). With the v1 OpenAI SDK, a streamed call returns an iterator that has no `choices`. So the read most likely raises, and every configured call then returns the apology. `Composer.GenerateReply` takes the provider as a parameter that either completes or fails. Its `ProviderError` branch covers that outcome. Its `Completed` branch describes a call made without streaming. The SDK object is not part of this model, so no finding is claimed.
- Concurrent requests. Each request is modelled as one atomic step on the store. `app.py` runs Flask's threaded development server (app.py:95). `add_message` holds no lock between appending the user message and appending the reply (app.py:61-74). Two overlapping posts to one conversation can therefore store user, user, bot, bot. `MemoryStore.AddMessage`'s "user message, then bot message" holds only for requests that do not overlap.
- Logging, the clock (a formatted timestamp parameter) and `time.time()` for stored upload names.
- `secure_filename` and the timestamped stored file name, because `/api/upload` is modelled up to its accept/reject decision.
- The 16 MiB upload limit (`Uploads.MaxContentLength`), which the web framework enforces.
- Case mapping is ASCII only. Python's `lower()` and `capitalize()` are Unicode-aware. `Ascii.LowerStr` and `Ascii.Capitalize` do not model non-ASCII letters.
- Dictionary iteration order. `MemoryStore.ListConversations` states one summary per key, not the order of the rows.
- The outer `except` around attachment handling (main.py:663-665), and fields holding an explicit `null`. A key present with value `None` is treated like a missing key, but the source does not treat it that way:
  - a `file` value that is not a mapping raises at `.get`;
  - a `None` path raises in `os.path.exists` (main.py:644);
  - a `None` name on an existing file whose declared type is non-empty and lacks `text/` raises at `.lower()` (main.py:646).

  Each of these ends in the "unable to process content" note, which the model's `Attachment` does not include.
- The `main.py` `/api/message` handler. It builds the user message (main.py:403-411) and calls the generator with the conversation's messages as they were before this post, plus the latest text decorated with the attached file's name (main.py:414-418). It stores the user and bot messages together only afterwards (main.py:430-436). So the pending message and its attachment are never in the history the generator sees. Only the generator is modelled.
- MemoryStore.AddMessage: takes `conversation_id` and `message` as strings, with "" for a missing or empty field. The decoded JSON body is modelled separately by `AddMessageRequest`, which applies the corrected string guard. The written guard passes a non-string message, which is stored and later breaks the listing at app.py:90; the second Findings row covers it. A list-valued `conversation_id` is unhashable, so app.py:48 raises and the request ends in a 500. That outcome is not modelled.
- The React front end, the static files and the C sources under `uploads/`.

## Findings

| source | as written | input that shows it | evidently intended | confidence | as-written member | corrected member |
|---|---|---|---|---|---|---|
| app.py:27-35 | without an `id`, the current second is used as the id and an empty conversation is assigned under it unconditionally | a conversation `20240101120000` holding one message, then `GET /api/conversation` with no id within that same second: the conversation loses its message | a request without an id opens a new, empty conversation ("Create a new conversation by not passing an ID" in frontend/src/components/ChatInterface.js:102), filed under a key nothing is stored under, leaving every stored conversation as it was | not executed | MemoryStore.NoIdRequestWipesExample | MemoryStore.GetConversationFresh |
| app.py:42-45 | the guard only tests that `conversation_id` and `message` are truthy, so a number or `true` as `message` passes and is stored as the text | `POST /api/message` with `{"conversation_id": "a", "message": 42}`, then `GET /api/conversations`: app.py:90 evaluates `42[:50]` and the listing fails for every client from then on | only non-empty strings are accepted for both fields, which is what the front end sends (frontend/src/components/ChatInterface.js:68-71) | not executed | MemoryStore.NumberMessageBreaksListing | MemoryStore.AddMessageRequest |

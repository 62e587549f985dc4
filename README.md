# Customer-support chat: reply resolver and conversation store

This project models, in Dafny, the core of a small customer-support chat
service with two back ends. The Express server (`server/`) and the
Netlify function (`netlify/functions/api/chat.js`) both do the same for each
incoming message. They store the user's turn and read the conversation
history. They work out a reply, store it as the assistant's turn and touch
the session row.

A reply comes from one of two places:

- **Demo mode**: an ordered list of keyword rules over the lowercased
  message. The first rule whose keywords match and whose document lookup
  succeeds answers with that document's content and a fixed token count. A
  rule whose keywords match but which finds no document falls through to
  the next rule. When no rule answers, a fixed 12-token sentence is returned.
- **External model**: the documentation becomes a system prompt. The
  prompt, the last ten history turns and the new message are sent to a
  chat-completion service. Any failure turns into a fixed
  "technical difficulties" reply with zero tokens.

Modules, one per file:

- `wrappers.dfy` (`Wrappers`): `Option` and `Result`.
- `text.dfy` (`Text`): ASCII `toLowerCase`, `includes` and `join`.
- `store.dfy` (`Store`): the `messages` and `sessions` tables. Every SQL
  statement is a pure transition over rows. The `ConversationStore` class
  holds the tables and a clock, and it has one method per store helper or
  inline query.
- `llm_service.dfy` (`LlmService`): the `LLMService` class of
  `server/llmService.js`. This covers the rule table, the resolver, the
  demo-mode test, prompt and message-list assembly, and `generateResponse`.
- `netlify_chat.dfy` (`NetlifyChat`): the three-rule resolver and the
  handler of the Netlify function.
- `server_chat.dfy` (`ServerChat`): the `/api/chat` route of the Express server.
- `api.dfy` (`Api`): the request body, JavaScript truthiness of its fields,
  and the storage faults a request may meet.

How the model represents the source:

- `CURRENT_TIMESTAMP` is a counter. Each successful write statement
  advances it by one, so `ORDER BY created_at` is the order rows were
  appended.
- Each SQL statement has its own fault argument (`UpdateSessionTimestamp` runs two statements and takes two). `None` means the statement
  succeeds. `Some(e)` means it fails with error `e` and changes nothing.
  This lets the contracts say what stays in the store after a failure
  part-way through a request. Neither back end rolls anything back.
- The external model is a function parameter
  `generate: Request -> Option<Completion>`. `None` stands for every way
  the call or the decoding of its response can fail.
- The documentation list is a parameter. A `docs.json` that cannot be read
  or parsed is `None` and becomes the empty list (`NewService`).

Where the code and the system's design description differ, the model
follows the code:

- The Express route reads the history before it stores the user turn
  (server/index.js:59 and 65). The history given to the resolver is
  therefore the session's earlier turns only. The Netlify function reads it
  after the insert, so its history ends with the new user turn.
- The Netlify function only runs `UPDATE sessions`. It never creates a
  session row, whereas the Express server upserts.
- The Netlify resolver has only the first three rules.

## Model

| member | source | states |
|---|---|---|
| `Text.Lower` | server/llmService.js:103 | lowercasing keeps the length, leaves no upper-case ASCII letter, shifts each upper-case letter by 32 and keeps every other character |
| `Text.IncludesIff` | server/llmService.js:106 | `s.includes(t)` holds exactly when `t` occurs in `s` at some position |
| `Text.JoinSnoc` | server/llmService.js:36-38 | `join(sep)` puts one separator between consecutive parts and none before the first |
| `Store.Appended` | server/index.js:149-151 | an insert adds exactly one row at the end with the next id, the given session, role and content and the current time, and keeps every earlier row |
| `Store.SessionTurns` | server/index.js:131-132 | the history query returns a turn exactly when it is in the log and belongs to the session |
| `Store.SessionTurnsChronological` | server/index.js:132 | a session's history is in ascending creation order |
| `Store.SessionTurnsAppend` | server/index.js:145-161 | storing a turn extends that turn's session history by it and leaves every other session's history as it was |
| `Store.RecentIsNewestSuffix` | netlify/functions/api/chat.js:129-138 | taking the newest N turns and reversing them gives the last min(N, n) turns of the session in ascending order, not the oldest N |
| `Store.RecentAfterAppend` | netlify/functions/api/chat.js:117-138 | history read after the user insert holds 1 to 10 turns, all of that session and ascending, and ends with the turn just stored |
| `Store.ExchangeAppendsTwo` | server/index.js:64-68 | a successful exchange adds exactly the user turn and then the assistant turn to the session's history, and other sessions' histories are unchanged |
| `Store.UpsertExactlyOne` | server/index.js:163-191 | after insert-or-ignore plus update exactly one row carries the id, its `updated_at` is refreshed, its `created_at` is kept if it existed, and other rows stay in place |
| `Store.UpsertTwice` | server/index.js:167-178 | a second upsert of the same id adds no row, keeps `created_at` and refreshes `updated_at` |
| `Store.TouchWithoutRowIsNoop` | netlify/functions/api/chat.js:155-165 | the update-only touch leaves the sessions table unchanged when no row has the id; otherwise it keeps every id and `created_at` and moves only that row's `updated_at` |
| `Store.ByRecency` | server/index.js:193-209 | the session listing holds every session once (a permutation) ordered by `updated_at` descending |
| `Store.ConversationStore.StoreMessage` | server/index.js:145-161 | a successful insert appends one turn and returns its id; a failed one changes nothing |
| `Store.ConversationStore.GetConversationHistory` | server/index.js:127-143 | the read returns exactly the session's turns in ascending order, or the storage error |
| `Store.ConversationStore.GetRecentHistory` | netlify/functions/api/chat.js:129-138 | the read returns the newest-ten-then-reversed window, or the storage error |
| `Store.ConversationStore.UpdateSessionTimestamp` | server/index.js:163-191 | an upsert: a failed insert changes nothing, a failed update leaves the inserted row, and success refreshes the one row with the id |
| `Store.ConversationStore.TouchSession` | netlify/functions/api/chat.js:155-165 | an update-only touch that never inserts a row |
| `Store.ConversationStore.GetAllSessions` | server/index.js:193-209 | the listing is every session ordered by `updated_at` descending, or the storage error |
| `LlmService.FindDoc` | server/llmService.js:107-109 | `find` returns the first document in list order whose lowercased title includes one of the filter words, and nothing when none does |
| `LlmService.Attempt` | server/llmService.js:105-116 | a rule answers exactly when its keywords match and some title passes its filter, and then with the first such document's content and the rule's token count |
| `LlmService.Resolve` | server/llmService.js:102-188 | the reply is either the fallback, when no rule answers, or the answer of the first rule that answers |
| `LlmService.ResolveFirstAnswering` | server/llmService.js:105-181 | first match wins: the first answering rule decides whatever later rules would say |
| `LlmService.ResolveConcat` | server/llmService.js:118-181 | a rule list split in two: the first part decides when one of its rules answers, otherwise the second part does |
| `LlmService.ResolveWithoutDocs` | server/llmService.js:183-187 | with an empty documentation list every reply is the 12-token fallback |
| `LlmService.DemoIgnoresCase` | server/llmService.js:103 | two messages with the same lowercase form get the same demo reply |
| `LlmService.PasswordRuleWins` | server/llmService.js:105-116 | a password plus reset or change question with a password or reset document gets the first such document with 45 tokens, whatever else it mentions |
| `LlmService.PasswordFallsThroughToRefund` | server/llmService.js:105-129 | a password question without a matching document falls through, and the refund rule answers from the first refund document with 38 tokens |
| `LlmService.PaymentBeforeApi` | server/llmService.js:157-181 | a message that triggers both the payment and the API rule, and that no earlier rule answers, is answered from the first payment document with 44 tokens |
| `LlmService.UnmatchedMessageFallsBack` | server/llmService.js:183-187 | a message that triggers none of the six rules gets the fallback |
| `LlmService.IsDemoMode` | server/llmService.js:28 | demo mode holds exactly when the key is absent or empty, or contains "REPLACE" or "AbCdEf" |
| `LlmService.DocsBlockSnoc` | server/llmService.js:36-38 | the documentation block is each document as `title: content`, in list order, joined by a blank line |
| `LlmService.SystemPromptContents` | server/llmService.js:40-49 | the system prompt contains the whole documentation block and the exact fallback sentence |
| `LlmService.MessagesShape` | server/llmService.js:52-69 | the message list is the system message, then the last min(10, n) history turns in order with role and content copied, then the user message |
| `LlmService.ExactlyOneSystemMessage` | server/llmService.js:52-69 | the message list contains exactly one system message |
| `LlmService.BuildMessages` | server/llmService.js:52-69 | the push loop builds exactly that message list |
| `LlmService.NewService` | server/llmService.js:6-24 | an unset or empty model name falls back to gpt-3.5-turbo, and documentation that failed to load is the empty list |
| `LlmService.LoadFailureMeansFallback` | server/llmService.js:16-24 | when docs.json cannot be loaded every demo reply is the fallback |
| `LlmService.DemoModeIgnoresHistory` | server/llmService.js:28-32 | in demo mode the reply depends on neither the history nor the external model |
| `LlmService.GenerationOutcome` | server/llmService.js:71-98 | outside demo mode a failed call yields the technical-difficulties reply with 0 tokens, and a successful one passes text and total tokens through |
| `LlmService.GenerateResponse` | server/llmService.js:26-100 | `generateResponse` returns exactly the reply the mode and the external outcome determine |
| `NetlifyChat.ServerExtendsNetlify` | netlify/functions/api/chat.js:39-82 | the three Netlify rules are the server's first three; both resolvers agree when one of them answers, and otherwise Netlify falls back |
| `NetlifyChat.LaterTopicsFallBack` | netlify/functions/api/chat.js:78-81 | a message that triggers none of the three rules gets the fallback, so account, payment and API questions are never answered |
| `NetlifyChat.NetlifyFallsThrough` | netlify/functions/api/chat.js:42-64 | a keyword match with no document falls through here too, and the first refund document answers with 38 tokens |
| `NetlifyChat.Handler` | netlify/functions/api/chat.js:84-187 | OPTIONS gives 200 with an empty body and other methods give 405. A missing field gives 400 with no write. Otherwise the user turn is stored first and the reply ignores history. The assistant turn's content is the reply, the touch is update-only, and each failure gives 500 and keeps earlier writes |
| `ServerChat.RecordExchange` | server/index.js:64-71 | the user turn, then the assistant turn, then the session upsert, stopping at the first failure with earlier writes kept |
| `ServerChat.PostChat` | server/index.js:47-85 | a missing field gives 400 before any store access. The resolver gets the session's earlier turns, read before the insert. Success gives 200 with exactly `{reply, tokensUsed}` after two appends and an upsert. A failure gives 500 with its message and keeps earlier writes |

## Left out

- The HTTP request to the chat-completion service (server/llmService.js:71-84) is the `generate` parameter. The `temperature: 0.7` setting (a float) and the Authorization header are not modelled.
- Reading and parsing `docs.json` (server/llmService.js:16-24, netlify/functions/api/chat.js:31-36) is replaced by a documentation parameter, where `None` means the load failed.
- `toLowerCase` is ASCII-only. Unicode case mapping is not modelled.
- SQL: `CURRENT_TIMESTAMP` is a counter, so same-second ties and their unspecified order are not modelled. The AUTOINCREMENT id is the row's position. The foreign key from messages to sessions is not enforced (SQLite's default), which is why a turn may be stored before its session row exists. Schema creation (server/database.js) is reduced to the `Role` datatype.
- `Store.ByRecency` is a stable insertion sort. SQL leaves the order of sessions with equal `updated_at` unspecified, and the contract claims only the descending order and that it is a permutation.
- Express, CORS headers, rate limiting, static files, dotenv and start-up (server/index.js:1-44, 211-235) are framework plumbing.
- The `/api/conversations/:sessionId` and `/api/sessions` routes (server/index.js:87-124) are thin wrappers around `GetConversationHistory` and `GetAllSessions` and are not modelled as routes. The client (client/src/App.js) and the other serverless functions are not part of this model.
- Request bodies whose `sessionId` or `message` is not a string are not modelled. A body that Express cannot parse is not modelled either. In the Netlify function, a body that `JSON.parse` rejects is `None` and gives 500.
- Concurrency between requests is not modelled. Each request runs its steps in sequence against one store.
- `NetlifyChat.Handler`: the history window the function reads is computed and then discarded, as in the source. Its shape is stated by `Store.RecentAfterAppend` and not by the handler's contract.

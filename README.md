# Nexus chat: conversation store and chat handler

This project models the server half of a small Cloudflare Worker chat assistant. The
Worker keeps a process-wide `Map` from user id to that user's conversation, as a list of
`{ role, content }` turns. A `POST /api/chat` request does five things:

1. It resolves the user id. An absent id becomes `"default-user"`.
2. It reads that user's history. An unseen user has an empty history.
3. It sends the last 10 turns of `[system, ...history, user message]` to a language model.
4. On success it appends the user/assistant pair and keeps only the last 20 turns.
5. It answers with `{ response, userId }`, or with `{ error, details }` and status 500.

`OPTIONS` requests get a CORS preflight reply. Every other request gets the HTML page.

Layout:

- `wrappers.dfy`: `Option`. `None` stands for a JSON field that is absent.
- `turns.dfy` (module `Turns`): turns, JavaScript's `slice(-k)`, the prompt window, the
  append-and-truncate step, the history invariant, and runs of several exchanges.
- `sessions.dfy` (module `Sessions`): `Chat` is one request as a function of the store,
  the parsed body and the inference service. Lemmas state what a request does. The class
  `Store` holds the mutable map; its `HandleChat` method is proved equal to `Chat`.
- `worker.dfy` (module `Worker`): method/path dispatch, response status and headers, and
  `Fetch`.

The inference service (`env.AI.run`) is a parameter `service: InferenceCall -> Inference`.
It receives the model name, the windowed turns and `max_tokens: 500`. It returns either
the reply text or the message of the error it threw. The only assumption is that
`service` is a function of its call: two requests that make the same call get the same
outcome. `DefaultIdentity` compares two requests under this premise. The handler calls
the service once per request, so nothing else depends on it.

Behaviour of the code worth noting:

- The preflight reply sets no status, so it has `Response`'s default, 200.
- The handler does not check that `message` is present. A missing message is stored as a
  user turn with no content (`None`).
- Input errors and inference errors both give status 500, with the same error shape.
- The window is the last 10 of the whole prompt, system turn included. The system turn
  drops out once the history has more than 8 turns.
- The error response has no `Access-Control-Allow-Origin` header. The success response has one.

## Model

| member | source | states |
|---|---|---|
| `Turns.SliceFromEnd` | src/index.js:35 | definition of JavaScript's `slice(-k)`; its properties are in `SliceFromEndShape` and `SliceFromEndAbsorbs` |
| `Turns.Prompt` | src/index.js:23-30 | definition of the full prompt `[system] + history + [user]`; see `WindowShape` and `WindowCases` |
| `Turns.Window` | src/index.js:23-35 | definition of the turns sent to inference, the last 10 of the prompt; see `WindowShape`, `WindowCases` and `WindowHasSystemIff` |
| `Turns.Appended` | src/index.js:40-45 | definition of the history after a success, the pair pushed and then the last 20 kept; see `AppendedShape`, `AppendedCases` and `AppendedPreservesValid` |
| `Turns.Conversation` | src/index.js:40-45 | definition of the history after successive successful requests for one user; see `ConversationKeepsMostRecent`, `ConversationStaysValid`, `BoundedHistory` and `EleventhExchangeEvictsFirst` |
| `Sessions.ResolveUserId` | src/index.js:19 | definition of the resolved user id, with default "default-user"; see `DefaultIdentity` |
| `Sessions.Lookup` | src/index.js:21 | definition of the history read for a user, empty when unseen; see `Store.Get` |
| `Sessions.Call` | src/index.js:32-38 | definition of the inference call: model name, window and 500 tokens; see `StoredWindowHasSystemIff` |
| `Sessions.Chat` | src/index.js:17-65 | definition of one chat request against the store; see `FailureLeavesStore`, `SuccessStoresExchange`, `Isolation`, `ChatPreservesValid`, `DefaultIdentity` and `FirstExchange` |
| `Turns.SliceFromEndShape` | src/index.js:35 | `slice(-k)` keeps min(k, n) elements, or all n when k is 0, and they are a suffix of the input |
| `Turns.SliceFromEndAbsorbs` | src/index.js:45 | taking the last k, appending more, and taking the last k again equals taking the last k once |
| `Turns.WindowShape` | src/index.js:23-35 | the window has min(10, (history length + 2)) turns, is a contiguous suffix of `[system] + history + [user]`, and its last turn is the new user turn |
| `Turns.WindowCases` | src/index.js:23-35 | with at most 8 history turns the window is the whole prompt; otherwise it is the last 9 history turns plus the new user turn |
| `Turns.WindowHasSystemIff` | src/index.js:23-35 | for a history without system turns, the system turn is in the window if and only if the history has at most 8 turns |
| `Turns.AppendedShape` | src/index.js:40-45 | after a success the history has min(20, (old length + 2)) turns, is a suffix of `old + [user, assistant]`, and ends with that pair |
| `Turns.AlternatingShape` | src/index.js:40-45 | a history of whole user/assistant pairs has even length and no system turn |
| `Turns.AlternatingAppend` | src/index.js:40-43 | pushing one user/assistant pair keeps a history made of whole pairs |
| `Turns.AppendedCases` | src/index.js:40-45 | for a valid history, below 20 turns nothing is evicted; at 20 turns exactly the oldest pair is evicted (FIFO) |
| `Turns.AppendedPreservesValid` | src/index.js:40-45 | push then `slice(-20)` keeps the invariant: whole user/assistant pairs, starting with user, at most 20 turns |
| `Turns.Flatten` | src/index.js:40-43 | N exchanges contribute exactly 2N turns before truncation |
| `Turns.AppendedAbsorbs` | src/index.js:45 | truncating right after an exchange does not change the last 20 turns of what follows |
| `Turns.ConversationKeepsMostRecent` | src/index.js:40-45 | truncating after every exchange gives the same history as truncating once at the end: the most recent 20 turns |
| `Turns.ConversationStaysValid` | src/index.js:40-45 | any run of successful exchanges keeps a valid history valid |
| `Turns.BoundedHistory` | src/index.js:40-45 | after N successful exchanges from an empty history, the history has min(2N, 20) turns and is valid |
| `Turns.EleventhExchangeEvictsFirst` | src/index.js:45 | after 11 exchanges the history is exactly the last 10 pairs; the first pair is gone |
| `Sessions.DefaultIdentity` | src/index.js:19 | a body without `userId` gives the same store and result as one with `userId` "default-user" |
| `Sessions.FailureLeavesStore` | src/index.js:19-63 | a body parse failure or an inference failure returns `Failed to process request` with the failure's detail and leaves the store unchanged |
| `Sessions.SuccessStoresExchange` | src/index.js:40-49 | on success the user's history becomes the last 20 of `old + [user(message), assistant(reply)]`; it has min(20, (old length + 2)) turns and ends with that pair; the result carries the reply and the resolved user id |
| `Sessions.Isolation` | src/index.js:45 | a request for one user neither adds, removes nor changes any other user's entry |
| `Sessions.ChatPreservesValid` | src/index.js:40-45 | if every stored history is valid before a request, every stored history is valid after it |
| `Sessions.StoredWindowHasSystemIff` | src/index.js:21-35 | for a stored history, the call sent to inference holds the system turn if and only if the history has at most 8 turns |
| `Sessions.FirstExchange` | src/index.js:17-49 | from an empty store, "hi" from "u1" answered with "hello" returns that reply for "u1" and stores exactly that pair |
| `Sessions.Store.constructor` | src/index.js:1 | the store starts as an empty map, which satisfies the invariant |
| `Sessions.Store.Get` | src/index.js:21 | an unseen user reads as the empty history, a known user reads as their stored history, and reading changes nothing |
| `Sessions.Store.HandleChat` | src/index.js:17-65 | the in-place handler keeps the invariant, leaves the store and result exactly as `Chat` says, and leaves the store unchanged on error |
| `Worker.RouteOf` | src/index.js:7-69 | `OPTIONS` on any path is a preflight; `POST /api/chat` is the chat API; every other request gets the page |
| `Worker.ChatResponse` | src/index.js:47-63 | the chat result is answered with status 200 and an open CORS origin on success, and with status 500 and no CORS header on error, both as JSON |
| `Worker.Fetch` | src/index.js:4-70 | only the chat route changes the store; the preflight and page replies have their fixed status and headers; the chat route's store and response are those of `Chat` |

## Left out

- The HTML page (`getModernHTML`) and its browser script are presentation. The page is the opaque payload `HtmlPage`.
- The inference call itself is a foreign network service. It is the parameter `service`. Latency, timeouts and provider behaviour are not modelled, and a timeout counts as a failure.
- JSON parsing of the request body and JSON serialisation of responses are library I/O. The parsed body is the datatype `Body`, and responses are the datatype `Response`.
- Only string or absent `message` and `userId` fields are modelled. Other JSON values are not: a `null` or numeric `userId` would become a map key as is.
- A reply without a `response` field is not modelled. Nor is an error without a `message`.
- Concurrency between requests is not modelled. The `await` on inference lets two requests for one user interleave on the shared map, and the code has no locking. Requests are modelled as sequential, each from start to finish.
- In-place aliasing is not modelled. `history.push` briefly leaves more than 20 turns in the array the map holds, until the `set` replaces it. The model shows only the state after the `set`.
- The URL is not parsed. `Request.path` is the URL's path name.

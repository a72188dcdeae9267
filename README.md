# Mental-health chat backend: conversation-history store

This project models the core of a small Flask backend that relays chat messages
to a hosted chat-completion API (Together) and keeps, per user, the whole
conversation so far as context for the next request.

The modelled behaviour is what `app.py` does:

- a process-wide dictionary `conversation_history` maps a user id to that
  user's ordered list of `{role, content}` turns;
- `analyze_responses_with_together(user_id, user_message)` creates the user's
  list when it is missing, appends the user turn, posts the fixed system prompt
  followed by the user's whole list, appends the assistant turn when a
  completion comes back, and otherwise answers with a text starting with
  `Error with Together API: ` while the user turn stays recorded;
- `chat()` rejects an empty or missing message with status `"error"` and HTTP
  400, uses `"default_user"` when no `user_id` key is given, and tags the reply
  of the handler with status `"response"`;
- `get_questions()` serves a fixed list of six questions.

Files:

- `decimal.dfy` (module `Decimal`): how the HTTP status code is rendered into
  the error reply, with its read-back and injectivity.
- `conversation.dfy` (module `Conversation`): turns, the request body, the
  abstract outcome of the network call, the error reply, the value-level
  specification `AfterAnalyze` of one handler call, the invariant that every
  assistant turn follows a user turn, and the class `ConversationStore` whose
  `history` map field its `Analyze` method updates in place.
- `chat.dfy` (module `ChatApi`): request validation and defaulting
  (`ChatStep`, and the method `Chat` on a store), the fixed question list, and
  lemmas about any sequence of requests (`Replay`): isolation between users,
  exact counts of recorded turns, preserved invariant, created keys.

The network call is not modelled: its result is an input
`Outcome = Ok(content) | HttpError(code, body) | Failed(detail)`. `Ok` is a
status-200 reply whose JSON held `choices[0].message.content`; `HttpError` is a
reply with any other status; `Failed` is an exception, including a payload
without the expected fields (`Classify` states this split). Requests are served
one at a time.

## Model

| member | source | states |
|---|---|---|
| `Decimal.IntToString` | app.py:51 | the status code in the error text is rendered as Python's `str(int)`: a leading `-` exactly for negative codes, digits otherwise |
| `Decimal.NatToStringRoundTrip` | app.py:51 | reading the rendered digits back yields the rendered number |
| `Decimal.IntToStringInjective` | app.py:51 | two codes with the same rendering are the same code |
| `Conversation.Classify` | app.py:42-44 | a reply is a completion exactly when the status is 200 and the payload has the reply text; any other status is an HTTP error carrying that status and body; a 200 reply without the text is a failure |
| `Conversation.ErrorReply` | app.py:50-53 | every error reply starts with `Error with Together API: `, followed by `<code> - <body>` for an HTTP error and by the exception text for a failure |
| `Conversation.ErrorReplyDeterminesCode` | app.py:51 | two HTTP-error replies that are equal carry the same status code (the code can be read back from the reply) |
| `Conversation.AfterAnalyze` | app.py:16-53 | one handler call: the user's key exists afterwards and no other key is added or changed; the user's list keeps its old turns, gains the user turn, and gains the assistant turn exactly on a completion (growth 2, otherwise 1); the posted messages are the system prompt followed by the user's list up to and including the new user turn; the reply is the completion or an error text |
| `Conversation.AnalyzeExtends` | app.py:26-47 | a call only appends to its user's list: the new list is the old one (empty for a new user) followed by the user turn and, on a completion, the assistant turn |
| `Conversation.NewTurnsPreserveWellFormed` | app.py:30-47 | appending one call's turns to a well-formed list keeps it well formed |
| `Conversation.AnalyzePreservesWellFormed` | app.py:26-47 | a call keeps the invariant of every list: no system turn is stored, and every assistant turn directly follows a user turn |
| `Conversation.NewTurnsCounts` | app.py:30-47 | one call's turns add exactly one user turn, and one assistant turn exactly on a completion |
| `Conversation.AnalyzeCounts` | app.py:30-47 | a call records exactly one more user turn for its user, and one more assistant turn exactly on a completion |
| `Conversation.RepliesNeverOutnumberMessages` | app.py:30-47 | in a well-formed list there are never more assistant turns than user turns, and strictly fewer when the last turn is a user turn |
| `Conversation.ConversationStore.constructor` | app.py:14 | the store starts as an empty map, which satisfies the invariant |
| `Conversation.ConversationStore.Analyze` | app.py:16-53 | the in-place updates of the map (create entry, append user turn, build the request, append assistant turn on success) produce exactly the state, request and reply of `AfterAnalyze`, and keep the invariant |
| `ChatApi.ChatStep` | app.py:56-66 | an empty or missing message yields `("Please enter a valid message.", "error", 400)` and leaves the whole map unchanged; otherwise the reply of the handler is returned with status `"response"` and HTTP 200; without a user id the call acts on `"default_user"` |
| `ChatApi.Chat` | app.py:56-66 | serving a request on the store produces the state and response of `ChatStep` and keeps the invariant |
| `ChatApi.Questions` | app.py:69-78 | the question list has six distinct, non-empty entries |
| `ChatApi.ReplayIsolation` | app.py:26-47 | after any sequence of requests, a user's list is its old list extended by that user's own accepted requests only, in order; other users' and rejected requests never touch it |
| `ChatApi.TranscriptCounts` | app.py:30-47 | a user's accumulated list gains one user turn per request and one assistant turn per completion, and stays well formed |
| `ChatApi.ReplayCounts` | app.py:56-66 | after any sequence of requests, a user's list holds exactly one more user turn per accepted request of theirs, and one more assistant turn per completion among them |
| `ChatApi.ReplayPreservesWellFormed` | app.py:56-66 | any sequence of requests keeps every list well formed |
| `ChatApi.ReplayKeys` | app.py:26-27 | after any sequence of requests, a user id has an entry exactly when it had one before or one of its requests was accepted; no entry is ever removed |

## Left out

- Flask routing, `jsonify`, CORS, the `/` welcome route and process start-up with the `PORT` variable: framework glue.
- `requests.post`, the headers with the bearer token, and `response.json()` indexing: replaced by the `Outcome` input. The text of an exception and of a non-200 body is an opaque string.
- The API key and URL come from configuration and are not modelled. The model name and `temperature: 0.7` are carried only as constants in the request body.
- Concurrent requests on the unsynchronised global map: one request at a time is assumed.
- A request body that is not a JSON object, a `user_id` that is JSON `null` or not a string, and a non-string `message`: the model's ids and messages are strings, or absent.
- A fixed-question intake flow (question index, completion check, `"question"`/`"analysis"`/`"done"` statuses) and line-break normalisation of replies are not in `app.py`; the only statuses are `"error"` and `"response"`.
- The sentiment-classification variant of the backend is not part of this model.

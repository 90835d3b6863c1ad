# SkillBarter connection requests and chat, modelled in Dafny

SkillBarter is a skill-bartering marketplace. Users list skills they teach or want to
learn. They send each other connection requests. Once a request is accepted, the two users
can read their chat history. This project models the part of the backend and client that
decides these things:

- the connection-request table and its three-state status (pending, accepted, rejected),
  with the HTTP routes that create, list, answer and query it (`Backend/routes/chat.js`);
- the socket handlers `join_room` and `send_message`. A send saves one message and emits it
  to the recipient's room and then to the sender's room (`Backend/index.js`);
- the user registry rules of `/signup` and `/signin`, and the skill text builder
  (`Backend/routes/auth.js`);
- the chat page's handling of incoming messages (filter, de-duplication) and of the send
  button (`frontend/src/pages/ChatPage.jsx`);
- the three record schemas, with their required fields, enums and defaults
  (`Backend/MessageRequest.js`, `Backend/Message.js`, `Backend/SkillUser.js`).

Layout: one module per source file, plus `Common` (Option, Result, ids, time), `JsStrings`
(JavaScript `trim` and `join`) and `Stores` (the collections as objects: `ChatStore` holds
the request table and the message log, `UserRegistry` the users). The route handlers that
change a collection are methods with `modifies` on the store object. The queries are
functions over the store's sequences. A request's id is its position in the request table,
and a message's `_id` is its position in the message log.

Outside inputs are parameters. These are the caller's identity (the auth middleware's
`req.userId`), the current time, whether a database write succeeds, the password hash and
password check (as functions), and the answer of bio generation.

Three behaviours of the code shape the model:
- Every valid answer overwrites a request's status, so `Respond` lets a decided request be
  decided again.
- A conversation entry carries only `requestId` and `partner`, and a request has no
  completion field.
- An existing request for the exact ordered pair blocks a new one, whatever its status. A
  request in the other direction does not.

## Model

| member | source | states |
|---|---|---|
| `MessageRequests.StatusName` | Backend/MessageRequest.js:6 | Each status is stored under a name, and casting that name back gives the same status. |
| `MessageRequests.ParseStatus` | Backend/MessageRequest.js:6 | Only "pending", "accepted" and "rejected" cast to a status, and each casts to its own value. |
| `MessageRequests.NewRequest` | Backend/MessageRequest.js:3-10 | A request is accepted exactly when it has a sender and a recipient and any given status is in the enum. The endpoints, note and scheduledTime are kept. A missing status becomes pending. A given creation time is kept, and a missing one becomes now. |
| `MessageRequests.DraftOf` | Backend/MessageRequest.js:3-10 | Validating the fields of any stored request rebuilds that request, whatever the clock says. |
| `Messages.NewMessage` | Backend/Message.js:3-8 | A message is accepted exactly when sender, recipient and a non-empty content are given. The fields are kept, and the timestamp defaults to now. |
| `Messages.DraftOf` | Backend/Message.js:3-8 | Validating the fields of any valid stored message rebuilds it, whatever the clock says. |
| `SkillUsers.KindName` | Backend/SkillUser.js:10 | Each skill kind is stored under a name, and casting that name back gives the same kind. |
| `SkillUsers.ParseKind` | Backend/SkillUser.js:10 | Only "teach" and "learn" cast to a skill kind. |
| `SkillUsers.NewSkill` | Backend/SkillUser.js:8-12 | A skill is refused exactly when its given kind is outside the enum. The name is kept, and the level defaults to 1. |
| `SkillUsers.NewSkills` | Backend/SkillUser.js:8-12 | A skills list validates exactly when every skill does. The result keeps the length and, position by position, the validated skills. |
| `SkillUsers.NewUser` | Backend/SkillUser.js:3-23 | A user is accepted exactly when username, email and password are non-empty and every skill validates. Credits default to 5, skills default to empty, and ratings start empty. |
| `SkillUsers.SkillDraftOf` | Backend/SkillUser.js:8-12 | Validating the fields of any stored skill rebuilds that skill. |
| `SkillUsers.SkillDraftsOf` | Backend/SkillUser.js:8-12 | Validating the fields of any stored skills list rebuilds that list. |
| `SkillUsers.UserDraftOf` | Backend/SkillUser.js:3-23 | Validating the fields of any user with non-empty username, email and password and no ratings rebuilds that user. |
| `SkillUsers.AddUserKeepsEmailsUnique` | Backend/SkillUser.js:5 | Adding a user whose email is not registered keeps every email unique. |
| `JsStrings.TrimStart` | frontend/src/pages/ChatPage.jsx:99 | Drops exactly the leading JavaScript whitespace. The result is a suffix that does not start with whitespace, and everything dropped is whitespace. |
| `JsStrings.TrimEnd` | frontend/src/pages/ChatPage.jsx:99 | Drops exactly the trailing whitespace. The result is a prefix that does not end with whitespace, and everything dropped is whitespace. |
| `JsStrings.BlankIffAllWhitespace` | Backend/routes/auth.js:26 | A string trims to "" if and only if every character is whitespace. |
| `JsStrings.JoinAppend` | Backend/routes/auth.js:11-12 | Joining one more part adds exactly one separator and then the part. |
| `ChatRoutes.HttpStatus` | Backend/routes/chat.js:21-116 | The refusals answer 403 exactly for unauthorized (line 58) and no-connection (line 116), 400 for a duplicate (line 21) or an invalid action (line 65), and 404 for an unknown request (line 57). |
| `ChatRoutes.FindRequest` | Backend/routes/chat.js:15-18 | Finds the first request for the ordered pair (sender, recipient), and finds none exactly when no such request exists, whatever its status. |
| `ChatRoutes.AddRequestKeepsPairsUnique` | Backend/routes/chat.js:15-24 | Creating a request only for a pair that has none keeps at most one request per ordered pair. |
| `ChatRoutes.CreateRequest` | Backend/routes/chat.js:10-32 | If a request for the same ordered pair exists in any status, the create fails with "Request already sent" and the table is unchanged. Otherwise it appends exactly one pending record with the caller as sender and the given recipient, note and scheduledTime. Earlier records and messages stay the same, and the one-per-pair invariant is kept. |
| `ChatRoutes.DuplicateCheckIsDirectional` | Backend/routes/chat.js:15-18 | When the table holds only requests from A to B, no request from B to A exists, so B can still send one. |
| `ChatRoutes.Positions` | Backend/routes/chat.js:41-44 | Lists exactly the positions whose request passes the query, each once, in table order. |
| `ChatRoutes.ListPending` | Backend/routes/chat.js:39-45 | Lists exactly the requests addressed to the caller that are still pending, each with its id, once and in table order. |
| `ChatRoutes.OtherEndpoint` | Backend/routes/chat.js:86-88 | The partner together with the caller are the request's sender and recipient, so the partner is the other endpoint. |
| `ChatRoutes.Conversations` | Backend/routes/chat.js:76-95 | Gives one entry per accepted request in which the caller is sender or recipient, in table order. Each entry's partner is the other endpoint. |
| `ChatRoutes.Decision` | Backend/routes/chat.js:60-66 | "accept" gives accepted, "reject" gives rejected, and any other action gives nothing. No action gives pending. |
| `ChatRoutes.Respond` | Backend/routes/chat.js:52-69 | An unknown id fails with not-found. A caller who is not the recipient fails with unauthorized. Any action except accept/reject fails as invalid. Each failure is checked in that order and leaves the table unchanged. Otherwise only the target's status is set, whatever it was before. |
| `ChatRoutes.MessagesBetween` | Backend/routes/chat.js:118-122 | Keeps each message between the two users, in either direction, as often as it is stored, and nothing else. |
| `ChatRoutes.InsertByTimestamp` | Backend/routes/chat.js:123 | Inserting into a timestamp-sorted list keeps it sorted and adds exactly that message. |
| `ChatRoutes.SortByTimestamp` | Backend/routes/chat.js:123 | Gives the same messages in non-decreasing timestamp order. |
| `ChatRoutes.History` | Backend/routes/chat.js:102-129 | Refused with "No active connection" unless an accepted request joins the pair in either direction. Otherwise it gives exactly the pair's messages, in either direction, sorted by timestamp. |
| `ChatRoutes.MessagesBetweenSymmetric` | Backend/routes/chat.js:118-122 | The messages of the pair are the same whichever of the two asks. |
| `ChatRoutes.HistorySymmetric` | Backend/routes/chat.js:108-123 | Both parties get the same answer: both are refused, or both see the same list. |
| `ChatRoutes.AcceptOpensHistory` | Backend/routes/chat.js:108-116 | Once a request is accepted, its two endpoints can read their history. |
| `ChatRoutes.PendingLifecycle` | Backend/routes/chat.js:24-44 | A new request appears in its recipient's pending list. Once it is answered, it leaves that list. |
| `SocketServer.RoomQueue` | Backend/index.js:53-55 | A room's queue holds only messages that were emitted to that room. |
| `SocketServer.RoomQueueAppend` | Backend/index.js:53-55 | Every room's queue follows the emit order: later emits are appended after earlier ones. |
| `SocketServer.Persist` | Backend/index.js:50 | Saving succeeds exactly when the write succeeds and sender, recipient and a non-empty content are given. The saved message has the next id, the given fields and the current time. |
| `SocketServer.Server.JoinRoom` | Backend/index.js:40-43 | The socket joins the room named by the user id. No other room changes and nothing is emitted. |
| `SocketServer.Server.SendMessage` | Backend/index.js:45-59 | Appends exactly one message with the given sender, recipient and content, and keeps earlier messages unchanged. It then emits the message to the recipient's room and then to the sender's room. If saving fails, nothing is stored or emitted. Rooms and requests are untouched. |
| `SocketServer.SendFansOut` | Backend/index.js:53-55 | After a send, the recipient's queue and the sender's queue each end with the message. Every other queue is unchanged. |
| `SocketServer.SendNeedsNoConnection` | Backend/index.js:45-58 | A message between two users with no accepted request is still saved, while their history stays refused. |
| `AuthRoutes.NamesOfKind` | Backend/routes/auth.js:11-12 | Every name listed comes from an input skill of that kind, and there are no more names than skills. |
| `AuthRoutes.NamesOfKindConcat` | Backend/routes/auth.js:11-12 | The names of a concatenation are the names of its parts, in input order. |
| `AuthRoutes.NamesOfOne` | Backend/routes/auth.js:11-12 | A single skill contributes its name, or "" when it has none, exactly when it has the kind. |
| `AuthRoutes.GenerateSkillText` | Backend/routes/auth.js:10-14 | The text starts with "Can teach: " and ends with ". Bio: ", followed by an empty bio because the input is a list. |
| `AuthRoutes.SkillTextOfNoSkills` | Backend/routes/auth.js:10-14 | With no skills both name lists are empty and the text is exactly "Can teach: . Wants to learn: . Bio: ". |
| `AuthRoutes.SkillTextIgnoresOtherKinds` | Backend/routes/auth.js:11-12 | A skill whose kind is neither teach nor learn leaves the text unchanged. |
| `AuthRoutes.SkillTextAddTeach` | Backend/routes/auth.js:10-14 | A teach skill added at the end joins the teach part after ", ", or alone when it is the first. The learn part is unchanged, and the whole new text is given. |
| `AuthRoutes.SkillTextAddLearn` | Backend/routes/auth.js:10-14 | A learn skill added at the end joins the learn part after ", ", or alone when it is the first. The teach part is unchanged, and the whole new text is given. |
| `AuthRoutes.FinalBio` | Backend/routes/auth.js:26-42 | A non-blank bio is kept. A blank one is replaced by the generated bio when generation returned a non-empty string, and is kept otherwise. |
| `AuthRoutes.IndexOfEmail` | Backend/routes/auth.js:20 | Gives the first user registered under the email, or nothing exactly when none is. |
| `AuthRoutes.LookupIndex` | Backend/routes/auth.js:20 | With an email, gives the first user registered under it, or nothing exactly when none is. Without one, the filter is empty and any user matches: nothing exactly when the registry is empty. |
| `AuthRoutes.FindByEmail` | Backend/routes/auth.js:20 | The registry scan finds the same user as `LookupIndex`. |
| `AuthRoutes.Signup` | Backend/routes/auth.js:16-74 | A lookup that finds a user fails with "User already exists" and changes nothing. A missing password or an invalid record fails and changes nothing. Without an email nothing is ever added: the answer is "User already exists" when any user is registered and a server error otherwise. Otherwise exactly one user is added, with the given email, 5 credits, no ratings and the chosen bio, and emails stay unique. |
| `AuthRoutes.Signin` | Backend/routes/auth.js:76-92 | A lookup that finds nobody fails with not-found. A found user with no password given fails with a server error. A failed password check on the found user fails with invalid credentials. Otherwise the result is the found user, the one whose password was checked: the first registered under the email, or with no email the first registered user. The registry is unchanged. |
| `ChatPage.Dedup` | frontend/src/pages/ChatPage.jsx:35-40 | The old list stays as a prefix and the list grows by at most one. It grows exactly when no shown message has the same `_id`, or the same timestamp, content and sender, and then by the incoming message. Afterwards the message counts as shown. |
| `ChatPage.ReceiveAsWritten` | frontend/src/pages/ChatPage.jsx:33-43 | The message is considered only with a chat selected and a sender who is the partner or the user. Otherwise the list is unchanged. A considered message is appended exactly when it is not already shown, and a shown one leaves the list unchanged. |
| `ChatPage.Receive` | frontend/src/pages/ChatPage.jsx:33-43 | The corrected update: only a message between the user and the selected partner is considered. It is appended exactly when it is not already shown. Any other message leaves the list unchanged. |
| `ChatPage.DedupIdempotent` | frontend/src/pages/ChatPage.jsx:37-39 | Applying the same message twice gives the list that applying it once gives. |
| `ChatPage.ReceiveIdempotent` | frontend/src/pages/ChatPage.jsx:34-40 | Delivering the same message twice shows it once, with both filters. |
| `ChatPage.DedupKeepsNoDuplicates` | frontend/src/pages/ChatPage.jsx:37-39 | A list without duplicate ids or duplicate (timestamp, content, sender) keeps that property. |
| `ChatPage.AsWrittenShowsForeignMessage` | frontend/src/pages/ChatPage.jsx:34 | As written, a message from the partner to a third user is added to the conversation. |
| `ChatPage.ReceiveKeepsConversation` | frontend/src/pages/ChatPage.jsx:34 | With the corrected filter, a list of the pair's messages stays a list of the pair's messages. |
| `ChatPage.SendDecision` | frontend/src/pages/ChatPage.jsx:99-106 | Nothing is emitted exactly when the text trims to empty or no chat is selected. Otherwise the untrimmed text is emitted from the user to the partner with the current time, and it has a non-whitespace character. |
| `ChatPage.EmittedMessagesAreSaved` | frontend/src/pages/ChatPage.jsx:101-111 | Everything the page emits passes the server's message validation. |
| `ChatPage.ChatView.OnReceiveMessage` | frontend/src/pages/ChatPage.jsx:33-43 | The shown list becomes its update with the sender-only filter the page applies. |
| `ChatPage.ChatView.OnReceiveMessageCorrected` | frontend/src/pages/ChatPage.jsx:33-43 | The shown list becomes its update with the corrected filter on both endpoints. |
| `ChatPage.ChatView.HandleSendMessage` | frontend/src/pages/ChatPage.jsx:97-113 | Either nothing happens, or the message is emitted once and the text box is cleared. |

## Left out

- Credit settlement and session completion: `routes/session.js` and `routes/credits.js` are not part of this model.
- Embeddings, bio generation and matching: these are foreign calls returning floating-point data. Bio generation enters only as its answer (`generatedBio`).
- Password hashing and checking: these enter as the functions `hash` and `passwordMatches`. JWT issuance, the `/me` route and the auth middleware are left out; the caller's id is given.
- The `populate` joins that add sender and recipient profiles (username, email) to pending and conversation entries: these are display joins. The entries carry the user ids.
- Server errors (HTTP 500) from database exceptions and from malformed ids or bodies: the model takes ids as numbers, and the create route always receives a recipient. Message and user validation failures are modelled, and so are a missing email or password at signup and signin.
- Concurrency: the handlers run one at a time. The one-request-per-pair invariant of `ChatStore.Valid` depends on that, as the source has no unique index on the pair.
- The socket.io transport: delivering a room's emits to its sockets, connection and disconnection.
- The client's own `join_room` calls (ChatPage.jsx lines 31 and 54), fetching conversations, requests and history, and all rendering and scrolling.
- The user fields `embedding` and `transactions`. The `star` of a rating, the `level` of a skill and a user's `credits` are integers, while the schema declares all three as `Number`, which also stores fractions.
- AuthRoutes.Signup, AuthRoutes.Signin: without an email the lookup is `findOne({})`, which may return any stored user. The model fixes that choice to the first registered user.
- Dates are integers (milliseconds). The timestamp the client attaches to `send_message` is ignored by the server, which stamps its own.
- ChatRoutes.History: does not fix the order of messages with equal timestamps. The database's sort leaves it open; the model's stable insertion sort is one choice among those the contract allows.
- AuthRoutes.GenerateSkillText: the text after "Bio: " is always empty, because the model's input is a list. The source reads `skills.bio`, which is undefined for an array.

## Findings

| source | as written | input that shows it | evidently intended | confidence | as-written member | corrected member |
|---|---|---|---|---|---|---|
| frontend/src/pages/ChatPage.jsx:34 | The incoming-message filter checks only the sender. The page also joins the partner's room (line 54), so it receives the partner's messages to anyone. | User 1 has partner 2 selected and receives `{sender: 2, recipient: 3, content: "hi"}`. The message is appended to the conversation with 2. | Only messages between the user and the selected partner are shown. | medium; not executed | `ChatPage.AsWrittenShowsForeignMessage` | `ChatPage.Receive` |

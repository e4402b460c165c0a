# ChatVerse core, modelled in Dafny

ChatVerse is a two-person chat application. It has an Express and socket.io server over a MongoDB user collection, and a React client. This project models the parts of it that hold state and rules:

- **User registry** (`user.dfy`, `registry.dfy`). The user record, and the four HTTP handlers over the user table: `/register`, `/login`, `/add-friend` and `/my-friends`. The handlers are stated twice. Pure functions (`RegisterStep`, `LoginReply`, `AddFriendStep`, `MyFriendsReply`) give the reply and the new table. The class `UserStore` keeps the table in a field, and its methods update it in place the way the handlers do; each method's contract ties it to its function. The lemmas prove the properties of the functions. The main one is that the table stays `Consistent`: every user is keyed by name and valid, and the friend relation is symmetric, irreflexive and free of duplicates.
- **Socket router** (`router.dfy`). The class `Router` holds the live sockets and a map from room name to the sockets that joined it. `JoinRoom` is the `join_room` handler. `SendMessage` is the `send_message` handler: it returns how many copies of the unchanged payload each socket receives.
- **Client chat logic** (`room_key.dfy`, `chat_history.dfy`, `chat_message.dfy`). The room key is the two names sorted by JavaScript's string order and joined with `"_"`. Beside it are the de-duplicating `receive_message` reducer (`Received`) and the bubble grouping predicates `IsFirst` and `IsLast`. The class `ChatView` holds the component state that `sendMessage` and the socket listener change.
- **Client and server together** (`conversation.dfy`). The server echoes every payload to its sender, and the client's optimistic copy absorbs that echo, so the history keeps exactly one copy. Clients join the room named after their own user name but send to the pair key, which is never either name. So a message reaches the peer only if some socket joined the pair-key room. `SendMissesPeer` proves the miss for every pair of names; two scenario methods show both outcomes for "alice" and "bob".

The server persists no message. It has no typing, read-receipt or history endpoint, and it does not check who may publish to a room.

Notes on behaviour the model makes explicit:

- The schema marks `username` and `password` as `required`. Mongoose's required check refuses the empty string, so registering with an empty name or password fails when the record is saved. The handler's `catch` answers 500. This is `ServerError` in `RegisterStep`.
- `/add-friend` looks the friend up and checks for it first. It reads `me.username` only afterwards, so an unknown caller gives a 500 (`ServerError`), and only when the friend exists. `/my-friends` for an unknown user gives a 500 in the same way.
- Socket.io puts each socket in a room named by its own id when it connects (`Router.Connect`). `io.to(room)` includes the sender when it is a member, so a sender can receive its own payload twice.
- The `receive_message` listener does not filter by room, whatever its comment says. Every payload the socket receives is appended to the open history unless it is a duplicate.
- The duplicate test also matches on text and time, and time is kept to the minute. So a second message with the same text in the same minute is dropped even though it has a new id (`ReceivedDropsRepeatedText`).
- The room key is injective only when neither name contains `"_"`. `RoomKey("a_b", "c") == RoomKey("a", "b_c")` (`RoomKeyCollision`).

## Model

| member | source | states |
|---|---|---|
| UserModel.NewUser | backend/models/User.js:3-8 | A new record is built only when the name and password are both non-empty; it then holds exactly those two values and an empty friends list |
| UserModel.WellFormed | backend/models/User.js:4-5 | A record is valid when its name and its password, both `required`, are non-empty strings |
| Registry.Status | backend/index.js:37-74 | The HTTP status of each reply: 201 created; 200 for login, friend added and the friend list; 404 friend not found; 500 for a caught exception; 400 for every other refusal |
| Registry.Message | backend/index.js:37-66 | The exact `message` text of each reply ("Username taken", "User created", "Invalid credentials", "Login successful", "User not found!", "You can't add yourself!", "Already friends!", "Friend added!"); the friend list and a server error carry none |
| Registry.RegisterStep | backend/index.js:33-42 | The /register handler as a function of the table: taken name, then validation failure, then the new record saved under its name |
| Registry.LoginReply | backend/index.js:44-51 | The /login handler: "Invalid credentials" unless the name exists with exactly that password, then success with the stored name |
| Registry.AddFriendStep | backend/index.js:53-68 | The /add-friend handler: the checks in the source's order, then both names appended to each other's lists |
| Registry.MyFriendsReply | backend/index.js:70-75 | The /my-friends handler: the stored list, or a server error for an unknown user |
| Registry.RegisterTakenUnchanged | backend/index.js:36-37 | Registering a name that is already taken replies "Username taken" (400) and leaves the table unchanged |
| Registry.RegisterFreshAddsOne | backend/index.js:38-40 | Registering a fresh, valid name adds exactly one user with that password and no friends; every other entry is unchanged |
| Registry.RegisterInvalidUnchanged | backend/index.js:38-41 | A fresh name with an empty name or password fails validation on save: a server error, and the table is unchanged |
| Registry.RegisterKeepsConsistent | backend/index.js:36-40 | Register keeps the table consistent: keyed by name, well-formed, friend relation symmetric, irreflexive and duplicate-free |
| Registry.LoginMatchesExactly | backend/index.js:47-49 | Login succeeds, with the user's own name, iff the user exists and the stored password equals the given one; otherwise "Invalid credentials" |
| Registry.AddFriendErrorOrder | backend/index.js:56-60 | add-friend checks in order: friend missing → "User not found!"; then missing caller → server error; then self → "You can't add yourself!"; then already listed → "Already friends!"; otherwise "Friend added!" |
| Registry.AddFriendRejectedUnchanged | backend/index.js:58-60 | Any rejected add-friend leaves every user unchanged |
| Registry.AddFriendAppendsBoth | backend/index.js:62-66 | A successful add-friend appends the friend to the caller's list and the caller to the friend's list; no other user and no password changes |
| Registry.AddFriendKeepsConsistent | backend/index.js:58-65 | If the friend relation is symmetric, irreflexive and duplicate-free before add-friend, it still is afterwards |
| Registry.MyFriendsInOrder | backend/index.js:72-73 | my-friends returns the stored list unchanged, in insertion order; an unknown user gives a server error |
| Registry.MyFriendsAfterAdd | backend/index.js:62-73 | After a successful add-friend, my-friends gives the caller's old list followed by the friend, and the friend's old list followed by the caller |
| Registry.UserStore.Register | backend/index.js:33-42 | The in-place handler gives the reply and the new table of `RegisterStep` and keeps the table consistent |
| Registry.UserStore.Login | backend/index.js:44-51 | Reads the table without changing it; succeeds iff the name exists with that password, and otherwise replies "Invalid credentials" |
| Registry.UserStore.AddFriend | backend/index.js:53-68 | The in-place handler (push to both lists, save both) gives the reply and the new table of `AddFriendStep` and keeps the table consistent |
| Registry.UserStore.MyFriends | backend/index.js:70-75 | Returns the stored friends list of an existing user, and a server error for an unknown one |
| SocketRouter.Router.Connect | backend/index.js:78 | A new connection is live and sits in the room named by its own id; no other room changes |
| SocketRouter.Router.JoinRoom | backend/index.js:80-82 | `join_room(u)` adds the socket to room `u` and to no other room; earlier members stay |
| SocketRouter.Router.SendMessage | backend/index.js:83-86 | Every member of `data.room` receives `data` unchanged once, and the sender once more; only live sockets receive it |
| RoomKeys.Below | frontend/src/App.jsx:141 | JavaScript's `<` on strings, used by the default sort: compares code unit by code unit, and a proper prefix comes first |
| RoomKeys.BelowTotal | frontend/src/App.jsx:141 | The string order used by the default sort is total: two different names are always ordered one way or the other |
| RoomKeys.Sort2 | frontend/src/App.jsx:141 | Sorting two names gives the same two names, the second never below the first |
| RoomKeys.RoomKey | frontend/src/App.jsx:141 | The key is one of the two names, "_", then the other |
| RoomKeys.RoomKeyIsNoName | frontend/src/App.jsx:141 | The key is one character longer than both names together, so it never equals either participant's name |
| RoomKeys.RoomKeySymmetric | frontend/src/App.jsx:141 | The key for (me, friend) equals the key for (friend, me) |
| RoomKeys.RoomKeyShape | frontend/src/App.jsx:141 | The key is the smaller name, "_", then the larger one |
| RoomKeys.RoomKeyInjective | frontend/src/App.jsx:141 | When no name contains "_", equal keys mean the same pair of names |
| RoomKeys.RoomKeyCollision | frontend/src/App.jsx:141 | Names containing "_" collide: ("a_b", "c") and ("a", "b_c") share the key "a_b_c" |
| RoomKeys.RoomKeyExample | frontend/src/App.jsx:115 | ("alice", "bob") and ("bob", "alice") both give "alice_bob" |
| ChatHistory.SameEntry | frontend/src/App.jsx:98 | The duplicate test: an entry matches the incoming data when it has the same id, or the same text and the same time |
| ChatHistory.Seen | frontend/src/App.jsx:98 | `prev.find(...)` finds an entry: some entry of the history passes the duplicate test |
| ChatHistory.Received | frontend/src/App.jsx:96-101 | The reducer returns the history unchanged when an entry has the same id, or the same text and time; otherwise it appends the data at the end. Either way the result then holds a matching entry |
| ChatHistory.ReceivedIdempotent | frontend/src/App.jsx:96-101 | Receiving the same payload twice gives the same history as receiving it once |
| ChatHistory.ReceivedAllExtends | frontend/src/App.jsx:100 | Over any sequence of deliveries the old history stays a prefix, and at most one entry is added per delivery |
| ChatHistory.ReceivedAllSeen | frontend/src/App.jsx:98-99 | Copies of a payload that the history already matches change nothing |
| ChatHistory.ReceivedDropsRepeatedText | frontend/src/App.jsx:98 | A message with a new id but the same text and time as the last entry is dropped |
| ChatHistory.CountSameUnseen | frontend/src/App.jsx:98 | No entry matches the payload iff the duplicate test finds nothing |
| ChatHistory.IsFirst | frontend/src/App.jsx:257 | An entry opens a run when it is the first entry or the previous entry has another author |
| ChatHistory.IsLast | frontend/src/App.jsx:258 | An entry closes a run when it is the final entry or the next entry has another author |
| ChatHistory.LastBeforeFirst | frontend/src/App.jsx:257-258 | An entry closes a run of one author iff the next entry opens one |
| ChatHistory.RunHasOneAuthor | frontend/src/App.jsx:257-258 | All entries from a run's start up to its first closing entry share one author |
| ChatHistory.RunCloses | frontend/src/App.jsx:257-258 | Every entry starts or continues a run of one author that closes at or after it: some later-or-equal entry is `IsLast`, and all entries from this one to it share its author |
| ChatHistory.CannotSend | frontend/src/App.jsx:139 | The send guard, `!message` or `!currentChat`: an empty draft, no open chat, or an empty chat name |
| ChatHistory.ChatView.constructor | frontend/src/App.jsx:56-68 | A new view has no open chat, an empty draft and an empty history |
| ChatHistory.ChatView.Type | frontend/src/App.jsx:288 | Typing replaces the draft and nothing else |
| ChatHistory.ChatView.OpenChat | frontend/src/App.jsx:114-122 | Opening a chat clears the history, then sets it to the fetched history if the request succeeds |
| ChatHistory.ChatView.SendMessage | frontend/src/App.jsx:138-157 | With an empty draft or no open chat nothing changes and nothing is sent; otherwise exactly one entry is appended (author = user, type "text", room = the room key), the draft is cleared and that entry is the emitted payload |
| ChatHistory.ChatView.Receive | frontend/src/App.jsx:94-102 | The listener sets the history to the reducer's result and changes nothing else |
| Conversation.EchoAbsorbed | frontend/src/App.jsx:96-152 | After the optimistic append, any number of server echoes of the payload leave the history as it was, whatever it held before |
| Conversation.EchoLeavesOneCopy | frontend/src/App.jsx:96-152 | With an id no earlier entry has, the history after the echoes holds the payload once, at the position of the optimistic append, and no other entry has its id |
| Conversation.EchoLeavesOneMatch | frontend/src/App.jsx:98-152 | When no entry matched the payload before, exactly one entry matches it after the append and the echoes |
| Conversation.SendMissesPeer | backend/index.js:80-86 | For every pair of names, a peer socket that sits only in the room of its user's name (and of its own id) receives no copy of a message sent to the pair key; the sender receives at least its echo |
| Conversation.UsernameRoomsMissPeer | backend/index.js:80-86 | With both clients in the rooms of their own names, Alice's message to "alice_bob" reaches only Alice (one echo), her history holds it once, and Bob receives nothing |
| Conversation.PairRoomReachesPeer | backend/index.js:84 | Once Bob's socket has joined "alice_bob", Alice's message reaches Bob's socket once and lands in Bob's history |

## Left out

- Transport and storage: Express routing, CORS, HTTP plumbing, axios, the socket.io wire protocol, MongoDB, `mongoose.connect`, `server.listen`. The user collection is an in-memory map, the HTTP answers are `Reply` values (with `Status` and `Message` giving the code and text), and a socket emission is a count of copies per socket.
- Concurrency: each handler runs as one sequential step. The non-atomic read-then-write-both of add-friend (two `findOne`s, then two `save`s) is not modelled. Neither is the interleaving of async handlers.
- Disconnection: the server has no disconnect handler, and socket.io's removal of a closed socket from its rooms is not modelled.
- Exceptions other than the two null dereferences and the save validation are not modelled. These include database failures and request bodies that lack a field or carry a non-string. All request fields are strings here.
- Clock and locale: `Date.now()` ids and `toLocaleTimeString` times are inputs to `ChatView.SendMessage`.
- The history request in `loadMessages` targets an endpoint that the server does not define. Its outcome is an input to `ChatView.OpenChat`.
- Strings: each character stands for one UTF-16 code unit. The order of characters outside the Basic Multilingual Plane, which JavaScript compares by surrogate code units, is not modelled.
- UI: rendering, themes, animation, localStorage persistence and scrolling. The grouping predicates are modelled, but not the CSS classes chosen from them.
- backend/models/Message.js is not part of this model: nothing in the code uses it. Its field list shaped `ChatMessage`.
- Typing indicators, read receipts and message persistence do not exist in the code.

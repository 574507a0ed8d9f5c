# Canvas-Connect room synchronisation, modelled in Dafny

This project models the real-time core of Canvas-Connect, a shared whiteboard. It has three parts.

- **Server.** The Socket.IO handlers that keep one ordered stroke history per room in MongoDB and fan drawing, clear, undo and chat events out to the room's sockets (`backend/services/socketService.js`).
- **Client replica.** The React context that holds each client's copy of a room (`CanvasConnect/src/context/RoomContext.jsx`).
- **Account store.** The simulated account store kept in `localStorage` (`CanvasConnect/src/context/AuthContext.jsx`).

Files:

- `common.dfy`: `Option` and `Result`.
- `room_model.dfy` (module `RoomModel`): the wire types (`Json` stroke payloads, `StrokeRecord {data, timestamp}`) and the `Room` collection as `map<RoomId, seq<StrokeRecord>>`. A map makes `roomId` unique by construction. It also holds the store operations the handlers apply: fetch-or-create, `$push` without upsert, `$set []` and pop-and-save. Lemmas cover receipt-order appends, late-joiner replay and undo as the inverse of a drawing.
- `socket_service.dfy` (module `SocketService`): class `Server` with three fields.
  - `rooms`: the store.
  - `joined`: Socket.IO membership, `map<SocketId, set<RoomId>>`.
  - `outbox`: one `Emission(recipients, event, payload)` per emit call. The recipient set is resolved when the call is made: `socket.emit` reaches the sender, `socket.to(room)` reaches the room's members minus the sender, and `io.to(room)` reaches all of the room's members.

  `Inbox(outbox, sid)` is what one socket has received, in order. Every handler is one atomic method. Its postconditions give the new store, memberships and outbox, and the change in every socket's inbox. The invariant `Valid()` says that every joined room exists in the store.
- `room_context.dfy` (module `RoomContext`): class `RoomProvider` over `isConnected`, `roomId`, `drawingHistory`, `usersInRoom`, the number of registered room listeners and the client's emitted events. The pure `Project` (the `item.data` projection) and `Repeat` are the values its listeners write.
- `auth_context.dfy` (module `AuthContext`): the pure duplicate check, credential lookup and list update, with class `AuthProvider` over the two `localStorage` entries and the `currentUser` cell.

The code does not keep a connection to one room at a time, has no server-side leave, does not serialise store writes per room, does not make timestamps monotonic, and does not drop mutation events from a socket that has not joined the room. The model follows the code:

- `joinRoom` never leaves earlier rooms, and the server has no `leaveRoom` handler. A socket therefore stays a member of every room it ever joined until it disconnects. The client's `leaveRoom` emit reaches no handler and changes no server state, so it has no method here.
- `drawing`, `clearCanvas`, `undoLastStroke` and `chatMessage` take `roomId` from the payload. They do not check that the sender has joined that room.
- The `drawing` relay happens before the write and whatever its outcome. `clearCanvas` and `undoLastStroke` broadcast only after a successful write.
- `$push` and `$set` run without upsert. Drawing into, or clearing, a room missing from the store writes nothing. `clearCanvas` still broadcasts the empty history.
- The `disconnect` handler only logs. Socket.IO itself removes the socket from all its rooms, and `Server.Disconnect` models that removal.
- On the client, each `joinRoom` registers the `loadDrawing`, `drawing` and `userJoined` listeners again. `leaveRoom` removes them all; a disconnect removes none. After a disconnect and a rejoin, each relayed stroke and each announced user is therefore appended once per registration. `RoomContext.RejoinAfterDisconnect` walks through this case. With one registration, exactly one copy is appended.
- The client treats `roomId` as set only when it is neither `null` nor the empty string, as JavaScript's truthiness test does.
- A client's own strokes do not enter its `drawingHistory`. `emitDrawing` only emits, and the server's relay skips the sender. The drawer's copy lacks its strokes until its next `loadDrawing`, which comes from a clear, an undo or a rejoin. `RoomContext.DrawerMissesOwnStroke` walks through this case.
- `SocketService.ScenarioDrawThenUndo` is a worked scenario for room `abc123`: two sockets join, one draws a stroke, the other is relayed it, and an undo sends both the empty history.

## Model

| member | source | states |
|---|---|---|
| RoomModel.EnsureRoom | backend/services/socketService.js:27-33 | an absent room is created with an empty history; every existing room's history is unchanged; no other room is added |
| RoomModel.PushStroke | backend/services/socketService.js:52-55 | an existing room gets exactly one record appended at the end, earlier records in order; other rooms unchanged; an absent room is not created (no upsert) |
| RoomModel.ClearHistory | backend/services/socketService.js:66 | an existing room's history becomes empty; other rooms unchanged; no room is created |
| RoomModel.Undo | backend/services/socketService.js:78-82 | on a non-empty history, exactly the last record is removed and the prefix kept in order; on an empty or missing room the store is unchanged |
| RoomModel.UndoChangesExactlyWhenCanUndo | backend/services/socketService.js:79-86 | the undo guard (`CanUndo`: the room is stored and its history is non-empty) holds exactly when an undo changes the store; otherwise the handler writes nothing |
| RoomModel.DrawingsKeepReceiptOrder | backend/services/socketService.js:46-55 | after any sequence of successful drawing writes, the room's history is the old history followed by those strokes in receipt order; other rooms unchanged |
| RoomModel.LateJoinerReplay | backend/services/socketService.js:27-39 | a socket joining after N strokes were written is sent the room's earlier history followed by exactly those N strokes, in order |
| RoomModel.UndoRemovesLastDrawing | backend/services/socketService.js:79-82 | undo right after a drawing write is possible and restores the store exactly |
| RoomModel.ClearIsFinal | backend/services/socketService.js:62-90 | clearing twice equals clearing once, and undo after a clear changes nothing |
| SocketService.MembersOf | backend/services/socketService.js:68 | the members of a room that `io.to(roomId)` reaches (also used at lines 84 and 97): exactly the sockets whose rooms include it |
| SocketService.JoinSocket | backend/services/socketService.js:35 | `socket.join` adds the room to the socket's rooms, keeps its earlier rooms and changes no other socket |
| SocketService.JoinAddsMember | backend/services/socketService.js:35-42 | after a join, the room's members are the old members plus the joiner; other rooms' members are unchanged |
| SocketService.JoinIdempotent | backend/services/socketService.js:35 | joining the same room twice leaves the same memberships as joining once |
| SocketService.InboxAppend | backend/services/socketService.js:39-48 | one emit reaches exactly its recipient set and is received after everything they had received before |
| SocketService.Server.constructor | backend/services/socketService.js:9-20 | a started server (`initSocket`) holds the persisted rooms (the `Room` collection of backend/models/Room.js, lines 21-32), no memberships and no emissions |
| SocketService.Server.JoinRoom | backend/services/socketService.js:24-43 | fetch-or-create, then join; the joiner alone receives `loadDrawing` with the room's full ordered history; every other member, never the joiner, receives `userJoined {username, socketId}`; a store error escapes the handler uncaught and is modelled as a step that changes nothing |
| SocketService.Server.Drawing | backend/services/socketService.js:46-59 | every other member of `roomId` receives the stroke verbatim, the sender never does, whether or not the write fails; a successful write appends one record `{data, timestamp}`, and always does so when the sender has joined `roomId` (a joined room is always in the store) |
| SocketService.Server.ClearCanvas | backend/services/socketService.js:62-72 | the history becomes empty and every member, the sender included, receives `loadDrawing []`; a failed write sends nothing |
| SocketService.Server.UndoLastStroke | backend/services/socketService.js:75-91 | on a non-empty history the last record is removed and every member receives the remaining history; on an empty or missing room or a store error, nothing changes and nothing is sent |
| SocketService.Server.ChatMessage | backend/services/socketService.js:94-99 | every member of `roomId`, the sender included, receives `{username, message, timestamp}`; no history and no membership changes |
| SocketService.Server.Disconnect | backend/services/socketService.js:103-105 | the socket leaves every room; the store and the outbox are untouched |
| RoomContext.Project | CanvasConnect/src/context/RoomContext.jsx:84 | the projection has the same length as the records and holds each record's `data` in the same order |
| RoomContext.Repeat | CanvasConnect/src/context/RoomContext.jsx:88-96 | what n registered listeners append for one event: exactly n copies of the value |
| RoomContext.IsRoomSet | CanvasConnect/src/context/RoomContext.jsx:106 | a definition without a contract of its own: the truthiness test on `roomId` (also at line 121), neither `null` nor the empty string; `LeaveRoom` and `EmitDrawing` state their behaviour in terms of it |
| RoomContext.ReplicaFollowsAppend | CanvasConnect/src/context/RoomContext.jsx:88-90 | when the server appends a record and the client appends the relayed stroke once, the client still shows the projection of the server's history |
| RoomContext.ReplicaFollowsUndo | CanvasConnect/src/context/RoomContext.jsx:82-85 | the history pushed after an undo projects to the client's history with its last stroke removed |
| RoomContext.RoomProvider.constructor | CanvasConnect/src/context/RoomContext.jsx:15-19 | initially not connected, no room, empty history and users, no listeners, nothing sent |
| RoomContext.RoomProvider.OnConnect | CanvasConnect/src/context/RoomContext.jsx:41-44 | a listener of the socket, so it runs only when there is one: `isConnected` becomes true; nothing else changes |
| RoomContext.RoomProvider.OnDisconnect | CanvasConnect/src/context/RoomContext.jsx:46-52 | a listener of the socket, so it runs only when there is one: `isConnected` false, `roomId` cleared, history and users emptied; the listeners stay registered |
| RoomContext.RoomProvider.JoinRoom | CanvasConnect/src/context/RoomContext.jsx:61-102 | with a socket and a current user: connected, `roomId` becomes `id`, `joinRoom {roomId: id, username}` is emitted and one more set of listeners is registered; otherwise nothing is emitted and no cell changes |
| RoomContext.RoomProvider.LeaveRoom | CanvasConnect/src/context/RoomContext.jsx:105-117 | with a socket, a room set and a current user: `leaveRoom` is emitted, the listeners are removed and `roomId`, history and users are reset; with a socket and a room set but no current user, reading `currentUser.username` throws (`threw`) and nothing changes; without a socket or a room, nothing changes and nothing is thrown |
| RoomContext.RoomProvider.EmitDrawing | CanvasConnect/src/context/RoomContext.jsx:120-124 | `drawing {roomId, strokeData}` is emitted exactly when a socket and a room are set, so always when a room is set (a room is only entered on a socket); no cell changes |
| RoomContext.RoomProvider.OnLoadDrawing | CanvasConnect/src/context/RoomContext.jsx:82-85 | with listeners registered, the history becomes each record's `data`, same length, same order |
| RoomContext.RoomProvider.OnDrawing | CanvasConnect/src/context/RoomContext.jsx:88-90 | the stroke is appended at the end once per registered listener, earlier entries kept; with one listener, exactly once |
| RoomContext.RoomProvider.OnUserJoined | CanvasConnect/src/context/RoomContext.jsx:93-96 | the joined username is appended to `usersInRoom` once per registered listener; with one listener, exactly once |
| AuthContext.GetRegisteredUsers | CanvasConnect/src/context/AuthContext.jsx:34-42 | a definition without a contract of its own: the stored list when it parses, otherwise empty; `Register` states what this means for a caller, since a missing or unparsable list is overwritten by the new user alone |
| AuthContext.UsernameTaken | CanvasConnect/src/context/AuthContext.jsx:56 | true exactly when some stored user has that username |
| AuthContext.FindUser | CanvasConnect/src/context/AuthContext.jsx:74 | none exactly when no stored user matches both username and password; otherwise the first such user |
| AuthContext.RegisterList | CanvasConnect/src/context/AuthContext.jsx:56-63 | the list after a registration: the old list as a prefix, one user more exactly when the name was free and then that user at the end; the name is taken afterwards |
| AuthContext.RegisterKeepsUnique | CanvasConnect/src/context/AuthContext.jsx:55-64 | one registration keeps the stored usernames pairwise distinct |
| AuthContext.RegisterAllKeepsUnique | CanvasConnect/src/context/AuthContext.jsx:54-69 | usernames stay pairwise distinct across any sequence of registrations |
| AuthContext.RegisterThenLogin | CanvasConnect/src/context/AuthContext.jsx:54-82 | right after a successful registration, logging in with the same credentials finds exactly the new user |
| AuthContext.LongEnough | CanvasConnect/src/pages/RegisterPage.jsx:24 | a definition without a contract of its own: the page's guard, both fields at least 3 characters; `SubmitRegistration` states the refusal and the pass-through in terms of it |
| AuthContext.AuthProvider.constructor | CanvasConnect/src/context/AuthContext.jsx:19-31 | a stored current user that parses is restored; one that does not parse is removed and no user is current |
| AuthContext.AuthProvider.IsAuthenticated | CanvasConnect/src/context/AuthContext.jsx:95 | a definition without a contract of its own: `!!currentUser`; `Logout` promises it is false afterwards |
| AuthContext.AuthProvider.Register | CanvasConnect/src/context/AuthContext.jsx:54-69 | a duplicate username fails with 'Username already exists!' and changes nothing; a new one is appended at the end of the stored list, earlier users kept, and becomes the current user; uniqueness is preserved; with no stored list or one that does not parse, the registration succeeds and the stored list becomes exactly the new user |
| AuthContext.AuthProvider.SubmitRegistration | CanvasConnect/src/pages/RegisterPage.jsx:24-30 | a username or password shorter than 3 characters is refused before `register` with nothing changed; otherwise a taken name fails with 'Username already exists!' and nothing changes, and a free name is appended and becomes the current user |
| AuthContext.AuthProvider.Login | CanvasConnect/src/context/AuthContext.jsx:72-83 | succeeds exactly when some stored user matches both fields, and the first match becomes the current user; otherwise fails with 'Invalid username or password!' and the current user is unchanged |
| AuthContext.AuthProvider.Logout | CanvasConnect/src/context/AuthContext.jsx:86-89 | no current user afterwards; the registered-user list is untouched |

## Left out

- Interleaving of the asynchronous handlers: each handler is one atomic step, and nothing is claimed about concurrent executions. The code has no per-room serialisation.
- The internals of Mongoose and Socket.IO: `findOne`, `updateOne`, `save`, `join` and `to`/`emit` are the map, set and outbox operations above. A store failure is the `storeFails` parameter. Socket.IO's automatic room named after each socket id is not modelled.
- `Date.now` at socketService.js:97 and Room.js:16 is the `now` parameter. Nothing makes it monotonic, and the model claims no ordering of timestamps.
- Payloads are typed: a missing `roomId` or `username` (`undefined` in JavaScript) is not modelled. Stroke numbers are kept as literal text, since no handler computes with them.
- `getIo` and the `io` singleton, `backend/server.js`, `backend/config/db.js`, the room-creation endpoint (`backend/controllers/roomController.js`, `backend/routes/roomRoutes.js`, with its `uuidv4`) and `CanvasConnect/src/services/api.js`: process plumbing, HTTP layer and foreign randomness.
- Logging (`console.log` and `console.error`) is not modelled.
- Canvas rendering, coordinate scaling, the Three.js background and the presentation components are not modelled. This includes the `clearCanvas`, `undoLastStroke` and `chatMessage` emits that `WhiteboardPage.jsx` makes directly on the socket, and its chat listener.
- React lifecycle: the effect that creates or drops the socket when the user changes becomes the constructor's `hasSocket`. The effect cleanup and re-rendering are not modelled.
- In `AuthContext.jsx`, `localStorage` quota errors are not modelled: the error caught in `saveRegisteredUsers` and the throwing `setItem` of the current user. A stored value that parses to something other than a list of users is not modelled either. Lengths are counted in Unicode scalar values, where JavaScript counts UTF-16 code units.
- RoomContext.RoomProvider.JoinRoom: the wait for `connect` is taken to complete. A connection that never comes, which leaves the call pending forever, is not modelled.
- SocketService.Server.JoinRoom: the handler has no `try`/`catch`, so a failure in `findOne` or `save` rejects the listener's promise and escapes unhandled; on current Node.js that ends the server process, and `backend/server.js` installs no handler for it. The model treats such a failure as a step that changes nothing, with both failures as one flag, and does not model the process exit.

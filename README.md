# Presence registry, message relay and chat pane of a real-time chat application

This project models the live part of a two-party chat application: a Node
server running socket.io and a React client page.

- Each browser connection announces its user id with `joinRoom`. The
  server joins that socket to a room named after the user id. It records the
  user as online in an insertion-ordered `Map` from user id to socket id (the
  last join wins). Then it broadcasts the map's keys to every client.
- `sendMessage` stores the message and then emits the stored record to the
  receiver's room and then to the sender's room.
- `disconnect` deletes the first map entry holding the closing socket and
  broadcasts again.
- An HTTP route returns the stored conversation between two users, oldest
  first.
- The chat page filters incoming messages against the selected user, guards
  and sends the draft, replaces the message list with fetched history, and
  shows online status and "my" messages.
- The registration page labels password strength by length.

Modules (one file each):

- `Protocol` (`protocol.dfy`): ids, `Option`, the stored `Message` record, the `sendMessage` payload.
- `Registry` (`registry.dfy`): the `onlineUsers` map as an association list
  `seq<Entry>` in insertion order. `MapSet` is `Map.set`, `MapDelete` is
  `Map.delete`, `DeleteFirstBySocket` is what the disconnect handler does.
  The lemmas state the ordering and "nothing else changes" facts.
- `ChatServer` (`server.dfy`): class `Server`. Its fields are the map, the
  socket.io room membership (user id to set of socket ids), the message store,
  the log of `updateOnlineUsers` broadcasts and the log of `receiveMessage`
  emissions. There is one method per handler. Storage is a parameter
  `StoreOutcome`: either the id and creation time it assigned, or a failure.
  `Disconnect` keeps the handler's scanning loop with its early `break`.
- `Conversation` (`conversation.dfy`): the history route's filter and sort as
  functions over `seq<Message>`.
- `ChatPane` (`chat_pane.dfy`): ECMAScript `trim`, the send guard, the
  relevance filter, and class `Pane`. `Pane` holds the page state
  (`selectedUser`, `messages`, the draft, `onlineUsers`), logs of emitted
  payloads and history requests, and the online and "my message" predicates.
- `PasswordStrength` (`strength.dfy`): `getStrength`, with `length` measured
  in UTF-16 code units as JavaScript measures it.
- `EndToEnd` (`end_to_end.dfy`): facts relating the server's state to what a
  page draws.

The model follows the code, including these points:

- Delivery goes to socket.io rooms and never consults `onlineUsers`. An
  emission reaches every socket currently in the room, which may be several
  sockets of one user (two open tabs). The map keeps one socket per user,
  the last one to join. When one tab closes and its disconnect removes u from
  the map, messages to u still reach u's other tab while it stays in room u.
- Disconnect removes only the first entry, in the map's insertion order,
  that holds the socket. A rejoin keeps its key's place in that order. When
  one socket joined under two new user ids, its disconnect removes the id
  inserted first. The id inserted second stays online under the closed
  socket (`Registry.SharedSocketLeavesStaleEntry`).
- That case arises in the code. The page's socket is created once per
  browser tab, at module level (client/src/pages/Chat.jsx:6). Logging out
  (Chat.jsx:106-109) only clears storage and navigates away. Logging in as
  another user in the same tab (client/src/pages/Login.jsx:21) mounts the
  chat page again, and it sends a second `joinRoom` from the same socket.
  That socket is then in both users' rooms. It receives the other user's
  messages, and the live filter may show them
  (`ChatPane.ForeignMessageAdmitted`).
- `Registry.DisconnectTakesUserOffline` is a fact about one disconnect
  step: if u's socket is held by no other entry, that disconnect takes u
  offline.
- The disconnect broadcast is unconditional, also when nothing was removed.

Inputs from outside the code become parameters: the storage outcome of
`Message.create`, the history response of the HTTP request, the text typed
into the input, and the payload of an `updateOnlineUsers` event.

## Model

| member | source | states |
|---|---|---|
| Registry.Keys | server/server.js:76 | the broadcast payload `Array.from(onlineUsers.keys())`: the map's user ids, one per entry, in insertion order |
| Registry.MapSet | server/server.js:74 | after `set(u, s)` the key u maps to s and every other key keeps its value; the key order is unchanged when u was already a key, and u is appended last otherwise |
| Registry.MapSetNewKey | server/server.js:74 | `set` of a key not yet in the map appends its entry after all others |
| Registry.MapSetNoDup | server/server.js:74-76 | `set` keeps the keys unique, so the broadcast after a join lists no user twice |
| Registry.MapDelete | server/server.js:103 | after `delete(u)` on a map with unique keys, u is absent and every other key keeps its value |
| Registry.DeleteFirstBySocket | server/server.js:101-106 | the disconnect scan removes at most one entry and introduces none |
| Registry.DeleteFirstBySocketNoMatch | server/server.js:101-106 | a socket that no entry holds leaves the map unchanged |
| Registry.DeleteFirstBySocketAt | server/server.js:101-106 | exactly the first entry in insertion order that holds the socket is removed; all entries after it stay in place, including later ones holding the same socket |
| Registry.MapDeleteAt | server/server.js:101-104 | deleting the key of the entry the loop stopped at removes exactly that entry when no earlier entry has the same key (always so in a map) |
| Registry.DeleteFirstBySocketNoDup | server/server.js:101-106 | the disconnect keeps the keys free of duplicates |
| Registry.LookupSurvivesDelete | server/server.js:101-106 | a user bound to socket b keeps that binding when a different socket disconnects |
| Registry.RejoinSurvivesStaleDisconnect | server/server.js:74-106 | after u rejoins from socket b, a disconnect of any earlier socket a leaves u bound to b |
| Registry.DisconnectTakesUserOffline | server/server.js:101-106 | in one disconnect step: when no other user holds u's socket, its disconnect takes u offline and leaves every other binding unchanged |
| Registry.SharedSocketLeavesStaleEntry | server/server.js:71-106 | for any map and two new ids joined in that order from one socket no entry held, its disconnect leaves the map plus the second id's entry: the first id goes offline, and the second stays online under the closed socket |
| ChatServer.Server.RoomMembers | server/server.js:89-92 | an emission to a room reaches exactly the sockets that joined that room (by `joinRoom`, or at connection for the room named by the socket's own id) and have not disconnected since (the server's `Valid` keeps rooms equal to this history of joins and disconnects) |
| ChatServer.Persisted | server/server.js:82-86 | the stored record carries the payload's sender, receiver and text, plus the id and `createdAt` storage assigned |
| ChatServer.Server.constructor | server/server.js:65 | the map starts empty; no rooms, messages, broadcasts, emissions, joins or disconnects exist yet |
| ChatServer.Server.Connect | server/server.js:67 | a new socket enters the room named by its own id (socket.io's automatic room), so an emission to that id reaches it; presence, broadcasts, store and emissions are unchanged |
| ChatServer.Server.JoinRoom | server/server.js:71-77 | the socket joins the user's room; the map is `set` (last join wins, other users unchanged, a rejoin keeps its position, a new user is appended); exactly one broadcast of the current key sequence, which has no duplicates and which equals the keys until the next change; the (user, socket) join is recorded, so the socket is in the user's room until it disconnects; a socket that has disconnected sends no further event |
| ChatServer.Server.SendMessage | server/server.js:80-97 | on storage success the stored record is appended to the store and emitted to the receiver's room and then to the sender's room (the same room twice when they coincide); on failure nothing is stored or emitted; presence, rooms, broadcasts and the join and disconnect history never change |
| ChatServer.Server.Disconnect | server/server.js:100-110 | the first entry holding the socket is deleted, and no other entry is touched; exactly one broadcast of the current key sequence follows, also when nothing was removed; the socket is recorded as disconnected and leaves every room (socket.io's own cleanup) |
| Conversation.Between | server/routes/messageRoutes.js:8-11 | the `$or` filter admits a message iff its sender and receiver, as a set, are exactly the two users |
| Conversation.Filter | server/routes/messageRoutes.js:7-11 | each stored message between the two users, in either direction, is kept as many times as it is stored; nothing else is kept |
| Conversation.Insert | server/routes/messageRoutes.js:12 | inserting into a time-sorted list keeps it sorted and adds exactly one element |
| Conversation.SortByCreatedAt | server/routes/messageRoutes.js:12 | the result is sorted ascending by `createdAt` and is a permutation of the input |
| Conversation.Query | server/routes/messageRoutes.js:4-15 | the route's result is sorted ascending by `createdAt` and holds each stored message between the two users exactly as often as stored, and no other message |
| Conversation.QueryMembership | server/routes/messageRoutes.js:7-11 | a message is returned iff it is stored and goes from a to b or from b to a |
| Conversation.QuerySymmetric | server/routes/messageRoutes.js:8-11 | the queries for (a, b) and (b, a) return the same multiset |
| Conversation.QuerySelf | server/routes/messageRoutes.js:8-11 | for a == b exactly the stored self-addressed messages are returned |
| Conversation.StoredMessageIsRetrievable | server/routes/messageRoutes.js:7-12 | a stored message is returned by the history query of either participant, whether or not the receiver was online |
| ChatPane.Trim | client/src/pages/Chat.jsx:95 | `trim()` yields the empty string iff every character of the draft is ECMAScript whitespace or a line terminator |
| ChatPane.CanSend | client/src/pages/Chat.jsx:95 | the send guard passes iff a user is selected and the draft is not blank |
| ChatPane.Relevant | client/src/pages/Chat.jsx:50-54 | an incoming message is admitted iff a user is selected and the message belongs to that user's conversation with somebody |
| ChatPane.RelevantAgreesWithHistory | client/src/pages/Chat.jsx:50-54 | for a message delivered to the client's own room and a selected user other than oneself, the live filter admits exactly the messages the history route returns for that pair |
| ChatPane.SelfSelectionAdmitsOtherConversations | client/src/pages/Chat.jsx:50-54 | when users select themselves, every message they send to someone else passes the live filter, though the self-conversation history excludes it |
| ChatPane.ForeignMessageAdmitted | client/src/pages/Chat.jsx:50-54 | on a socket that also sits in another user's room, a message from the selected user to someone other than the signed-in user passes the live filter, though it is not part of their conversation |
| ChatPane.Pane.constructor | client/src/pages/Chat.jsx:15-19 | the page starts with no online users, no selection, no messages and an empty draft |
| ChatPane.Pane.UpdateOnlineUsers | client/src/pages/Chat.jsx:38-40 | the online list becomes the last broadcast; nothing else changes |
| ChatPane.Pane.ReceiveMessage | client/src/pages/Chat.jsx:49-56 | a message is appended after all earlier ones iff a user is selected and is its sender or receiver; otherwise the list is unchanged |
| ChatPane.Pane.EditDraft | client/src/pages/Chat.jsx:187-189 | the draft becomes the typed text; nothing else changes |
| ChatPane.Pane.SelectUser | client/src/pages/Chat.jsx:89-92 | the user becomes selected and one history request for (signed-in user, selected user) is issued; the message list is not touched yet |
| ChatPane.Pane.FetchMessagesDone | client/src/pages/Chat.jsx:78-87 | a successful response replaces the message list wholesale; a failed one leaves it unchanged |
| ChatPane.Pane.SendMessage | client/src/pages/Chat.jsx:94-104 | with a blank draft or no selection nothing is emitted and the draft is kept; otherwise exactly one payload (signed-in id, selected id, untrimmed draft) is emitted and the draft becomes empty; every payload names the signed-in user as sender |
| ChatPane.Pane.ShowsOnline | client/src/pages/Chat.jsx:144 | a user is shown online (in the list, and at line 164 in the header) iff the id is in the last broadcast |
| ChatPane.Pane.IsMine | client/src/pages/Chat.jsx:175 | a message is drawn as "my" iff the signed-in user is its sender |
| ChatPane.MineIffToSelected | client/src/pages/Chat.jsx:174-178 | in the conversation with another selected user, a message is drawn on "my" side iff it was sent to that user, and on the other side iff it was sent by them |
| EndToEnd.EchoDrawnAsMine | client/src/pages/Chat.jsx:174-178 | the record the server stores and echoes for any payload this page sent is drawn on "my" side |
| EndToEnd.ShownOnlineIffBound | client/src/pages/Chat.jsx:143-146 | a page holding the server's last broadcast shows a user online (in the list and, at line 164, in the header) iff the server's map has an entry for that user |
| PasswordStrength.Utf16Length | client/src/pages/Register.jsx:75 | JavaScript's `length`: one code unit per character below U+10000 and two above, so between the character count and twice it, and zero only for the empty string |
| PasswordStrength.GetStrength | client/src/pages/Register.jsx:74-79 | a length in UTF-16 code units above 10 gives "strong", 7 to 10 "medium", 1 to 6 "weak", 0 the empty label, and no other label occurs |
| PasswordStrength.NameInjective | client/src/pages/Register.jsx:74-79 | the four labels are four distinct strings |
| PasswordStrength.StrengthMonotone | client/src/pages/Register.jsx:74-79 | the label depends only on the UTF-16 length, and a longer password in code units never gets a lower label |
| PasswordStrength.AstralCharactersCountTwice | client/src/pages/Register.jsx:75 | six emoji characters count as twelve code units and give "strong", while six ASCII letters give "weak" |

## Left out

- Express setup, CORS, dotenv, the database connection and `server.listen` (server/server.js:1-59, 117-121): process plumbing with no logic.
- socket.io transport: how a room hands an emission to its sockets, and the set of clients an `io.emit` reaches. `rooms` is an abstract map: `JoinRoom` adds the socket to one room, and `Disconnect` takes the closed socket out of all of them. The ghost fields `joins` and `closed` record that history. `Connect` adds a socket to the room named by its own id, as socket.io does on connection, and `JoinRoom` adds it to a user's room. Because socket ids and user ids are both strings, a payload naming a socket id as receiver or sender reaches that socket through its own-id room. `Connect` and `JoinRoom` require a socket that has not disconnected, because socket.io delivers no event from a closed socket. A `JoinRoom` before `Connect` is not excluded.
- Conversation.Query: a failing `Message.find` (a database error, or a cast error on an id the schema rejects) is not modelled. The route (server/routes/messageRoutes.js:4-15) has no handler for it, so `res.json` never runs and the client gets an error response or none. On the page that is `Pane.FetchMessagesDone(None)` or no completion at all.
- Mongoose internals: `Message.create` is the `StoreOutcome` parameter (any exception is `Failed`), and how ids and timestamps are generated is not modelled. The model stores exactly the record it emits.
- Conversation.SortByCreatedAt: fixes one order among equal `createdAt` values. The database fixes its own order, so no lemma depends on tie order.
- Interleaving: each handler is one atomic step, including `sendMessage` across its `await`. Room membership is read in the same step that stores the message.
- Client I/O: the user list fetch, logout, `localStorage` and `JSON.parse`, the no-session guard, auto-scroll, the listener re-registration on `selectedUser` change (modelled as reading the current selection), and all rendering and CSS.
- ChatPane.Pane: the signed-in `user` is a constant of the page. The code re-reads it from `localStorage` on every render (client/src/pages/Chat.jsx:12-13), and that storage is shared by every tab of the origin. So a login as another user in a second tab (client/src/pages/Login.jsx:19) changes this page's user at its next render. This page's socket stays in the first user's room, because `joinRoom` runs only on mount (Chat.jsx:33-34). Later payload senders (Chat.jsx:98), history requests (Chat.jsx:81) and the "my" side (Chat.jsx:175) then use the new user, and the echo of a payload sent earlier is drawn on the other side. `Pane.Valid`, `Pane.SendMessage`'s sender, `Pane.SelectUser`'s request pair and `EndToEnd.EchoDrawnAsMine` hold only for a page whose user does not change.
- ChatPane.Pane.FetchMessagesDone: does not check which request the response answers, as the code does not either. A late response for an earlier selection therefore replaces the list.
- `Login.jsx`, `Profile.jsx` and `App.jsx`: HTTP calls, storage writes and a token-presence redirect, with no state logic.
- Validation of event payloads: ids are strings here. A missing `userId` or `data` field (JavaScript `undefined`) is not represented.
- Sender authentication: the server trusts the payload's `sender`, and nothing ties it to the socket that sent it.
- One socket per user in the map: presence tracks only the last socket each user joined from. Delivery reaches every socket in the user's room, as stated above.
- Lone surrogates: a Dafny `char` is a Unicode scalar value, so a password holding an unpaired UTF-16 surrogate cannot be written down. Every other string has its JavaScript length.

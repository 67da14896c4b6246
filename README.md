# Let's Chat: presence and room relay, modelled in Dafny

This project models the realtime core of a small direct-messaging app. It has five parts.

- **The standalone socket.io server** (`backend/socket.js`) keeps `activeUsers`, a `Map` from connection id to the value each client declared with `userOnline`. Every change to it is broadcast to all connections as the distinct values. The server joins connections to conversation rooms and fans each `sendMessage` out to the members of the message's `chatId` room.
- **The path-scoped relay** (`src/lib/services/socket.js`) is a socket.io server created lazily by `initSocket` and kept in a module variable. It only joins rooms and fans messages out.
- **The chat page** (`src/app/page.tsx`) covers several things:
  - the conversation key `[a, b].sort().join("_")`;
  - the case-insensitive user search;
  - the page state that the socket handlers update (`messages`, `activeUids`, `messageText`);
  - the guards of `setUserOnline`, `setUserOffline` and `handleSendMessage`.
- **The notification store** (`src/store/snackbarStore.ts`) has `open`, `message` and `severity`, changed by `showSnackbar` and `closeSnackbar`.
- **The verified-user endpoint** (`src/app/api/getVerifiedUsers/route.ts`) filters and projects the identity provider's user list.

Handlers run one at a time on the event loop. Each server is therefore a class whose methods are its handlers, called with the id of the connection whose event they handle. Everything a server or page emits is appended to an `outbox` or `emitted` sequence.

A JavaScript `Map` is modelled as its entries in insertion order (module `JsMap`), because that order is the order of the broadcast. `Array.from(new Set(values))` keeps the first occurrence of each value. Presence values have a type parameter `V`, and equality on `V` stands for JavaScript identity. Every `userOnline` delivers a new `{ userId }` object, so the scenarios instantiate `V` with a class (`Scenarios.Payload`) compared by reference.

Files: `wrappers.dfy` (Option), `js_map.dfy`, `rooms.dfy`, `messages.dfy`, `presence_server.dfy`, `relay_service.dfy`, `js_strings.dfy`, `chat_page.dfy`, `verified_users.dfy`, `snackbar_store.dfy`, `scenarios.dfy`.

Three behaviours differ from what a reader might expect of a chat server; the model follows the code:
- **Presence.** A presence list is usually expected to hold each user id once. This code deduplicates the declared `{ userId }` objects by identity, so a user on two connections is listed twice (`Scenarios.TwoTabs`).
- **Disconnect.** A closed connection would be expected to leave the presence table and cause one broadcast. As written, the handler does neither (see Findings).
- **Second relay's join.** The standalone server checks membership before joining; the path-scoped relay joins without checking. That is harmless, because rooms are sets (`Rooms.JoinIdempotent`).

## Model

| member | source | states |
|---|---|---|
| `JsMap.HasIffInMap` | backend/socket.js:27 | `activeUsers.has(id)` holds exactly when the connection has an entry in the table |
| `JsMap.SetToMap` | backend/socket.js:20 | `set(id, v)` makes the table map id to v; every other connection keeps its entry |
| `JsMap.SetKeys` | backend/socket.js:20 | `set` on a known connection keeps its place in the order; a new connection goes last |
| `JsMap.SetUniqueKeys` | backend/socket.js:20 | `set` never creates a second entry for a key |
| `JsMap.DeleteToMap` | backend/socket.js:29 | `delete(id)` removes exactly that connection's entry and keeps the keys unique |
| `JsMap.DeleteAbsent` | backend/socket.js:29 | deleting a connection without an entry leaves the table as it was |
| `JsMap.Distinct` | backend/socket.js:23 | `Array.from(new Set(xs))` has no repeats, holds every element of xs and only those, and is no longer than xs |
| `JsMap.DistinctValuesAreOnline` | backend/socket.js:23 | the broadcast payload holds exactly the values currently in the table |
| `JsMap.KeysAndValues` | backend/socket.js:23 | `values()` lists one value per entry, each entry's value at its place in insertion order |
| `JsMap.DistinctOfDistinct` | backend/socket.js:23 | when no value repeats, the payload is the values in insertion order |
| `PresenceServer.Server.constructor` | backend/socket.js:14 | the server starts with an empty table, no rooms and nothing emitted |
| `PresenceServer.Server.UserListIsOnline` | backend/socket.js:23 | in every valid state the broadcast list is duplicate-free and equals the set of online values |
| `PresenceServer.Server.UserOnline` | backend/socket.js:19-24 | the connection's entry is set or overwritten and nothing else in the table changes; rooms are unchanged; exactly one `updateUserList` with the distinct current values is emitted |
| `PresenceServer.Server.UserOffline` | backend/socket.js:26-33 | with an entry: only that entry is removed, and one broadcast follows; without an entry: nothing changes and nothing is emitted |
| `PresenceServer.OfflineTwiceIsOnce` | backend/socket.js:27-29 | after one `userOffline` the connection has no entry, so a second one is a no-op |
| `PresenceServer.StillOnlineFromOtherConnection` | backend/socket.js:26-33 | a value declared on two connections is still online after one of them goes offline |
| `PresenceServer.Server.JoinChat` | backend/socket.js:34-41 | a member of the room is a no-op; otherwise the connection joins that room and keeps its other rooms; presence and outbox are unchanged |
| `PresenceServer.Server.SendMessage` | backend/socket.js:43-45 | the unchanged message is emitted once, to exactly the current members of `message.chatId`; the sender need not be one of them; presence and rooms are unchanged |
| `PresenceServer.Server.Disconnect` | backend/socket.js:47-58 | as written: the table, the rooms and the outbox are all unchanged, because no [key, value] item equals the connection id |
| `PresenceServer.Server.DisconnectIntended` | backend/socket.js:47-58 | corrected: the loop stops at the connection's entry, removes only it and emits one broadcast of the distinct values; without an entry nothing changes |
| `Rooms.Join` | backend/socket.js:39 | after a join the room's members are the old members plus the connection; every other room is unchanged |
| `Rooms.JoinKeepsOtherRooms` | backend/socket.js:39 | a join changes no other membership, so a connection can sit in several rooms |
| `Rooms.JoinMember` | backend/socket.js:35-38 | joining a room the connection already belongs to leaves the table as it was |
| `Rooms.JoinIdempotent` | src/lib/services/socket.js:21 | joining twice has the effect of joining once |
| `RelayService.SocketModule.constructor` | src/lib/services/socket.js:5 | `io` starts as null |
| `RelayService.SocketModule.InitSocket` | src/lib/services/socket.js:7-36 | the first call creates a server attached to the given HTTP server, with no rooms; later calls keep that server and leave its state untouched |
| `RelayService.Relay.constructor` | src/lib/services/socket.js:9-15 | a new server is attached to its HTTP server and has no rooms and no deliveries |
| `RelayService.Relay.JoinChat` | src/lib/services/socket.js:20-23 | joins without a membership check; for a member the rooms are unchanged |
| `RelayService.Relay.SendMessage` | src/lib/services/socket.js:25-27 | the unchanged message goes to exactly the members of its room; rooms are unchanged |
| `RelayService.Relay.Disconnect` | src/lib/services/socket.js:29-31 | no state of the relay changes |
| `JsStrings.LessTotal` | src/app/page.tsx:128 | the string order `sort()` uses relates any two different strings one way |
| `JsStrings.LessAsymmetric` | src/app/page.tsx:128 | the string order never relates two strings both ways |
| `ChatPage.ChatKey` | src/app/page.tsx:128 | the key is one of the two uids, "_", then the other |
| `ChatPage.ChatKeySymmetric` | src/app/page.tsx:128 | the key for (a, b) equals the key for (b, a) |
| `ChatPage.ChatKeyOrder` | src/app/page.tsx:128 | the key is the smaller uid, then "_", then the larger |
| `ChatPage.SplitAtSeparator` | src/app/page.tsx:128 | a key built from a first part without "_" splits back into its two parts |
| `ChatPage.ChatKeyDeterminesPair` | src/app/page.tsx:176 | for uids without "_", two conversations share a room only when they are between the same two users |
| `JsStrings.ToLower` | src/app/page.tsx:120 | `toLowerCase` keeps the length and maps each character on its own |
| `JsStrings.ToLowerIdempotent` | src/app/page.tsx:120 | lower-casing keeps the length, is idempotent and leaves no capital A-Z |
| `JsStrings.IncludesEmptyAndSelf` | src/app/page.tsx:120 | `includes` accepts the empty string and the whole string |
| `JsStrings.IncludesToLower` | src/app/page.tsx:120 | an occurrence of the search in the name is still one after lower-casing both |
| `ChatPage.Matches` | src/app/page.tsx:120 | a name that holds the search as typed always matches, and every name matches the empty search |
| `ChatPage.KeepMatching` | src/app/page.tsx:119-121 | keeps exactly the users whose lower-cased name contains the lower-cased search, and no more users than it was given |
| `ChatPage.KeepMatchingAppend` | src/app/page.tsx:119-121 | the kept users stay in their original order |
| `ChatPage.KeepMatchingEmptySearch` | src/app/page.tsx:118-121 | filtering with the empty search keeps every user, in order |
| `ChatPage.FilterUsers` | src/app/page.tsx:117-122 | the `!search` shortcut gives the same list as the filter: the result is always the filter's |
| `ChatPage.FilterUsersSpec` | src/app/page.tsx:117-122 | an empty search returns the list unchanged; otherwise exactly the users that match |
| `JsStrings.TrimStart` | src/app/page.tsx:174 | drops exactly the leading whitespace |
| `JsStrings.TrimEnd` | src/app/page.tsx:174 | drops exactly the trailing whitespace |
| `JsStrings.Trim` | src/app/page.tsx:174 | `trim()` is the part of the text between leading and trailing whitespace, neither starting nor ending with whitespace; it is empty exactly when every character is ECMAScript whitespace |
| `ChatPage.UserIds` | src/app/page.tsx:90 | the `userId` fields of the received list, one per element, in order |
| `ChatPage.ChatView.constructor` | src/app/page.tsx:44-52 | the page starts with the signed-in user, nothing selected, no messages, empty input, nobody online, nothing emitted |
| `ChatPage.ChatView.SetUserOnline` | src/app/page.tsx:67-72 | emits one `userOnline` with `{ userId }` when a user is signed in and the page is visible; otherwise emits nothing |
| `ChatPage.ChatView.SetUserOffline` | src/app/page.tsx:74-77 | emits one `userOffline` whenever a user is signed in |
| `ChatPage.ChatView.OnUpdateUserList` | src/app/page.tsx:89-91 | `activeUids` becomes the list's `userId`s; a uid is shown online exactly when some element carries it |
| `ChatPage.ChatView.OnReceiveMessage` | src/app/page.tsx:92-94 | the message is appended and earlier messages stay as they were |
| `ChatPage.ChatView.OnMessagesFetched` | src/app/page.tsx:134 | a fetched history replaces the whole list |
| `ChatPage.ChatView.TypeText` | src/app/page.tsx:413 | the input holds the typed text |
| `ChatPage.ChatView.SelectUser` | src/app/page.tsx:124-129 | selects the user; re-selecting the selected user emits nothing, because the `[selectedUser]` effect does not run again; otherwise, with a signed-in user, emits one `joinChat` for their conversation key |
| `ChatPage.ChatView.HandleSendMessage` | src/app/page.tsx:173-196 | blank text, no selection or no signed-in user: no emit and no change; otherwise one `sendMessage` with sender, receiver, the untrimmed text, the time and the conversation key, and the input is cleared |
| `SnackbarStore.Store.constructor` | src/store/snackbarStore.ts:14-17 | the store starts closed, with an empty message and severity info |
| `SnackbarStore.Store.ShowSnackbar` | src/store/snackbarStore.ts:18-19 | the new state is the old one shown with the given message and severity |
| `SnackbarStore.Store.CloseSnackbar` | src/store/snackbarStore.ts:20 | only `open` changes |
| `SnackbarStore.ShowSpec` | src/store/snackbarStore.ts:18-19 | showing opens the snackbar with the message; the severity is the given one, or info when omitted |
| `SnackbarStore.LastShowWins` | src/store/snackbarStore.ts:19 | of two consecutive shows, the last one's message and severity win |
| `SnackbarStore.CloseSpec` | src/store/snackbarStore.ts:20 | closing keeps message and severity, and closing twice is closing once |
| `VerifiedUsers.FilterVerified` | src/app/api/getVerifiedUsers/route.ts:8-9 | keeps only verified users, keeps every verified user, and is no longer than its input |
| `VerifiedUsers.FilterVerifiedAppend` | src/app/api/getVerifiedUsers/route.ts:8-9 | the kept users stay in input order |
| `VerifiedUsers.MapToVerified` | src/app/api/getVerifiedUsers/route.ts:10-17 | succeeds exactly when every user has a provider profile; then there is one record per user, in the same order |
| `VerifiedUsers.ToVerifiedUser` | src/app/api/getVerifiedUsers/route.ts:11-16 | the projection fails (reading `displayName` of `undefined`) exactly when the user has no provider profile |
| `VerifiedUsers.ToVerifiedUserFields` | src/app/api/getVerifiedUsers/route.ts:11-16 | uid and email are copied; the display name is the first profile's, or "-" when that is null or undefined (an empty name is kept) |
| `VerifiedUsers.Get` | src/app/api/getVerifiedUsers/route.ts:4-27 | a failed listing fails the request, and every failure is status 500 with "Failed to retrieve users" |
| `VerifiedUsers.GetFails` | src/app/api/getVerifiedUsers/route.ts:20-25 | every failure is status 500 with "Failed to retrieve users"; it happens exactly when the listing failed or a verified user has no provider profile |
| `VerifiedUsers.GetSoundAndComplete` | src/app/api/getVerifiedUsers/route.ts:8-19 | on success, every record comes from a verified input user, every verified user is returned, and there are no more records than input users |
| `Scenarios.Serialize` | src/app/page.tsx:89-90 | a broadcast reaches a page as objects with the same `userId`s, in order |
| `Scenarios.TwoDeclarations` | backend/socket.js:19-23 | two connections that declare different values are listed in declaration order |
| `Scenarios.OneLeft` | backend/socket.js:26-31 | after the first of two connections leaves, only the second is listed |
| `Scenarios.TwoTabs` | backend/socket.js:23 | one user on two connections is listed twice, and still listed after one tab goes offline |
| `Scenarios.BothOnline` | backend/socket.js:19-24 | after alice and bob declare themselves online, a page shows exactly ["alice", "bob"] |
| `Scenarios.OpenConversation` | src/app/page.tsx:128-129 | both pages compute room "alice_bob" and the server has both connections in it |
| `Scenarios.AliceGreetsBob` | backend/socket.js:43-45 | Alice's "hi" is delivered unchanged to both connections of room "alice_bob" and appended to Bob's messages |
| `Scenarios.StaleEntryAfterDisconnect` | backend/socket.js:47-58 | as written: after a connection declares itself online and then closes, its entry remains and there was only one broadcast |
| `Scenarios.DisconnectRemovesEntry` | backend/socket.js:47-58 | corrected: the same events leave the table empty, with exactly one more broadcast, of the empty list |
| `Scenarios.SingletonRelay` | src/lib/services/socket.js:7-8 | a second `initSocket` keeps the first server; a repeated join changes nothing; a message reaches the room's member |

## Left out

- HTTP server creation, the port, the CORS options, the socket path and all console logging: these are transport configuration.
- The library behind the relays is not modelled. This covers socket.io's network delivery, and the set of live connections that `io.emit` reaches: a presence broadcast is recorded as addressed to every connection.
- socket.io puts every connection in a room named after its own id, so `joinChat(socket.id)` is a no-op there and `io.to(id)` reaches that connection. This is library behaviour and is not modelled.
- socket.io removes a closed connection from all of its rooms. This is also library behaviour and is not modelled. After a disconnect the model's room table still lists the connection.
- Concurrency: handlers run one at a time, so events are sequential method calls.
- `ChatPage.ChatView.HandleSendMessage`: the page awaits the message POST between the emit and clearing the input, and other handlers may run during that wait. The model clears the input right after the emit. The POST itself and its failure logging are not modelled, because persistence is an external service.
- `ChatPage.ChatView.SelectUser`: the history fetch it starts is asynchronous. It is modelled separately as `OnMessagesFetched`. Scrolling is not modelled.
- `ChatPage.ChatView.SelectUser`: React compares the new selection with `Object.is`; the model compares user records by value. The two agree for the list the page renders, whose elements are distinct objects fetched once, unless that list holds two identical records.
- The page's signed-in user comes from the identity provider's `onAuthStateChanged`. The model takes it as the constructor argument.
- `document.visibilityState` is the `visible` parameter and `Date.now()` is the `now` parameter.
- The page's event-listener wiring, socket creation and cleanup are not modelled, and neither are rendering, resizing and the logout menu.
- `JsStrings.ToLower`: only the ASCII capitals A-Z are lower-cased. JavaScript's `toLowerCase` maps all of Unicode, so searches on other letters are case-sensitive in the model.
- `JsStrings.Less`: compares Unicode scalar values. JavaScript compares UTF-16 code units, and the two orders differ only between characters above U+FFFF and those in U+E000-U+FFFF.
- `VerifiedUsers.Get`: the identity provider's `listUsers` is an input (`None` when it throws), and only the first page of results the handler reads is modelled. Its `auth` module is not part of this model.
- The messages endpoint (`src/app/api/messages/route.ts`), the login, signup and e-mail verification pages, and the snackbar component are not part of this model. They are database queries, identity-provider calls and rendering.

## Findings

| source | as written | input that shows it | evidently intended | confidence | as-written member | corrected member |
|---|---|---|---|---|---|---|
| backend/socket.js:50-54 | `for (const userId of activeUsers)` yields [key, value] arrays, and `socket.id === userId` compares a string with an array, which is never true. The entry of a closed connection is never removed and no broadcast follows. Had it matched, line 54 would broadcast raw entries, not values. | connection c1 sends `userOnline`, then closes without `userOffline`: c1 stays in `activeUsers`, and only the broadcast of its arrival was sent | find the entry whose key is `socket.id`, delete it, broadcast the distinct values once, stop | high; not executed | `Scenarios.StaleEntryAfterDisconnect` (server handler `PresenceServer.Server.Disconnect`) | `PresenceServer.Server.DisconnectIntended`, used by `Scenarios.DisconnectRemovesEntry` |

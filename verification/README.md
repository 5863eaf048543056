# movie-syncer, modelled in Dafny

movie-syncer is a two-person watch-party app. A Socket.IO server keeps one
in-memory record per room: its members, the current video, whether it is
playing, the playback position and the sync mode. The server applies each
member's playback command to that record and passes it on to the other
members. It also relays chat, typing, countdown, voice and screen-share
signalling, and cleans rooms up when a connection drops. Beside the server,
the app has an in-memory store for users, watch history and movie lists, an
in-memory chat store, the access rule for the two authorised members, and
the pure parts of the room and lists pages.

This project models that core and proves properties of the model:

- **`RoomProtocol` and `RoomServer`** model the room server.
  - `RoomProtocol` is a pure function, `Handle(registry, connection, event, now)`. It returns the new registry and the list of emissions, each of which is addressed to the sender, to the other members of a room, or to one connection.
  - `RoomServer.SyncServer` is the same server as an object. Its fields are the `rooms` Map, the Map's insertion order and an outbox. Each method is proved to make exactly the step `Handle` describes.
  - `RoomProperties` holds the lemmas about `Handle`.
- **`MemoryStorage.InMemoryStorage`** and **`ChatStorage.ChatStore`** are the two in-memory stores. Each is a class whose methods update its lists and counters in place.
- **`Authorization`** models `isAuthorizedUser`.
- **`VideoUrl`** models the room page's YouTube link normaliser.
- **`RoomPage.RoomView`** models the room page's own state and the events it emits.
- **`ListsPage`** models platform detection, badge colours, the add-to-list guard, and removing an item or marking it watched.
- **Shared modules:**
  - `Text`: JavaScript's `includes`, `split(..)[0]` and `split(..)[1]`, `trim` and ASCII `toLowerCase`.
  - `Seqs`: `filter`, `findIndex`, `find` and `splice(i, 1)`.
  - `Sorting`: JavaScript's stable `Array.prototype.sort`, modelled as a stable insertion sort on an integer key.
  - `Schema` (record shapes) and `Protocol` (socket events).

The following become parameters:

- the connection id;
- `randomUUID()`;
- `new Date()` (as a number) and `toLocaleTimeString()` (as a string);
- the HTTP response in the lists page, or whether a request reached the server.

## Model

| member | source | states |
|---|---|---|
| RoomProtocol.Handle | server/routes.ts:30-216 | the connection handler, dispatching each event to `Join`, `Control`, `DisconnectAll` or `Relay`. Its contract is stated by `HandlePreservesValid`, `SenderExclusion` and the scenario lemmas below. |
| RoomProtocol.Join | server/routes.ts:32-69 | the join-room handler. Its contract is stated by `JoinCreatesOrKeeps`, `JoinAppends`, `JoinReplies` and `JoinKeepsValid`. |
| RoomProtocol.Control | server/routes.ts:72-115 | the play, pause, seek, change-video and sync-mode handlers. Their contract is stated by `ControlEffect` and `ControlUnknownRoom`. |
| RoomProtocol.Relay | server/routes.ts:118-192 | the chat, typing, countdown, voice and screen-share relays. Their contract is stated by `RelayLeavesRegistry`, `RelayAddressing`, `RelayCarries` and `RelayEventName`. |
| RoomProtocol.LeaveRoom | server/routes.ts:200-212 | one iteration of the disconnect loop. Its contract is stated by `LeaveAbsent`, `LeaveFirstEntry`, `LeaveRoomStep` and `LeaveRoomOrder`. |
| RoomProtocol.DisconnectAll | server/routes.ts:199-214 | the disconnect loop over a snapshot of the Map's keys. Its contract is stated by `DisconnectSteps` and `DisconnectEffect`. |
| RoomProtocol.Names | server/routes.ts:58 | the user list sent in `room-state` has one name per member, in join order |
| RoomProperties.JoinCreatesOrKeeps | server/routes.ts:34-44 | after join-room the room exists. An unknown id is created with no video, paused at 0 and in mode "movie2watch". Its key goes last in the Map's insertion order, and every other room is unchanged. A known room keeps its video, playing flag, position and mode. |
| RoomProperties.JoinAppends | server/routes.ts:44-50 | the joiner is appended at the end of a known room's users. Earlier entries, other rooms and the key order are unchanged. |
| RoomProperties.JoinReplies | server/routes.ts:53-66 | exactly two emissions. The joiner alone gets `room-state` with the room's fields and all names ending with its own. The others get `user-joined` with the name, the id and the new count. |
| RoomProperties.JoinKeepsValid | server/routes.ts:32-69 | join-room keeps the registry well formed: every room is non-empty and the key order lists exactly the Map's keys, once each |
| RoomProperties.ControlEffect | server/routes.ts:72-115 | for a known room, the playback and mode commands each make their own last-writer-wins update. Play sets playing and the time. Pause clears playing and sets the time. Seek sets only the time. Change-video sets the url and resets to paused at 0. A mode change sets only the mode. Members and other rooms are untouched, and one matching notice goes to the others. |
| RoomProperties.ControlUnknownRoom | server/routes.ts:72-115 | a playback or mode command naming an unknown room changes nothing and emits nothing |
| RoomProperties.RelayLeavesRegistry | server/routes.ts:118-192 | every relay handler leaves the rooms untouched and emits exactly one message |
| RoomProperties.RelayAddressing | server/routes.ts:118-192 | relays are made on behalf of the sender. Voice offer, answer and ICE candidate go to the target connection alone, with the sender's id and the payload unchanged. Every other relay goes to the rest of its room, and screen-share payloads pass through unchanged. |
| RoomProperties.RelayCarries | server/routes.ts:118-192 | what each relay hands on. Chat carries the message, the name and the server's time. Nudge, typing and voice-join carry the name. Ticks carry the count. Sync commands carry the `{ action, sender }` record. The voice events are stamped with the sender's connection id. Signalling and screen-share payloads pass through unchanged. |
| RoomProperties.RelayEventName | server/routes.ts:118-192 | the name each relay goes out under. `send-chat` becomes `receive-chat`, `send-nudge` becomes `receive-nudge`, `voice-join` becomes `voice-user-joined`, and `voice-leave` becomes `voice-user-left`. Every other relay keeps its incoming name. |
| RoomProperties.RenamedRelaysName | server/routes.ts:118-158 | the four renamed relays go out as `receive-chat`, `receive-nudge`, `voice-user-joined` and `voice-user-left` |
| RoomProperties.TypingAndCountdownKeepName | server/routes.ts:132-147 | the name mapping for the typing and countdown/sync relays |
| RoomProperties.SignallingKeepsName | server/routes.ts:150-171 | the name mapping for the voice relays |
| RoomProperties.ScreenShareKeepsName | server/routes.ts:174-192 | the name mapping for the screen-share relays |
| RoomProperties.LeaveAbsent | server/routes.ts:200-201 | a room with no entry for the connection is neither changed nor announced on disconnect |
| RoomProperties.LeaveFirstEntry | server/routes.ts:200-212 | if a room's first entry for the connection is at i, only that entry is removed and the rest keep their order. Its name goes out in `user-left`, and the room is deleted when that was its last entry. |
| RoomProperties.LeaveRoomStep | server/routes.ts:199-213 | one iteration of the disconnect loop changes only its own room as described above, emits that room's notice, and keeps the registry well formed |
| RoomProperties.RoomKept | server/routes.ts:203 | replacing a room by a non-empty one keeps the registry well formed |
| RoomProperties.RoomDeleted | server/routes.ts:209-210 | deleting a room and its key keeps the registry well formed |
| RoomProperties.OrderListsKeys | server/routes.ts:14 | in a well-formed registry the insertion order lists only keys of the map |
| RoomProperties.LeaveRoomOrder | server/routes.ts:199-213 | one iteration of the disconnect loop adds no room, and the key order afterwards is the old one restricted to the keys that remain |
| RoomProperties.DeletedOrder | server/routes.ts:210 | `rooms.delete(roomId)` drops that key from the insertion order and keeps the others in order |
| RoomProperties.KeptOrder | server/routes.ts:203 | changing a room's users in place leaves the insertion order as it was |
| RoomProperties.OrderStep | server/routes.ts:199-213 | after one more iteration, the key order is still the order the loop started from, restricted to the keys that remain |
| RoomProperties.DisconnectLookups | server/routes.ts:199-214 | after the loop has visited any distinct keys, each visited room has lost its first entry for the connection (or is gone), unvisited rooms are unchanged, no room is added, and the notices are those of the visited rooms in visiting order |
| RoomProperties.DisconnectOrder | server/routes.ts:199-214 | after the loop has visited any distinct keys, the keys that remain are in their original insertion order |
| RoomProperties.DisconnectSteps | server/routes.ts:199-214 | after the loop has visited any distinct keys, each visited room has lost its first entry for the connection (or is gone). Unvisited rooms are unchanged, no room is added, and the notices are those of the visited rooms in visiting order. The surviving keys keep their original insertion order. |
| RoomProperties.DisconnectEffect | server/routes.ts:195-215 | disconnect: every room loses the connection's first entry, is deleted if that empties it, and is otherwise unchanged. One `user-left` goes out per affected room, in the Map's insertion order, and the registry stays well formed. The remaining rooms keep their insertion order. |
| RoomProperties.NoticesShape | server/routes.ts:206 | every disconnect notice is a `user-left` from the leaving connection to the other members of a room |
| RoomProperties.NoticesCount | server/routes.ts:199-213 | exactly one notice per room that held the connection |
| RoomProperties.DisconnectStranger | server/routes.ts:195-215 | a connection that is in no room disconnects without changing anything or emitting anything |
| RoomProperties.StrangerSteps | server/routes.ts:199-213 | the loop form of that statement, for any keys |
| RoomProperties.HandlePreservesValid | server/routes.ts:30-216 | every handler keeps the registry well formed: no empty room survives, and the key order matches the Map |
| RoomProperties.SenderExclusion | server/routes.ts:30-216 | every emission is made on behalf of the connection whose event is handled. Only join-room addresses the sender itself, and only with `room-state`. Only the voice offer, answer and ICE candidate address one connection, and that is the named target. When the target is the sender's own id, the relay comes back to the sender. |
| RoomProperties.SelfTargetedOfferReturns | server/routes.ts:160-163 | a voice offer aimed at the sender's own connection id is delivered back to the sender |
| RoomProperties.TicksRelayedInOrder | server/routes.ts:141-143 | a run of countdown ticks is passed on verbatim: none dropped, none added, none reordered, and the rooms untouched |
| RoomProperties.RejoinAfterLastLeave | server/routes.ts:34-44 | once the last member of a room disconnects, the room is gone, and a new join recreates it fresh |
| RoomProperties.PlayThenChangeScenario | server/routes.ts:72-106 | two members join and one plays, then changes the video. Play reaches only the other member as `video-played`. A third joiner is told the new video is paused at 0, with all three names. |
| RoomProperties.AnaCreatesRoom | server/routes.ts:34-50 | the first join on an empty server creates the room with that member alone |
| RoomProperties.TwoJoin | server/routes.ts:44-50 | a second join appends the second member after the first |
| RoomProperties.AnaLeavesRoom | server/routes.ts:200-206 | in a two-member room, the first member's leaving removes only that member and tells the other by name |
| RoomProperties.AnaEntryLeaves | server/routes.ts:200-203 | the entry removed is the leaver's, and the remaining member is kept |
| RoomProperties.FirstOfTwoLeaves | server/routes.ts:195-215 | a disconnect from a two-member room leaves the other member in place, with one notice |
| RoomProperties.LastLeaves | server/routes.ts:195-215 | a disconnect by a room's last member deletes the room, with one notice |
| RoomProperties.DisconnectScenario | server/routes.ts:195-215 | two members disconnect one after the other. Each is announced once, by name, and the room is gone after the second. |
| RoomServer.SyncServer.constructor | server/routes.ts:14 | the server starts with no rooms and nothing emitted |
| RoomServer.SyncServer.Emit | server/routes.ts:55-68 | one emission is appended to the log and the rooms are untouched |
| RoomServer.SyncServer.JoinRoom | server/routes.ts:32-69 | the in-place join-room handler makes exactly the step `Join` specifies, and emits exactly its messages |
| RoomServer.SyncServer.PlayVideo | server/routes.ts:72-79 | the in-place play-video handler makes exactly the step `Control` specifies |
| RoomServer.SyncServer.PauseVideo | server/routes.ts:81-88 | the in-place pause-video handler makes exactly the step `Control` specifies |
| RoomServer.SyncServer.SeekVideo | server/routes.ts:90-96 | the in-place seek-video handler makes exactly the step `Control` specifies |
| RoomServer.SyncServer.ChangeVideo | server/routes.ts:98-106 | the in-place change-video handler makes exactly the step `Control` specifies |
| RoomServer.SyncServer.SyncModeChange | server/routes.ts:109-115 | the in-place sync-mode-change handler makes exactly the step `Control` specifies |
| RoomServer.SyncServer.RelayEvent | server/routes.ts:118-192 | every relay handler leaves the rooms as they were and emits exactly the message `Relay` specifies |
| RoomServer.SyncServer.LeaveOne | server/routes.ts:200-212 | the in-place body of the disconnect loop for one room agrees with `LeaveRoom` |
| RoomServer.SyncServer.Disconnect | server/routes.ts:195-215 | the in-place loop over a snapshot of the Map's keys ends in the state and log that `DisconnectAll` specifies |
| RoomServer.SyncServer.Dispatch | server/routes.ts:30-216 | handling any event makes the step `Handle` specifies and keeps the server's registry well formed |
| MemoryStorage.InMemoryStorage.constructor | server/storage.ts:90-93 | the store starts with no users, history or list items |
| MemoryStorage.InMemoryStorage.GetUser | server/storage.ts:95-97 | returns a stored user with that id, and none exactly when no user has it |
| MemoryStorage.InMemoryStorage.GetUserByUsername | server/storage.ts:99-101 | returns a stored user with that name, and none exactly when no user has it |
| MemoryStorage.InMemoryStorage.CreateUser | server/storage.ts:103-110 | appends the user with the given id. A fresh id is then found by `GetUser`, and a fresh name by `GetUserByUsername`. |
| MemoryStorage.InMemoryStorage.GetWatchHistory | server/storage.ts:112-118 | returns the same entries, newest first |
| MemoryStorage.InMemoryStorage.AddWatchHistory | server/storage.ts:120-132 | appends an entry carrying the input's fields, the new id and the current time. Nothing else changes. |
| MemoryStorage.InMemoryStorage.GetMovieList | server/storage.ts:134-142 | returns exactly the items of that list type, newest first |
| MemoryStorage.InMemoryStorage.AddToMovieList | server/storage.ts:144-156 | puts the new item first, with the new id and time. Nothing else changes. |
| MemoryStorage.InMemoryStorage.RemoveFromMovieList | server/storage.ts:158-160 | keeps exactly the items whose id differs, in order |
| MemoryStorage.InMemoryStorage.MoveToWatched | server/storage.ts:162-173 | for a present id, removes the first item with it and appends a history entry with its title, url and platform, no companion and the given rating. An unknown id changes nothing. |
| MemoryStorage.MovieListMembers | server/storage.ts:134-142 | an item is in a list's result exactly when it is stored with that list type |
| MemoryStorage.MovieListStable | server/storage.ts:136-141 | items added at the same instant keep their stored order, because the sort is stable |
| MemoryStorage.WatchHistoryStable | server/storage.ts:113-117 | history entries watched at the same instant keep their stored order |
| MemoryStorage.RemovalKeepsOthers | server/storage.ts:158-160 | after a removal no item with the id remains, and every other item remains as often as before |
| MemoryStorage.MoveTakesFirstMatch | server/storage.ts:162-170 | a move takes exactly one item, the first with the id: the list loses one occurrence of it and nothing else |
| ChatStorage.ChatStore.constructor | server/replit_integrations/chat/storage.ts:57-62 | both stores start empty and both counters start at 1 |
| ChatStorage.ChatStore.GetConversation | server/replit_integrations/chat/storage.ts:64-66 | returns a stored conversation with the id, and none exactly when there is none |
| ChatStorage.ChatStore.GetAllConversations | server/replit_integrations/chat/storage.ts:68-70 | returns the same conversations, newest first |
| ChatStorage.ChatStore.GetMessagesByConversation | server/replit_integrations/chat/storage.ts:94-98 | returns exactly that conversation's messages, oldest first |
| ChatStorage.ChatStore.CreateConversation | server/replit_integrations/chat/storage.ts:72-80 | takes the next conversation id, advances only that counter, and adds the conversation at the front. Ids stay unique and newest first. |
| ChatStorage.ChatStore.CreateMessage | server/replit_integrations/chat/storage.ts:100-110 | takes the next message id, advances only that counter, and appends the message. Ids stay unique and increasing. |
| ChatStorage.ChatStore.DeleteConversation | server/replit_integrations/chat/storage.ts:82-92 | removes the first conversation with the id (if any) and every message of it, keeps all other messages in order, leaves the counters alone, and keeps the store's invariants |
| ChatStorage.ChatStore.RemoveMessagesOf | server/replit_integrations/chat/storage.ts:87-91 | the backward splice loop removes exactly the messages of the conversation and keeps the rest in order |
| ChatStorage.FilterKeepsIncreasing | server/replit_integrations/chat/storage.ts:87-91 | removing messages keeps message ids increasing |
| ChatStorage.IncreasingCons | server/replit_integrations/chat/storage.ts:100-110 | a message with a smaller id than all that follow keeps the ids increasing |
| ChatStorage.RemovalKeepsConversations | server/replit_integrations/chat/storage.ts:83-86 | splicing out a conversation keeps the ids decreasing and below the counter |
| ChatStorage.DeletionKeepsMessages | server/replit_integrations/chat/storage.ts:87-91 | deleting messages keeps the ids increasing and below the counter |
| ChatStorage.BackwardStep | server/replit_integrations/chat/storage.ts:88-90 | one iteration of the backward loop either keeps position i or splices it out, according to the conversation id |
| ChatStorage.DeleteLeavesNoConversation | server/replit_integrations/chat/storage.ts:83-86 | since conversation ids are unique, no conversation with the id is left after the delete |
| ChatStorage.DeleteKeepsOtherMessages | server/replit_integrations/chat/storage.ts:87-91 | the delete leaves another conversation's messages exactly as they were, and leaves none of its own |
| ChatStorage.FilterOfFilter | server/replit_integrations/chat/storage.ts:87-97 | another conversation's messages are unaffected by deleting this one's |
| ChatStorage.MessagesStable | server/replit_integrations/chat/storage.ts:94-98 | messages created at the same instant keep creation order |
| ChatStorage.CounterScenario | server/replit_integrations/chat/storage.ts:58-59 | conversation and message ids come from separate counters, each starting at 1 |
| Authorization.IsAuthorizedUser | shared/constants.ts:3-8 | a missing or empty name is refused, and an accepted name matches one of the members |
| Authorization.LowerMembers | shared/constants.ts:1 | the lower-cased members are "ismael" and "aidan" |
| Authorization.BlankNamesNoMember | shared/constants.ts:3-8 | a name that trims to nothing matches no member |
| Authorization.AuthorizedIff | shared/constants.ts:3-8 | a name is authorised exactly when, trimmed and lower-cased, it is "ismael" or "aidan" |
| Authorization.NamesMemberIff | shared/constants.ts:4-7 | the `some` over the members is the same as that two-way choice |
| Authorization.PaddingIgnored | shared/constants.ts:6 | surrounding whitespace does not change the verdict |
| Authorization.CaseIgnored | shared/constants.ts:6 | names equal after ASCII lower-casing get the same verdict |
| Authorization.WhitespaceOnlyRejected | shared/constants.ts:3-8 | a whitespace-only name passes the first guard but is still refused |
| VideoUrl.Normalize | client/src/pages/room.tsx:201-210 | a link with neither YouTube key is left as it is. A watch or short link whose split yields no id, or an empty one, is also left as it is. A changed link is always an embed link with a non-empty id. |
| VideoUrl.WatchEmptyIdKept | client/src/pages/room.tsx:204-206 | `https://www.youtube.com/watch?v=` followed by nothing or by `&...` yields an empty id, so the link is kept |
| VideoUrl.WatchLinkEmbedded | client/src/pages/room.tsx:204-206 | `https://www.youtube.com/watch?v=ID&...` becomes `https://www.youtube.com/embed/ID`, for any id made of id characters |
| VideoUrl.ShortLinkEmbedded | client/src/pages/room.tsx:207-209 | `https://youtu.be/ID?...` becomes the embed link of ID, when the link does not also hold the watch key, which is checked first |
| VideoUrl.WatchCase | client/src/pages/room.tsx:204-206 | a watch link whose split yields a non-empty id becomes that id's embed link |
| VideoUrl.ShortCase | client/src/pages/room.tsx:207-209 | a short link whose split yields a non-empty id becomes that id's embed link |
| VideoUrl.CutAtStop | client/src/pages/room.tsx:205 | the two-stage split returns the id when the id holds neither separator |
| VideoUrl.FirstAfter | client/src/pages/room.tsx:205 | `split(pat)[1]` of `a + pat + b`, where `a` cannot hold pat, is `b` up to its next pat |
| VideoUrl.WatchPrefixSplit | client/src/pages/room.tsx:204-205 | a watch link contains its key, and its first `v=` is the one in the key |
| VideoUrl.WatchHeadLacksV | client/src/pages/room.tsx:204 | the part of a watch link before `v=` holds no `v` |
| VideoUrl.WatchPrefixHoldsKey | client/src/pages/room.tsx:204 | a watch link passes the `includes` test |
| VideoUrl.WatchIdCut | client/src/pages/room.tsx:205 | cutting at `v=` and then at `&` returns the id |
| VideoUrl.ShortPrefixSplit | client/src/pages/room.tsx:207-208 | `split('youtu.be/')[1]` of a short link is its tail up to the next key |
| VideoUrl.ShortIdCut | client/src/pages/room.tsx:208 | cutting at the key and then at `?` returns the id |
| RoomPage.CountdownTicks | client/src/pages/room.tsx:228-240 | the countdown emits four ticks, 3, 2, 1 and 0, in that order |
| RoomPage.RoomView.constructor | client/src/pages/room.tsx:35-48 | the page starts with no users, messages, inputs or video, in movie2watch mode, paused, with no countdown and nothing sent |
| RoomPage.RoomView.OnConnect | client/src/pages/room.tsx:83-87 | on connecting, the page sends one `join-room` with its room and this user's name, which the server handles as `RoomProtocol.Join`, and changes nothing else |
| RoomPage.RoomView.OnRoomState | client/src/pages/room.tsx:89-94 | the members, the video and the playing flag become the server's, one system line is added, and nothing else changes |
| RoomPage.RoomView.OnUserJoined | client/src/pages/room.tsx:96-99 | the name goes to the end of the list, and one system line says so |
| RoomPage.RoomView.OnUserLeft | client/src/pages/room.tsx:101-104 | every entry equal to the name leaves the list, and one system line says so |
| RoomPage.RoomView.OnReceiveChat | client/src/pages/room.tsx:106-108 | a relayed chat line is appended as it came, as a member's line |
| RoomPage.RoomView.OnVideoPlaying | client/src/pages/room.tsx:111-119 | video-played and video-paused set the playing flag to true and false, and change nothing else |
| RoomPage.RoomView.OnVideoChanged | client/src/pages/room.tsx:121-125 | a changed video becomes the local one, paused, with one system line |
| RoomPage.RoomView.OnSyncModeChanged | client/src/pages/room.tsx:128-131 | the mode follows the remote member, with one system line naming it |
| RoomPage.RoomView.OnCountdownTick | client/src/pages/room.tsx:134-135 | a received tick shows that count and changes nothing else |
| RoomPage.RoomView.HandleSendMessage | client/src/pages/room.tsx:183-196 | blank input changes nothing. Otherwise the input as typed is shown locally, sent once as `send-chat`, and cleared. |
| RoomPage.RoomView.HandleLoadVideo | client/src/pages/room.tsx:198-215 | an empty input does nothing. Otherwise the normalised link becomes the local video, and the same value is sent as `change-video`. |
| RoomPage.RoomView.TogglePlay | client/src/pages/room.tsx:217-221 | flips the playing flag and sends `play-video` or `pause-video` to match the new state, at time 0 |
| RoomPage.RoomView.HandleModeChange | client/src/pages/room.tsx:223-226 | the mode is switched locally and the same mode is sent once as `sync-mode-change` |
| RoomPage.RoomView.StartNetflixCountdown | client/src/pages/room.tsx:228-244 | sends ticks 3, 2, 1, 0 and then one play command signed by this user, and ends showing 0 |
| RoomPage.RoomView.SendNetflixCommand | client/src/pages/room.tsx:246-249 | one `netflix-sync-command` goes out with the action, signed by this user, and nothing else changes |
| RoomPage.UsersAfterLeave | client/src/pages/room.tsx:102 | after user-left no entry with the name remains, and every other name remains as often as before |
| RoomPage.BlankInput | client/src/pages/room.tsx:185 | the message guard drops exactly the inputs that are whitespace only, and padding does not change that |
| ListsPage.DetectPlatform | client/src/pages/lists.tsx:149-158 | no platform exactly for an empty link |
| ListsPage.FirstMatch | client/src/pages/lists.tsx:149-158 | the first-match table reading yields "other" or one of the table's platforms |
| ListsPage.DetectPlatformIsFirstMatch | client/src/pages/lists.tsx:150-157 | the chain of checks equals the first match over the ordered key table, so "netflix" wins over "youtube" and so on |
| ListsPage.NoKeyIsOther | client/src/pages/lists.tsx:157 | a non-empty link with none of the keys is "other" |
| ListsPage.GetPlatformColor | client/src/pages/lists.tsx:160-169 | the five platforms each get their own class, and exactly everything else gets zinc |
| ListsPage.DetectedColour | client/src/pages/lists.tsx:149-169 | a detected link is shown in zinc exactly when it is empty, vimeo or other |
| ListsPage.ListsView.constructor | client/src/pages/lists.tsx:35-40 | both lists and both inputs start empty, and no request has been made |
| ListsPage.ListsView.RemoveFromList | client/src/pages/lists.tsx:120-132 | one DELETE goes out. Once it has reached the server, every item with the id leaves the chosen list; the other list and the inputs are unchanged. |
| ListsPage.ListsView.MarkAsWatched | client/src/pages/lists.tsx:134-147 | one POST with the rating goes out. Once it has reached the server, every item with the id leaves the to-watch list; favourites and the inputs are unchanged. |
| ListsPage.ItemsAfterRemove | client/src/pages/lists.tsx:124-126 | after removal no item with the id remains, and every other item remains as often as before |
| ListsPage.ListsView.AddToList | client/src/pages/lists.tsx:86-118 | a blank title sends nothing and changes nothing. Otherwise one request goes out with the title, the url or null, the list type and the detected platform. A successful response puts the item first in its list and clears both inputs. A failed one leaves the lists and inputs as they were. |
| Seqs.Filter | client/src/pages/room.tsx:102 | `filter` returns no more elements than it was given |
| Seqs.FilterMembers | server/storage.ts:159 | `filter` keeps exactly the elements that satisfy the predicate |
| Seqs.FilterSound | server/storage.ts:159 | everything `filter` returns was in the input and satisfies the predicate |
| Seqs.FilterComplete | server/storage.ts:159 | every input element that satisfies the predicate is returned |
| Seqs.FilterSubMultiset | server/storage.ts:159 | `filter` never repeats an element more often than the input has it |
| Seqs.FilterAll | server/routes.ts:210 | filtering keeps the whole sequence when every element passes |
| Seqs.FilterAgree | server/routes.ts:210 | two predicates that agree on every element filter the sequence alike |
| Seqs.FilterTwice | server/routes.ts:199-213 | filtering by one predicate and then by a stronger one is filtering by the stronger one alone |
| Seqs.FilterCount | server/storage.ts:159 | `filter` keeps each satisfying value as often as it occurred and drops every other value entirely |
| Seqs.FindIndex | server/routes.ts:200 | `findIndex` returns the first position satisfying the predicate, or -1 exactly when there is none |
| Seqs.Find | server/storage.ts:96 | `find` returns a satisfying element, or nothing exactly when there is none |
| Seqs.RemoveAt | server/routes.ts:203 | `splice(i, 1)` removes position i and shifts the rest down, losing exactly that one element |
| Sorting.SortBy | server/storage.ts:136-141 | the sort returns a permutation of its input, ordered by the key |
| Sorting.SortStable | server/storage.ts:136-141 | the sort is stable: elements with equal keys keep their relative order |
| Sorting.InsertStable | server/storage.ts:136-141 | one insertion step keeps equal-key elements in order |
| Text.Contains | client/src/pages/room.tsx:204 | `includes`, read as the index search finding the pattern. Its contract is stated by `IndexOf`. |
| Text.Trim | shared/constants.ts:6 | `trim`, stripping JavaScript whitespace at both ends. Its contract is stated by `TrimIgnoresPadding`, `BlankIffAllWhitespace` and `TrimLower`. |
| Text.IsBlank | client/src/pages/room.tsx:185 | the `!s.trim()` guard. Its contract is stated by `BlankIffAllWhitespace` and `RoomPage.BlankInput`. |
| Text.ToLower | shared/constants.ts:6 | `toLowerCase`: same length, each ASCII capital lowered and every other character kept |
| Text.IndexOf | client/src/pages/room.tsx:204 | the first occurrence of a pattern, or -1 exactly when there is none |
| Text.SplitHead | client/src/pages/room.tsx:205 | `split(sep)[0]` is a prefix free of the separator, ending at its first occurrence |
| Text.SplitSecond | client/src/pages/room.tsx:205 | `split(sep)[1]` is absent exactly when the separator does not occur, and holds no separator |
| Text.TrimIgnoresPadding | shared/constants.ts:6 | `trim` ignores surrounding whitespace |
| Text.BlankIffAllWhitespace | client/src/pages/room.tsx:185 | a string trims to empty exactly when it is all whitespace |
| Text.TrimLower | shared/constants.ts:6 | trimming and ASCII lower-casing commute |
| Text.ToLowerIdempotent | shared/constants.ts:6 | lower-casing twice is the same as once |

## Left out

- The Socket.IO transport, rooms-as-channels and `console.log`. An emission is recorded as a `Delivery` addressed to the sender, to the others in a room, or to one connection.
- Voice and screen-share signalling payloads (SDP offers and answers, ICE candidates, screen-share data) are opaque strings and are passed through unchanged. Chat text, names, tick counts and the sync command's `{ action, sender }` record are modelled as fields.
- Timers: the countdown's `setInterval` callbacks are run one after another. The `setTimeout` that clears the countdown two seconds after it reaches 0 is not modelled.
- `Math.random()` chat-message ids in the room page, toasts, and React's batching of state updates. Each handler is one atomic update.
- JavaScript numbers: playback times are `real` and counters are unbounded `int`. Floating-point rounding is not modelled.
- `toLowerCase` is modelled for ASCII letters only, and other characters are left unchanged. `trim` uses JavaScript's full set of whitespace and line-terminator characters.
- `DatabaseStorage` and the database chat store: they delegate to SQL and are not part of this model.
- The voice-chat and screen-share hooks, the mock socket, the home page and the other pages: they are not part of this model.
- The room page's `connected` flag, which `connect` sets and nothing reads, and the `netflix-sync-command` handler, which only shows a toast. The `currentTime` and `mode` fields of `room-state` and the time carried by `video-played` and `video-paused` are not read by the page.
- The room page's `jumpTime` input and the theme state of both pages: they are display state only.
- The lists page's `loadAllData`, and the re-fetch `markAsWatched` starts with it: the lists are read from the server, whose side is `MemoryStorage.InMemoryStorage`.
- The HTTP API that the lists page calls is not part of this model: its response is a parameter of `AddToList`, and whether a request reached it is a parameter of `RemoveFromList` and `MarkAsWatched`.
- `Authorization.CaseIgnored`: this states insensitivity to ASCII case only, because lower-casing is modelled for ASCII only.

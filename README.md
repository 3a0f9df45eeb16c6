# Live-sync classroom: a verified model

The system is a classroom whiteboard shared in real time. A Node server keeps rooms in memory and does three things:

- It holds each room's sticky notes, polls and present users in JavaScript `Map`s.
- It keeps a directory from socket connection to the room that connection joined.
- It answers socket events (`join-classroom`, `add-note`, `update-note`, `delete-note`, `create-poll`, `vote-poll`, `delete-poll`, `disconnect`) by changing a room and broadcasting a message to the room or to the sender.

Browsers keep copies of a room's three lists and update them from those messages. A poll form guards what is sent when a poll is created. A poll card tallies votes and lets its user vote once.

The model has eleven modules:

- `Seqs` (`seqs.dfy`): the subsequence relation (some elements left out, the rest in order) that the list lemmas use.
- `JsMap` (`jsmap.dfy`): an insertion-ordered map with `get`, `set`, `delete`, `size` and `Array.from(m.values())`.
- `Wire` (`wire.dfy`): the records (note, poll, user, session) and the events and messages on the wire.
- `Rooms` (`rooms.dfy`): the `Classroom` class. `RoomData` is the value a room holds, and its member functions specify each operation. The class `Classroom` performs those operations on its fields and is proved to agree with them.
- `SocketServer` (`server.dfy`): one transition function per event, from the registry and directory before the event to the state after it plus the messages sent, each tagged "to the sender" or "to room R". The class `Server` holds `Classroom` objects, runs the handlers in place, and is proved to follow those functions.
- `ServerProperties` (`server_props.dfy`): properties that span several events. These include the invariant that the registry and the directory agree, and the fact that this invariant needs each connection to join only once.
- `ClassroomView` (`classroom_view.dfy`): the browser's message handlers, as functions on lists.
- `ClientSync` (`client_sync.dfy`): the synchronisation theorem. A member of a room whose lists equal the room's map values, users compared without `joinedAt`, keeps them equal after any event once it has applied the messages that reach it. The theorem assumes that the registry and the directory agree, that the fresh note or poll id is not already in use in the member's room, that a connection with a session does not join again, and that the event is not the member's own disconnect.
- `PollManager` (`poll_manager.dfy`): the poll creation form, including the exact whitespace set of `String.prototype.trim`.
- `PollCard` (`poll_card.dfy`): the vote tally and the one-shot vote guard.
- `EndToEnd` (`end_to_end.dfy`): the form's event and the card's vote as the server stores them.

Three behaviours of the code that the model keeps as written:

- `delete-note` and `delete-poll` broadcast the requested id even when nothing was deleted (server/index.js:196-197 and 241-242).
- `addPollResponse` stores whatever option index it is given, with no range check (server/index.js:60).
- The wire uses the field names `userId`, `userName` and `optionId` (server/index.js:135-136 and 228).

## Model

Lemmas that only unfold a definition for one case (`Step` for one kind of event, `Deliver` on one message, `OnDisconnect` for one branch) are proof helpers. They keep the proofs cheap, state nothing new, and have no row.

| member | source | states |
|---|---|---|
| JsMap.Get | server/index.js:40 | a key is found exactly when it was inserted and not deleted, and the stored value is returned |
| JsMap.Set | server/index.js:35 | after `set`, `get` of the key gives the new value and every other key is unaffected; a present key keeps its place in the order, a new key goes last |
| JsMap.Delete | server/index.js:49 | `delete` answers true exactly when the key was present; the key is absent afterwards; other keys are unaffected and keep their insertion order; deleting an absent key changes nothing |
| JsMap.Size | server/index.js:138 | `size` is the number of distinct keys |
| JsMap.Values | server/index.js:143-145 | `Array.from(m.values())` lists one value per key, in insertion order |
| JsMap.Empty | server/index.js:21-22 | `new Map()` has no keys and no values |
| JsMap.ValuesSetNew | server/index.js:35 | setting a new key appends its value to the value list |
| JsMap.ValuesSetPresent | server/index.js:42 | overwriting a present key replaces its value where it stands; the list length is unchanged |
| Rooms.NewRoom | server/index.js:26-32 | a new room has the given id and name and three empty maps |
| Rooms.RoomData.AddNote | server/index.js:34-37 | the note is filed under its id; other notes, the polls and the users are unchanged |
| Rooms.RoomData.UpdateNote | server/index.js:39-46 | an absent id changes nothing and yields null; a present note takes content, x, y and color exactly as given (even undefined) and a new updatedAt, keeps id, author and createdAt, and keeps its position |
| Rooms.RoomData.DeleteNote | server/index.js:48-50 | the result is true exactly when the note was present; the note is gone afterwards; an absent id leaves the room unchanged |
| Rooms.RoomData.CreatePoll | server/index.js:52-55 | the poll is filed under its id; nothing else changes |
| Rooms.RoomData.AddPollResponse | server/index.js:57-65 | an absent poll changes nothing and yields null; otherwise the voter's entry becomes the given option (overwriting, unchecked), other voters keep theirs, updatedAt is refreshed, and every other field stays |
| Rooms.RoomData.DeletePoll | server/index.js:67-69 | as DeleteNote, for polls |
| Rooms.RoomData.AddUser | server/index.js:71-75 | the user record with the join time is filed under the connection id and returned |
| Rooms.RoomData.RemoveUser | server/index.js:77-79 | the result is true exactly when the user was present; the user is absent afterwards |
| Rooms.Classroom.constructor | server/index.js:26-32 | the object's value is the empty room |
| Rooms.Classroom.AddNote | server/index.js:34-37 | the in-place update leaves the object holding RoomData.AddNote of its old value |
| Rooms.Classroom.UpdateNote | server/index.js:39-46 | the in-place merge leaves the object holding RoomData.UpdateNote of its old value, and returns the same note or null |
| Rooms.Classroom.DeleteNote | server/index.js:48-50 | the object holds RoomData.DeleteNote of its old value, and the method returns its flag |
| Rooms.Classroom.CreatePoll | server/index.js:52-55 | the object holds RoomData.CreatePoll of its old value |
| Rooms.Classroom.AddPollResponse | server/index.js:57-65 | the in-place write of `responses[userId]` leaves the object holding RoomData.AddPollResponse of its old value |
| Rooms.Classroom.DeletePoll | server/index.js:67-69 | the object holds RoomData.DeletePoll of its old value |
| Rooms.Classroom.AddUser | server/index.js:71-75 | the object holds RoomData.AddUser of its old value |
| Rooms.Classroom.RemoveUser | server/index.js:77-79 | the object holds RoomData.RemoveUser of its old value |
| SocketServer.AddRoom | server/index.js:96-98 | a new empty room is filed under the fresh id; other rooms and the directory are unchanged |
| SocketServer.Snapshot | server/index.js:142-146 | `classroom-state` carries the room's notes, polls and users, one entry per key, in insertion order |
| SocketServer.OnJoin | server/index.js:120-147 | an unknown room: one `error` to the sender only, and no change. Otherwise: the user is added and the session bound; `user-joined` goes to the room with the user count after the add; then `classroom-state` goes to the sender alone; no other room changes |
| SocketServer.OnAddNote | server/index.js:150-170 | no session: no change and no message. Otherwise a note with the fresh id, the event's fields and the sender as author is filed in the sender's room and broadcast to that room only |
| SocketServer.OnUpdateNote | server/index.js:173-188 | no session, or an id the room lacks: no change and no message. Otherwise the room's note is edited and the edited note is broadcast |
| SocketServer.OnDeleteNote | server/index.js:191-198 | no session: nothing. Otherwise the note is deleted if present, and the requested id is broadcast even when it was absent |
| SocketServer.OnCreatePoll | server/index.js:201-220 | no session: nothing. Otherwise a poll with the fresh id, the question and options as sent and no responses is filed and broadcast |
| SocketServer.OnVotePoll | server/index.js:223-233 | no session, or an absent poll: nothing. Otherwise the response is recorded under the sender's connection and the poll is broadcast |
| SocketServer.OnDeletePoll | server/index.js:236-243 | as OnDeleteNote, for polls |
| SocketServer.OnDisconnect | server/index.js:246-261 | the session is deleted in every case. When its room exists, the user is removed and one `user-left` with the post-removal count goes to that room; other rooms are unchanged |
| SocketServer.Step | server/index.js:116-261 | running any event keeps every session pointing at a registered room, and keeps the set of room ids |
| SocketServer.Server.constructor | server/index.js:21-22 | the registry and the directory start empty |
| SocketServer.Server.CreateRoom | server/index.js:96-98 | a fresh `Classroom` object is filed; the abstract state becomes AddRoom of the old one |
| SocketServer.Server.JoinClassroom | server/index.js:120-147 | the in-place handler's new state and messages are OnJoin of the old state |
| SocketServer.Server.AddNote | server/index.js:150-170 | the in-place handler's new state and messages are OnAddNote of the old state |
| SocketServer.Server.UpdateNote | server/index.js:173-188 | the same, for OnUpdateNote |
| SocketServer.Server.DeleteNote | server/index.js:191-198 | the same, for OnDeleteNote |
| SocketServer.Server.CreatePoll | server/index.js:201-220 | the same, for OnCreatePoll |
| SocketServer.Server.VotePoll | server/index.js:223-233 | the same, for OnVotePoll |
| SocketServer.Server.DeletePoll | server/index.js:236-243 | the same, for OnDeletePoll |
| SocketServer.Server.Disconnect | server/index.js:246-261 | the same, for OnDisconnect |
| SocketServer.Server.LeaveRoom | server/index.js:249-258 | removing the user from the room object, announcing it and deleting the session gives OnDisconnect of the old state |
| ServerProperties.NoSessionNoEffect | server/index.js:150-243 | every event but a join, from a connection without a session, changes nothing and sends nothing |
| ServerProperties.MutationStaysInRoom | server/index.js:150-243 | an event that needs a session, from a connection that has one, changes at most that session's room, leaves the directory alone, and addresses every message to that room |
| ServerProperties.DisconnectIdempotent | server/index.js:246-261 | a second disconnect of the same connection changes nothing and sends nothing |
| ServerProperties.DisconnectAnnouncesOnce | server/index.js:246-261 | exactly one `user-left`, naming the connection, is sent when it had a session, and none otherwise |
| ServerProperties.ReVoteOverwrites | server/index.js:57-65 | after two votes by one connection, its entry holds the later choice and the number of voters is what it was after the first vote |
| ServerProperties.DeleteNoteTwice | server/index.js:191-198 | a repeated delete changes nothing more but sends the same broadcast again |
| ServerProperties.DeletePollTwice | server/index.js:236-243 | the same, for polls |
| ServerProperties.PresenceIffSession | server/index.js:130-131 | under the invariant, a connection has a session exactly when some room lists it |
| ServerProperties.ServerStartsConsistent | server/index.js:21-22 | the empty registry and directory satisfy the invariant |
| ServerProperties.AddRoomKeepsConsistent | server/index.js:96-98 | filing a new room keeps the invariant |
| ServerProperties.JoinKeepsConsistent | server/index.js:120-147 | a join from a connection without a session keeps the invariant |
| ServerProperties.DisconnectKeepsConsistent | server/index.js:246-261 | a disconnect keeps the invariant |
| ServerProperties.SameUsersKeepsConsistent | server/index.js:150-243 | a step that replaces one room by one with the same id and users, still filed by id, keeps the invariant |
| ServerProperties.StepKeepsConsistent | server/index.js:120-261 | every event keeps the invariant, provided a connection with a session does not join again |
| ServerProperties.RejoinLeavesStalePresence | server/index.js:130-131 | a second join by one connection leaves its entry in the first room while its session names the second, which breaks the invariant |
| ClassroomView.ReplaceById | client/src/components/ClassroomView.jsx:31 | the length is kept; elements with the id become the new item; the others are untouched |
| ClassroomView.RemoveById | client/src/components/ClassroomView.jsx:36 | the filter never lengthens the list; what it keeps is stated by RemoveByIdKeeps, RemoveByIdSubsequence and RemoveByIdAbsent |
| ClassroomView.RemoveByIdKeeps | client/src/components/ClassroomView.jsx:36 | the filter keeps exactly the input's elements with a different id |
| ClassroomView.RemoveByIdSubsequence | client/src/components/ClassroomView.jsx:36 | the kept elements appear in the input in the same order |
| ClassroomView.RemoveByIdAppend | client/src/components/ClassroomView.jsx:36 | the filter distributes over concatenation |
| ClassroomView.RemoveByIdAbsent | client/src/components/ClassroomView.jsx:36 | filtering an id no element carries returns the list unchanged |
| ClassroomView.OnClassroomState | client/src/components/ClassroomView.jsx:18-22 | the three lists are replaced wholesale by the received ones |
| ClassroomView.OnNoteAdded | client/src/components/ClassroomView.jsx:25-27 | the note is appended; the earlier notes keep their order; the other lists are unchanged |
| ClassroomView.OnNoteUpdated | client/src/components/ClassroomView.jsx:29-33 | the `note-updated` handler; its effect is stated by NoteUpdatedReplaces |
| ClassroomView.NoteUpdatedReplaces | client/src/components/ClassroomView.jsx:29-33 | the length is kept; every note with the id becomes the update; every other note and the other lists are unchanged |
| ClassroomView.OnNoteDeleted | client/src/components/ClassroomView.jsx:35-37 | the `note-deleted` handler; its effect is stated by NoteDeletedRemoves and NoteDeletedIdempotent |
| ClassroomView.NoteDeletedRemoves | client/src/components/ClassroomView.jsx:35-37 | no note with the id is left; every other note stays, in order; for an absent id the list is unchanged |
| ClassroomView.OnPollCreated | client/src/components/ClassroomView.jsx:40-42 | as OnNoteAdded, for polls |
| ClassroomView.OnPollUpdated | client/src/components/ClassroomView.jsx:44-48 | the `poll-updated` handler; its effect is stated by PollUpdatedReplaces |
| ClassroomView.PollUpdatedReplaces | client/src/components/ClassroomView.jsx:44-48 | as NoteUpdatedReplaces, for polls |
| ClassroomView.OnPollDeleted | client/src/components/ClassroomView.jsx:50-52 | the `poll-deleted` handler; its effect is stated by PollDeletedRemoves |
| ClassroomView.PollDeletedRemoves | client/src/components/ClassroomView.jsx:50-52 | as NoteDeletedRemoves, for polls |
| ClassroomView.OnUserJoined | client/src/components/ClassroomView.jsx:55-64 | the `user-joined` handler; its effect is stated by UserJoinedReplacesEntry |
| ClassroomView.UserJoinedReplacesEntry | client/src/components/ClassroomView.jsx:55-64 | exactly one entry carries the joiner's id: the last one, with the event's name and colour and no join time; the other users keep their relative order |
| ClassroomView.OnUserLeft | client/src/components/ClassroomView.jsx:66-68 | the `user-left` handler; its effect is stated by UserLeftRemoves and UserLeftIdempotent |
| ClassroomView.UserLeftRemoves | client/src/components/ClassroomView.jsx:66-68 | every entry of the connection is removed; the others stay, in order |
| ClassroomView.UserLeftIdempotent | client/src/components/ClassroomView.jsx:66-68 | applying `user-left` twice equals applying it once |
| ClassroomView.NoteDeletedIdempotent | client/src/components/ClassroomView.jsx:35-37 | applying `note-deleted` twice equals applying it once |
| ClassroomView.Receive | client/src/components/ClassroomView.jsx:18-68 | the table of `socket.on` handlers: each message goes to the handler registered for its name, and `error` to none; ClientSync.MemberStaysInSync states what the table achieves |
| ClientSync.Roster | client/src/components/ClassroomView.jsx:58-62 | the user list as a browser can know it: the same entries, one by one, without join times |
| ClientSync.Deliver | server/index.js:133-146 | a member receives, in the order sent, exactly the messages addressed to its room and, when its connection sent the event, those sent back to the sender; stated by DeliverElsewhere, DeliverUserJoined and DeliverJoinToJoiner |
| ClientSync.DeliverElsewhere | server/index.js:133-134 | messages that do not reach a member leave its lists unchanged |
| ClientSync.ValuesDelete | client/src/components/ClassroomView.jsx:36 | when entities are filed by id, the values after `map.delete(k)` equal the browser's filter by id on the values before |
| ClientSync.ValuesReplace | client/src/components/ClassroomView.jsx:31 | when entities are filed by id, the values after overwriting a present key equal the browser's map-replace by id |
| ClientSync.RosterRemove | client/src/components/ClassroomView.jsx:57 | forgetting join times commutes with filtering users by id |
| ClientSync.AddNoteSync | client/src/components/ClassroomView.jsx:25-27 | a browser that mirrors the room still mirrors it after `note-added` and `addNote` of a fresh id |
| ClientSync.UpdateNoteSync | client/src/components/ClassroomView.jsx:29-33 | `note-updated` with the note `updateNote` returns keeps the mirror |
| ClientSync.DeleteNoteSync | client/src/components/ClassroomView.jsx:35-37 | `note-deleted` and `deleteNote` keep the mirror, whether or not the note was present |
| ClientSync.CreatePollSync | client/src/components/ClassroomView.jsx:40-42 | `poll-created` and `createPoll` of a fresh id keep the mirror |
| ClientSync.VotePollSync | client/src/components/ClassroomView.jsx:44-48 | `poll-updated` with the poll `addPollResponse` returns keeps the mirror |
| ClientSync.DeletePollSync | client/src/components/ClassroomView.jsx:50-52 | `poll-deleted` and `deletePoll` keep the mirror |
| ClientSync.UserJoinSync | client/src/components/ClassroomView.jsx:55-64 | `user-joined` and `addUser` of a connection not yet present keep the mirror, join times aside |
| ClientSync.UserLeftSync | client/src/components/ClassroomView.jsx:66-68 | `user-left` and `removeUser` keep the mirror |
| ClientSync.OtherRoomEvent | server/index.js:150-243 | an event from a member of another room leaves this room and this member's lists unchanged |
| ClientSync.SameRoomEvent | server/index.js:150-243 | an event from a member of this room, other than a join or a disconnect, keeps the member in step with the room |
| ClientSync.AddNoteEventSync | server/index.js:150-170 | `add-note` keeps every member of the room in step |
| ClientSync.UpdateNoteEventSync | server/index.js:173-188 | `update-note` keeps every member of the room in step |
| ClientSync.DeleteNoteEventSync | server/index.js:191-198 | `delete-note` keeps every member of the room in step |
| ClientSync.CreatePollEventSync | server/index.js:201-220 | `create-poll` keeps every member of the room in step |
| ClientSync.VotePollEventSync | server/index.js:223-233 | `vote-poll` keeps every member of the room in step |
| ClientSync.DeletePollEventSync | server/index.js:236-243 | `delete-poll` keeps every member of the room in step |
| ClientSync.DeliverUserJoined | server/index.js:134-146 | another member hears the newcomer's `user-joined` but not the state sent to the newcomer alone |
| ClientSync.DeliverJoinToJoiner | server/index.js:134-146 | the joiner hears its own `user-joined` and then `classroom-state`, which replaces its lists with the room's values |
| ClientSync.DeliverJoinElsewhere | server/index.js:133-146 | a join of another room sends nothing that reaches the member |
| ClientSync.OtherJoinSync | server/index.js:120-147 | a join by a connection without a session keeps every member of every room in step, and leaves their sessions alone |
| ClientSync.JoinSameRoomSync | server/index.js:130-139 | a newcomer to the member's room is appended to its user list, as in the room |
| ClientSync.JoinElsewhere | server/index.js:122-127 | a join of another room, or of no room, leaves the member's room and lists alone |
| ClientSync.OtherDisconnectSync | server/index.js:246-261 | a disconnect by another connection keeps every member in step, and leaves its session alone |
| ClientSync.LeaveSameRoomSync | server/index.js:249-256 | a member's leaving is removed from the other members' user lists, as in the room |
| ClientSync.LeaveElsewhere | server/index.js:246-261 | leaving another room leaves the member's room and lists alone |
| ClientSync.MemberStaysInSync | server/index.js:120-261 | the synchronisation theorem: under the invariant, with fresh uuids, join-once connections, and the member not disconnecting, a member that mirrors its room still does after any event, and keeps its session |
| ClientSync.JoinerStartsInSync | server/index.js:130-146 | a connection that joins an existing room mirrors it afterwards, whatever its lists held before |
| PollManager.TrimStart | client/src/components/PollManager.jsx:27 | leading whitespace is removed: the result is a suffix, starts with a non-whitespace character or is empty, and only whitespace was dropped |
| PollManager.TrimEnd | client/src/components/PollManager.jsx:27 | the same for trailing whitespace |
| PollManager.Trim | client/src/components/PollManager.jsx:27-28 | `trim()` returns the slice of the string that starts and ends with a non-whitespace character (or is empty), and only whitespace lies before and after that slice |
| PollManager.IsBlank | client/src/components/PollManager.jsx:27-28 | `!s.trim()`: the string trims to the empty string; BlankIffAllWhitespace states that this means every character is whitespace |
| PollManager.BlankIffAllWhitespace | client/src/components/PollManager.jsx:28 | a string trims to empty exactly when all its characters are whitespace |
| PollManager.ValidOptions | client/src/components/PollManager.jsx:27 | the filter keeps only non-blank options, in their original order, untrimmed |
| PollManager.ValidOptionsKeepsNonBlank | client/src/components/PollManager.jsx:27 | every non-blank option is kept |
| PollManager.ValidOptionsAppend | client/src/components/PollManager.jsx:27 | the filter distributes over concatenation |
| PollManager.CreatePollRequest | client/src/components/PollManager.jsx:26-36 | nothing is emitted exactly when the question is blank or fewer than two options are non-blank; otherwise `create-poll` carries the untrimmed question and the non-blank options, at least two, in order |
| PollManager.RemoveAt | client/src/components/PollManager.jsx:16 | position i is dropped, the entries before stay, the entries after move down one; an index outside the list drops nothing |
| PollManager.PollForm.constructor | client/src/components/PollManager.jsx:7-8 | the form starts with an empty question and two empty options |
| PollManager.PollForm.SetQuestion | client/src/components/PollManager.jsx:51 | the question becomes the typed text; the options are unchanged |
| PollManager.PollForm.AddOption | client/src/components/PollManager.jsx:10-12 | exactly one empty option is appended |
| PollManager.PollForm.RemoveOption | client/src/components/PollManager.jsx:14-18 | the entry is removed only when more than two are shown, so there are always at least two |
| PollManager.PollForm.OptionChange | client/src/components/PollManager.jsx:20-24 | the copy keeps the length, holds the value at the index, and is unchanged elsewhere |
| PollManager.PollForm.CreatePoll | client/src/components/PollManager.jsx:26-40 | the emitted event is CreatePollRequest of the form; after an emit the form resets; after a rejection it is unchanged |
| PollCard.TotalVotes | client/src/components/Poll.jsx:22 | the total is the number of distinct voters |
| PollCard.VotersIn | client/src/components/Poll.jsx:41-43 | exactly the voters whose stored choice lies in the range |
| PollCard.OptionVotes | client/src/components/Poll.jsx:41-43 | an option's count is the number of voters whose stored choice equals its index, and is at most the total |
| PollCard.ShownVotesCountsVoters | client/src/components/Poll.jsx:40-43 | the counts of the first n options add up to the number of voters whose choice is below n |
| PollCard.TallyAddsUp | client/src/components/Poll.jsx:22-43 | the per-option counts add up to at most the total, and to exactly the total when, and only when, every stored choice names an option |
| PollCard.Card.constructor | client/src/components/Poll.jsx:6 | a card starts not voted, with no vote sent |
| PollCard.Card.HandleVote | client/src/components/Poll.jsx:8-14 | `vote-poll` carries the card's poll id and the chosen index, and the card is marked voted |
| PollCard.Card.Click | client/src/components/Poll.jsx:52-53 | only the first click emits, so a card sends at most one vote |
| EndToEnd.FormPollIsFiled | client/src/components/PollManager.jsx:33-36 | a guarded `create-poll` from a member becomes a poll of the room with the question as typed, at least two non-blank options, and no votes |
| EndToEnd.CardVoteIsRecorded | client/src/components/Poll.jsx:9-12 | a card's vote is stored under the voter's connection; a first vote adds one voter and a repeat adds none; a complete tally stays complete |

## Left out

- Express, CORS, the HTTP listener and logging (server/index.js:1-18, 116-117, 260, 263-273) are I/O plumbing. `console.log` is not modelled.
- The REST endpoints (server/index.js:83-113) are HTTP transport. Only the registry insert of room creation (lines 96-98) is modelled, as `AddRoom` and `Server.CreateRoom`.
- socket.io rooms are abstracted. `socket.join`, and the group removal socket.io performs on disconnect, become the `ToRoom`/`ToSender` targets and the `Deliver` function. A member receives what is addressed to its room, and what is addressed to the sender when it sent the event.
- `uuidv4()`, `Date.now()` and the random presence colour (server/index.js:129) are the parameters `Env.freshId`, `Env.now`/`Env.later` and `Env.color`. They are not computed.
- The percentages (client/src/components/Poll.jsx:44, 58) are floating-point display and are left out. Note coordinates are `real` values that are only stored and forwarded.
- React rendering, the `useState` machinery, `alert` (client/src/components/PollManager.jsx:29) and the delete button's `confirm` dialog (client/src/components/Poll.jsx:16-20) are UI.
- Concurrency is not modelled: the Node event loop runs one handler at a time, so each event is one sequential step.
- The crash of a mutating handler whose session names a missing room is not modelled. Six handlers dereference `classrooms.get(session.classroomId)` unchecked (server/index.js:154, 177, 195, 205, 227, 240); `disconnect` checks it (line 250). These handlers require `SessionsResolve`: every session names a registered room. The code never reaches that crash. `classrooms` is only ever added to (line 98), and a session is filed only after the room lookup succeeds (lines 122-131). The model shows the same thing. `SocketServer.Step` ensures `SessionsResolve` of the state after every event, with no further proviso. `SocketServer.AddRoom` only adds a room id and leaves the directory unchanged.
- SocketServer.OnAddNote: the two `Date.now()` readings are `now` and `later`, so the model does not promise that `createdAt == updatedAt`.
- ClientSync.Mirrors: join times are not compared. A browser's `user-joined` entry has no `joinedAt`, while the server's has one, so the lists agree only with `joinedAt` forgotten.
- ClientSync.MemberStaysInSync: it assumes the uuid is new to the room, each connection joins once, and the member itself does not disconnect. `RejoinLeavesStalePresence` shows why the join-once proviso is needed.
- PollManager.PollForm.OptionChange: it requires an in-range index. JavaScript would grow the array for a larger index, but the form only calls it for rendered positions.
- JavaScript values are not modelled as dynamic. Wire fields have fixed types, and "`undefined`" is explicit (`Js<T>`) only where the source can forward it.
- Aliasing between a note object in the map and the one broadcast is not modelled. Both are the same value in the model, which agrees here because the broadcast happens before any later change.

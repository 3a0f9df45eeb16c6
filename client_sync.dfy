/** How a browser's lists follow the server: a member of a room that
    applies, in order, the messages the server sends it keeps lists equal to
    the room's maps in insertion order.  Only `joinedAt` can differ, because
    the entry a browser builds from `user-joined` has none. */
module ClientSync {
  import opened Wire
  import opened JsMap
  import opened Rooms
  import opened SocketServer
  import opened ClassroomView
  import opened ServerProperties

  /** A user entry as a browser can know it. */
  function Forget(u: User): (f: User)
    ensures f.userId == u.userId && f.userName == u.userName && f.color == u.color
    ensures f.joinedAt == Undefined
  {
    u.(joinedAt := Undefined)
  }

  /** The user list with `joinedAt` forgotten, entry by entry. */
  function Roster(us: seq<User>): (r: seq<User>)
    ensures |r| == |us|
    ensures forall i | 0 <= i < |us| :: r[i] == Forget(us[i])
  {
    if us == [] then [] else [Forget(us[0])] + Roster(us[1..])
  }

  /** The view agrees with the room: the same notes and polls in the same
      order, and the same users in the same order up to `joinedAt`. */
  predicate Mirrors(v: View, room: RoomData) {
    && v.notes == Values(room.notes)
    && v.polls == Values(room.polls)
    && Roster(v.users) == Roster(Values(room.users))
  }

  /** Whether a message reaches the member of room `rid`; `isSender` says
      whether that member's connection sent the event. */
  predicate Reaches(o: Outbound, rid: Id, isSender: bool) {
    o.target == ToRoom(rid) || (o.target == ToSender && isSender)
  }

  /** The member's view after it has received every message of `out` that
      reaches it, in the order sent. */
  function Deliver(v: View, out: seq<Outbound>, rid: Id, isSender: bool): View
    decreases |out|
  {
    if out == [] then v
    else
      var v' := if Reaches(out[0], rid, isSender) then Receive(v, out[0].msg) else v;
      Deliver(v', out[1..], rid, isSender)
  }

  /** Proof helper: delivering a list is delivering its first message, then
      the rest. */
  lemma DeliverCons(v: View, o: Outbound, rest: seq<Outbound>, rid: Id, isSender: bool)
    ensures Deliver(v, [o] + rest, rid, isSender)
         == Deliver(if Reaches(o, rid, isSender) then Receive(v, o.msg) else v, rest, rid, isSender)
  {
    assert ([o] + rest)[1..] == rest;
  }

  /** Messages that do not reach the member leave its view alone. */
  lemma {:induction false} DeliverElsewhere(v: View, out: seq<Outbound>, rid: Id, isSender: bool)
    requires forall i | 0 <= i < |out| :: !Reaches(out[i], rid, isSender)
    ensures Deliver(v, out, rid, isSender) == v
    decreases |out|
  {
    if out != [] {
      DeliverElsewhere(v, out[1..], rid, isSender);
    }
  }

  /** Taking a key out of the list and dropping the entity with that id
      from the value list agree, when entities are filed under their ids. */
  lemma {:induction false} ProjectWithoutIsRemove<V>(keys: seq<Key>, vals: map<Key, V>, id: V -> Id, k: Key)
    requires forall j | j in keys :: j in vals && id(vals[j]) == j
    ensures Project(Without(keys, k), vals) == RemoveById(Project(keys, vals), id, k)
  {
    if keys != [] {
      ProjectWithoutIsRemove(keys[1..], vals, id, k);
      assert Project(keys, vals) == [vals[keys[0]]] + Project(keys[1..], vals);
      assert Project(keys, vals)[1..] == Project(keys[1..], vals);
    }
  }

  /** `map.delete(k)` on the server is `filter` by id on the browser. */
  lemma ValuesDelete<V>(m: JsMap<V>, id: V -> Id, k: Key)
    requires forall j | j in m.vals :: id(m.vals[j]) == j
    ensures Values(Delete(m, k).0) == RemoveById(Values(m), id, k)
  {
    ProjectWithoutIsRemove(m.keys, m.vals, id, k);
    ProjectWithout(m.keys, m.vals, k);
  }

  /** `map.set(k, v)` on a present key is `map` replacing by id on the
      browser. */
  lemma ValuesReplace<V>(m: JsMap<V>, id: V -> Id, k: Key, v: V)
    requires forall j | j in m.vals :: id(m.vals[j]) == j
    requires k in m.vals && id(v) == k
    ensures Values(Set(m, k, v)) == ReplaceById(Values(m), id, v)
  {
    ValuesSetPresent(m, k, v);
    var a, b := Values(Set(m, k, v)), ReplaceById(Values(m), id, v);
    forall i | 0 <= i < |a| ensures a[i] == b[i] {
      assert m.keys[i] in m.vals;
    }
  }

  /** Forgetting `joinedAt` keeps user ids, so it commutes with the
      filter by id. */
  lemma {:induction false} RosterRemove(us: seq<User>, c: Id)
    ensures Roster(RemoveById(us, UserId, c)) == RemoveById(Roster(us), UserId, c)
  {
    if us != [] {
      RosterRemove(us[1..], c);
      assert Roster(us)[1..] == Roster(us[1..]);
      if us[0].userId != c {
        assert RemoveById(us, UserId, c) == [us[0]] + RemoveById(us[1..], UserId, c);
        assert Roster([us[0]] + RemoveById(us[1..], UserId, c))[1..]
            == Roster(RemoveById(us[1..], UserId, c));
      }
    }
  }

  /** Room-level agreement of `note-added` with `addNote` for a fresh id. */
  lemma AddNoteSync(v: View, room: RoomData, note: Note)
    requires Mirrors(v, room) && note.id !in room.notes.vals
    ensures Mirrors(OnNoteAdded(v, note), room.AddNote(note))
  {
    ValuesSetNew(room.notes, note.id, note);
  }

  /** Room-level agreement of `note-updated` with `updateNote`. */
  lemma UpdateNoteSync(v: View, room: RoomData, noteId: Id, edit: NoteEdit, now: int)
    requires Mirrors(v, room) && room.KeyedById() && noteId in room.notes.vals
    ensures var (room', n) := room.UpdateNote(noteId, edit, now);
      n.Some? && Mirrors(OnNoteUpdated(v, n.value), room')
  {
    var (room', n) := room.UpdateNote(noteId, edit, now);
    ValuesReplace(room.notes, NoteId, noteId, n.value);
  }

  /** Room-level agreement of `note-deleted` with `deleteNote`, present
      or not. */
  lemma DeleteNoteSync(v: View, room: RoomData, noteId: Id)
    requires Mirrors(v, room) && room.KeyedById()
    ensures Mirrors(OnNoteDeleted(v, noteId), room.DeleteNote(noteId).0)
  {
    ValuesDelete(room.notes, NoteId, noteId);
  }

  /** Room-level agreement of `poll-created` with `createPoll`. */
  lemma CreatePollSync(v: View, room: RoomData, poll: Poll)
    requires Mirrors(v, room) && poll.id !in room.polls.vals
    ensures Mirrors(OnPollCreated(v, poll), room.CreatePoll(poll))
  {
    ValuesSetNew(room.polls, poll.id, poll);
  }

  /** Room-level agreement of `poll-updated` with `addPollResponse`. */
  lemma VotePollSync(v: View, room: RoomData, pollId: Id, userId: Id, optionId: int, now: int)
    requires Mirrors(v, room) && room.KeyedById() && pollId in room.polls.vals
    ensures var (room', p) := room.AddPollResponse(pollId, userId, optionId, now);
      p.Some? && Mirrors(OnPollUpdated(v, p.value), room')
  {
    var (room', p) := room.AddPollResponse(pollId, userId, optionId, now);
    ValuesReplace(room.polls, PollId, pollId, p.value);
  }

  /** Room-level agreement of `poll-deleted` with `deletePoll`. */
  lemma DeletePollSync(v: View, room: RoomData, pollId: Id)
    requires Mirrors(v, room) && room.KeyedById()
    ensures Mirrors(OnPollDeleted(v, pollId), room.DeletePoll(pollId).0)
  {
    ValuesDelete(room.polls, PollId, pollId);
  }

  /** Room-level agreement of `user-joined` with `addUser` for a connection
      not yet present. */
  lemma UserJoinSync(v: View, room: RoomData, c: Id, userName: string, color: string, now: int)
    requires Mirrors(v, room) && room.KeyedById() && c !in room.users.vals
    ensures Mirrors(OnUserJoined(v, c, userName, color), room.AddUser(c, userName, color, now).0)
  {
    var (room', u) := room.AddUser(c, userName, color, now);
    var listed := Values(room.users);
    var others := RemoveById(v.users, UserId, c);
    var entry := User(c, userName, color, Undefined);
    assert OnUserJoined(v, c, userName, color).users == others + [entry];
    ValuesSetNew(room.users, c, u);
    assert Values(room'.users) == listed + [u];
    RosterAppend(others, [entry]);
    RosterAppend(listed, [u]);
    RosterRemove(v.users, c);
    assert forall i | 0 <= i < |listed| :: Roster(listed)[i].userId != c by {
      forall i | 0 <= i < |listed| ensures Roster(listed)[i].userId != c {
        assert room.users.keys[i] in room.users.vals;
      }
    }
    RemoveByIdAbsent(Roster(listed), UserId, c);
  }

  lemma RosterAppend(a: seq<User>, b: seq<User>)
    ensures Roster(a + b) == Roster(a) + Roster(b)
  {
  }

  /** Room-level agreement of `user-left` with `removeUser`. */
  lemma UserLeftSync(v: View, room: RoomData, c: Id)
    requires Mirrors(v, room) && room.KeyedById()
    ensures Mirrors(OnUserLeft(v, c), room.RemoveUser(c).0)
  {
    ValuesDelete(room.users, UserId, c);
    RosterRemove(v.users, c);
    RosterRemove(Values(room.users), c);
  }

  /** An event from a member of room `r` touches no other room and sends
      nothing to it. */
  lemma OtherRoomEvent(s: ServerData, conn: Id, ev: ClientEvent, env: Env, rid: Id, v: View, isSender: bool)
    requires SessionsResolve(s) && Mutating(ev) && rid in s.classrooms
    requires conn in s.userSessions && s.userSessions[conn].classroomId != rid
    ensures var t := Step(s, conn, ev, env);
      && t.next.userSessions == s.userSessions
      && t.next.classrooms[rid] == s.classrooms[rid]
      && Deliver(v, t.out, rid, isSender) == v
  {
    var t := Step(s, conn, ev, env);
    MutationStaysInRoom(s, conn, ev, env);
    DeliverElsewhere(v, t.out, rid, isSender);
  }

  /** An event from a member of the viewer's own room `rid`, other than a
      join or a disconnect, keeps the viewer in step. */
  lemma {:induction false} SameRoomEvent(s: ServerData, conn: Id, ev: ClientEvent, env: Env, rid: Id, v: View, isSender: bool)
    requires SessionsResolve(s) && Mutating(ev) && rid in s.classrooms
    requires conn in s.userSessions && s.userSessions[conn].classroomId == rid
    requires s.classrooms[rid].KeyedById() && Mirrors(v, s.classrooms[rid])
    requires env.freshId !in s.classrooms[rid].notes.vals && env.freshId !in s.classrooms[rid].polls.vals
    ensures var t := Step(s, conn, ev, env);
      && t.next.userSessions == s.userSessions
      && Mirrors(Deliver(v, t.out, rid, isSender), t.next.classrooms[rid])
  {
    match ev
    case AddNote(content, color, x, y) =>
      AddNoteEventSync(s, conn, content, color, x, y, env, rid, v, isSender);
    case UpdateNote(noteId, edit) =>
      UpdateNoteEventSync(s, conn, noteId, edit, env, rid, v, isSender);
    case DeleteNote(noteId) =>
      DeleteNoteEventSync(s, conn, noteId, env, rid, v, isSender);
    case CreatePoll(question, options) =>
      CreatePollEventSync(s, conn, question, options, env, rid, v, isSender);
    case VotePoll(pollId, optionId) =>
      VotePollEventSync(s, conn, pollId, optionId, env, rid, v, isSender);
    case DeletePoll(pollId) =>
      DeletePollEventSync(s, conn, pollId, env, rid, v, isSender);
  }

  lemma AddNoteEventSync(s: ServerData, conn: Id, content: Js<string>, color: Js<string>, x: Js<real>, y: Js<real>,
                         env: Env, rid: Id, v: View, isSender: bool)
    requires SessionsResolve(s) && conn in s.userSessions && s.userSessions[conn].classroomId == rid
    requires Mirrors(v, s.classrooms[rid]) && env.freshId !in s.classrooms[rid].notes.vals
    ensures var t := Step(s, conn, AddNote(content, color, x, y), env);
      t.next.userSessions == s.userSessions && Mirrors(Deliver(v, t.out, rid, isSender), t.next.classrooms[rid])
  {
    var t := OnAddNote(s, conn, content, color, x, y, env);
    StepAddNote(s, conn, content, color, x, y, env);
    var n := t.out[0].msg.note;
    assert t.out == [Outbound(ToRoom(rid), NoteAdded(n))];
    AddNoteSync(v, s.classrooms[rid], n);
    DeliverNoteAdded(v, n, rid, isSender);
  }

  lemma UpdateNoteEventSync(s: ServerData, conn: Id, noteId: Id, edit: NoteEdit, env: Env, rid: Id, v: View, isSender: bool)
    requires SessionsResolve(s) && conn in s.userSessions && s.userSessions[conn].classroomId == rid
    requires Mirrors(v, s.classrooms[rid]) && s.classrooms[rid].KeyedById()
    ensures var t := Step(s, conn, UpdateNote(noteId, edit), env);
      t.next.userSessions == s.userSessions && Mirrors(Deliver(v, t.out, rid, isSender), t.next.classrooms[rid])
  {
    StepUpdateNote(s, conn, noteId, edit, env);
    if noteId in s.classrooms[rid].notes.vals {
      var (room', n) := s.classrooms[rid].UpdateNote(noteId, edit, env.now);
      UpdateNoteSent(s, conn, noteId, edit, env, rid);
      UpdateNoteSync(v, s.classrooms[rid], noteId, edit, env.now);
      DeliverNoteUpdated(v, n.value, rid, isSender);
    }
  }

  /** Proof helper: what the server does with an `update-note` for a note
      of the room, as OnUpdateNote states it. */
  lemma UpdateNoteSent(s: ServerData, conn: Id, noteId: Id, edit: NoteEdit, env: Env, rid: Id)
    requires SessionsResolve(s) && conn in s.userSessions && s.userSessions[conn].classroomId == rid
    requires noteId in s.classrooms[rid].notes.vals
    ensures var t := OnUpdateNote(s, conn, noteId, edit, env);
      var (room', n) := s.classrooms[rid].UpdateNote(noteId, edit, env.now);
      t.next.classrooms[rid] == room' && t.out == [Outbound(ToRoom(rid), NoteUpdated(n.value))]
  {
  }

  lemma DeleteNoteEventSync(s: ServerData, conn: Id, noteId: Id, env: Env, rid: Id, v: View, isSender: bool)
    requires SessionsResolve(s) && conn in s.userSessions && s.userSessions[conn].classroomId == rid
    requires Mirrors(v, s.classrooms[rid]) && s.classrooms[rid].KeyedById()
    ensures var t := Step(s, conn, DeleteNote(noteId), env);
      t.next.userSessions == s.userSessions && Mirrors(Deliver(v, t.out, rid, isSender), t.next.classrooms[rid])
  {
    StepDeleteNote(s, conn, noteId, env);
    DeleteNoteSync(v, s.classrooms[rid], noteId);
    DeliverNoteDeleted(v, noteId, rid, isSender);
  }

  lemma CreatePollEventSync(s: ServerData, conn: Id, question: string, options: seq<string>,
                            env: Env, rid: Id, v: View, isSender: bool)
    requires SessionsResolve(s) && conn in s.userSessions && s.userSessions[conn].classroomId == rid
    requires Mirrors(v, s.classrooms[rid]) && env.freshId !in s.classrooms[rid].polls.vals
    ensures var t := Step(s, conn, CreatePoll(question, options), env);
      t.next.userSessions == s.userSessions && Mirrors(Deliver(v, t.out, rid, isSender), t.next.classrooms[rid])
  {
    var t := OnCreatePoll(s, conn, question, options, env);
    StepCreatePoll(s, conn, question, options, env);
    var p := t.out[0].msg.poll;
    assert t.out == [Outbound(ToRoom(rid), PollCreated(p))];
    CreatePollSync(v, s.classrooms[rid], p);
    DeliverPollCreated(v, p, rid, isSender);
  }

  lemma VotePollEventSync(s: ServerData, conn: Id, pollId: Id, optionId: int, env: Env, rid: Id, v: View, isSender: bool)
    requires SessionsResolve(s) && conn in s.userSessions && s.userSessions[conn].classroomId == rid
    requires Mirrors(v, s.classrooms[rid]) && s.classrooms[rid].KeyedById()
    ensures var t := Step(s, conn, VotePoll(pollId, optionId), env);
      t.next.userSessions == s.userSessions && Mirrors(Deliver(v, t.out, rid, isSender), t.next.classrooms[rid])
  {
    StepVotePoll(s, conn, pollId, optionId, env);
    if pollId in s.classrooms[rid].polls.vals {
      var (room', p) := s.classrooms[rid].AddPollResponse(pollId, conn, optionId, env.now);
      VotePollSync(v, s.classrooms[rid], pollId, conn, optionId, env.now);
      DeliverPollUpdated(v, p.value, rid, isSender);
    }
  }

  lemma DeletePollEventSync(s: ServerData, conn: Id, pollId: Id, env: Env, rid: Id, v: View, isSender: bool)
    requires SessionsResolve(s) && conn in s.userSessions && s.userSessions[conn].classroomId == rid
    requires Mirrors(v, s.classrooms[rid]) && s.classrooms[rid].KeyedById()
    ensures var t := Step(s, conn, DeletePoll(pollId), env);
      t.next.userSessions == s.userSessions && Mirrors(Deliver(v, t.out, rid, isSender), t.next.classrooms[rid])
  {
    StepDeletePoll(s, conn, pollId, env);
    DeletePollSync(v, s.classrooms[rid], pollId);
    DeliverPollDeleted(v, pollId, rid, isSender);
  }

  /** Proof helpers: each kind of message addressed to the member's room,
      delivered alone, is handled by the view's handler for it. */
  lemma DeliverNoteAdded(v: View, n: Note, rid: Id, isSender: bool)
    ensures Deliver(v, [Outbound(ToRoom(rid), NoteAdded(n))], rid, isSender) == OnNoteAdded(v, n)
  {
    DeliverOne(v, NoteAdded(n), rid, isSender);
  }

  lemma DeliverNoteUpdated(v: View, n: Note, rid: Id, isSender: bool)
    ensures Deliver(v, [Outbound(ToRoom(rid), NoteUpdated(n))], rid, isSender) == OnNoteUpdated(v, n)
  {
    DeliverOne(v, NoteUpdated(n), rid, isSender);
  }

  lemma DeliverNoteDeleted(v: View, noteId: Id, rid: Id, isSender: bool)
    ensures Deliver(v, [Outbound(ToRoom(rid), NoteDeleted(noteId))], rid, isSender) == OnNoteDeleted(v, noteId)
  {
    DeliverOne(v, NoteDeleted(noteId), rid, isSender);
  }

  lemma DeliverPollCreated(v: View, p: Poll, rid: Id, isSender: bool)
    ensures Deliver(v, [Outbound(ToRoom(rid), PollCreated(p))], rid, isSender) == OnPollCreated(v, p)
  {
    DeliverOne(v, PollCreated(p), rid, isSender);
  }

  lemma DeliverPollUpdated(v: View, p: Poll, rid: Id, isSender: bool)
    ensures Deliver(v, [Outbound(ToRoom(rid), PollUpdated(p))], rid, isSender) == OnPollUpdated(v, p)
  {
    DeliverOne(v, PollUpdated(p), rid, isSender);
  }

  lemma DeliverPollDeleted(v: View, pollId: Id, rid: Id, isSender: bool)
    ensures Deliver(v, [Outbound(ToRoom(rid), PollDeleted(pollId))], rid, isSender) == OnPollDeleted(v, pollId)
  {
    DeliverOne(v, PollDeleted(pollId), rid, isSender);
  }

  lemma DeliverUserLeft(v: View, userId: Id, userName: string, count: nat, rid: Id, isSender: bool)
    ensures Deliver(v, [Outbound(ToRoom(rid), UserLeft(userId, userName, count))], rid, isSender)
         == OnUserLeft(v, userId)
  {
    DeliverOne(v, UserLeft(userId, userName, count), rid, isSender);
  }

  /** Another member hears a newcomer's `user-joined` but not the state
      sent to the newcomer alone. */
  lemma DeliverUserJoined(v: View, userId: Id, userName: string, color: string, count: nat, state: ServerMessage, rid: Id)
    ensures Deliver(v, [Outbound(ToRoom(rid), UserJoined(userId, userName, color, count)), Outbound(ToSender, state)], rid, false)
         == OnUserJoined(v, userId, userName, color)
  {
    var joined := Outbound(ToRoom(rid), UserJoined(userId, userName, color, count));
    assert [joined, Outbound(ToSender, state)] == [joined] + [Outbound(ToSender, state)];
    DeliverCons(v, joined, [Outbound(ToSender, state)], rid, false);
    DeliverCons(OnUserJoined(v, userId, userName, color), Outbound(ToSender, state), [], rid, false);
  }

  /** Proof helper: a single message addressed to the member's room is
      received. */
  lemma DeliverOne(v: View, m: ServerMessage, rid: Id, isSender: bool)
    ensures Deliver(v, [Outbound(ToRoom(rid), m)], rid, isSender) == Receive(v, m)
  {
    DeliverCons(v, Outbound(ToRoom(rid), m), [], rid, isSender);
  }

  /** A join by another connection keeps the viewer in step: it hears the
      newcomer only when the newcomer joined its room. */
  lemma {:induction false} OtherJoinSync(s: ServerData, conn: Id, classroomId: Id, userName: string, env: Env,
                                         m: Id, v: View)
    requires Consistent(s) && m in s.userSessions && conn !in s.userSessions
    requires Mirrors(v, s.classrooms[s.userSessions[m].classroomId])
    ensures var t := OnJoin(s, conn, classroomId, userName, env);
      var rid := s.userSessions[m].classroomId;
      && m in t.next.userSessions && t.next.userSessions[m] == s.userSessions[m]
      && Mirrors(Deliver(v, t.out, rid, false), t.next.classrooms[rid])
  {
    var rid := s.userSessions[m].classroomId;
    if classroomId == rid {
      assert UserHasSession(s, rid, conn);
      assert RoomFiled(s, rid);
      JoinSameRoomSync(s, conn, userName, env, rid, v);
    } else {
      JoinElsewhere(s, conn, classroomId, userName, env, rid, v);
    }
  }

  /** A newcomer to the member's room is appended to its user list. */
  lemma JoinSameRoomSync(s: ServerData, conn: Id, userName: string, env: Env, rid: Id, v: View)
    requires rid in s.classrooms && s.classrooms[rid].KeyedById() && conn !in s.classrooms[rid].users.vals
    requires Mirrors(v, s.classrooms[rid])
    ensures var t := OnJoin(s, conn, rid, userName, env);
      Mirrors(Deliver(v, t.out, rid, false), t.next.classrooms[rid])
  {
    var t := OnJoin(s, conn, rid, userName, env);
    var room' := t.next.classrooms[rid];
    UserJoinSync(v, s.classrooms[rid], conn, userName, env.color, env.now);
    DeliverUserJoined(v, conn, userName, env.color, Size(room'.users), Snapshot(room'), rid);
  }

  /** A join of another room, or of no room, leaves the member's room and
      view alone. */
  lemma JoinElsewhere(s: ServerData, conn: Id, classroomId: Id, userName: string, env: Env, rid: Id, v: View)
    requires rid in s.classrooms && classroomId != rid
    ensures var t := OnJoin(s, conn, classroomId, userName, env);
      t.next.classrooms[rid] == s.classrooms[rid] && Deliver(v, t.out, rid, false) == v
  {
    var t := OnJoin(s, conn, classroomId, userName, env);
    if classroomId in s.classrooms {
      var room := t.next.classrooms[classroomId];
      DeliverJoinElsewhere(v, classroomId, UserJoined(conn, userName, env.color, Size(room.users)), Snapshot(room), rid);
    } else {
      DeliverCons(v, Outbound(ToSender, Error("Classroom not found")), [], rid, false);
    }
  }

  /** Another room's `user-joined` and the state sent to its joiner do not
      reach the member. */
  lemma DeliverJoinElsewhere(v: View, joinedRoom: Id, joined: ServerMessage, state: ServerMessage, rid: Id)
    requires joinedRoom != rid
    ensures Deliver(v, [Outbound(ToRoom(joinedRoom), joined), Outbound(ToSender, state)], rid, false) == v
  {
    var first, second := Outbound(ToRoom(joinedRoom), joined), Outbound(ToSender, state);
    assert [first, second] == [first] + [second];
    DeliverCons(v, first, [second], rid, false);
    DeliverCons(v, second, [], rid, false);
  }


  /** A disconnect by another connection keeps the viewer in step. */
  lemma {:induction false} OtherDisconnectSync(s: ServerData, conn: Id, m: Id, v: View)
    requires Consistent(s) && m in s.userSessions && conn != m
    requires Mirrors(v, s.classrooms[s.userSessions[m].classroomId])
    ensures var t := OnDisconnect(s, conn);
      var rid := s.userSessions[m].classroomId;
      && m in t.next.userSessions && t.next.userSessions[m] == s.userSessions[m]
      && Mirrors(Deliver(v, t.out, rid, false), t.next.classrooms[rid])
  {
    var rid := s.userSessions[m].classroomId;
    var t := OnDisconnect(s, conn);
    assert t.next.userSessions == s.userSessions - {conn};
    assert m in t.next.userSessions && t.next.userSessions[m] == s.userSessions[m];
    if conn in s.userSessions {
      assert SessionListed(s, conn);
      if s.userSessions[conn].classroomId == rid {
        assert RoomFiled(s, rid);
        LeaveSameRoomSync(s, conn, rid, v);
      } else {
        LeaveElsewhere(s, conn, rid, v);
      }
    }
  }

  /** A member's leaving is dropped from the other members' user lists. */
  lemma LeaveSameRoomSync(s: ServerData, conn: Id, rid: Id, v: View)
    requires conn in s.userSessions && s.userSessions[conn].classroomId == rid && rid in s.classrooms
    requires s.classrooms[rid].KeyedById() && Mirrors(v, s.classrooms[rid])
    ensures var t := OnDisconnect(s, conn);
      Mirrors(Deliver(v, t.out, rid, false), t.next.classrooms[rid])
  {
    var t := OnDisconnect(s, conn);
    var room' := t.next.classrooms[rid];
    UserLeftSync(v, s.classrooms[rid], conn);
    DeliverUserLeft(v, conn, s.userSessions[conn].userName, Size(room'.users), rid, false);
  }

  /** Leaving another room leaves the member's room and view alone. */
  lemma LeaveElsewhere(s: ServerData, conn: Id, rid: Id, v: View)
    requires conn in s.userSessions && s.userSessions[conn].classroomId != rid
    requires s.userSessions[conn].classroomId in s.classrooms && rid in s.classrooms
    ensures var t := OnDisconnect(s, conn);
      t.next.classrooms[rid] == s.classrooms[rid] && Deliver(v, t.out, rid, false) == v
  {
    var t := OnDisconnect(s, conn);
    DeliverElsewhere(v, t.out, rid, false);
  }

  /** The synchronisation property: a member of a room whose view mirrors
      the room still mirrors it after any event, once it has applied the
      messages that reach it.  The provisos: the registry and directory
      agree, the event's uuid is new to the room, a connection joins only
      once, and the member itself does not disconnect. */
  lemma {:induction false} MemberStaysInSync(s: ServerData, conn: Id, ev: ClientEvent, env: Env, m: Id, v: View)
    requires Consistent(s) && m in s.userSessions
    requires Mirrors(v, s.classrooms[s.userSessions[m].classroomId])
    requires env.freshId !in s.classrooms[s.userSessions[m].classroomId].notes.vals
    requires env.freshId !in s.classrooms[s.userSessions[m].classroomId].polls.vals
    requires ev.JoinClassroom? ==> conn !in s.userSessions
    requires ev.Disconnect? ==> conn != m
    ensures var t := Step(s, conn, ev, env);
      var rid := s.userSessions[m].classroomId;
      && m in t.next.userSessions && t.next.userSessions[m].classroomId == rid
      && Mirrors(Deliver(v, t.out, rid, conn == m), t.next.classrooms[rid])
  {
    var rid := s.userSessions[m].classroomId;
    var t := Step(s, conn, ev, env);
    match ev
    case JoinClassroom(classroomId, userName) =>
      StepJoin(s, conn, classroomId, userName, env);
      OtherJoinSync(s, conn, classroomId, userName, env, m, v);
    case Disconnect =>
      StepDisconnect(s, conn, env);
      OtherDisconnectSync(s, conn, m, v);
    case _ =>
      if conn !in s.userSessions {
        NoSessionNoEffect(s, conn, ev, env);
      } else if s.userSessions[conn].classroomId == rid {
        assert RoomFiled(s, rid);
        SameRoomEvent(s, conn, ev, env, rid, v, conn == m);
      } else {
        OtherRoomEvent(s, conn, ev, env, rid, v, conn == m);
      }
  }

  /** A connection that joins an existing room mirrors it afterwards,
      whatever its lists held before: the room's full state reaches it
      after its own `user-joined`. */
  lemma JoinerStartsInSync(s: ServerData, conn: Id, classroomId: Id, userName: string, env: Env, v: View)
    requires classroomId in s.classrooms
    ensures var t := OnJoin(s, conn, classroomId, userName, env);
      Mirrors(Deliver(v, t.out, classroomId, true), t.next.classrooms[classroomId])
  {
    var t := OnJoin(s, conn, classroomId, userName, env);
    var room := t.next.classrooms[classroomId];
    DeliverJoinToJoiner(v, conn, userName, env.color, Size(room.users), room, classroomId);
  }

  /** The joiner hears its own `user-joined` and then the room's state,
      which replaces whatever its lists held. */
  lemma DeliverJoinToJoiner(v: View, userId: Id, userName: string, color: string, count: nat, room: RoomData, rid: Id)
    ensures Deliver(v, [Outbound(ToRoom(rid), UserJoined(userId, userName, color, count)), Outbound(ToSender, Snapshot(room))], rid, true)
         == View(Values(room.notes), Values(room.polls), Values(room.users))
  {
    var joined := Outbound(ToRoom(rid), UserJoined(userId, userName, color, count));
    var state := Outbound(ToSender, Snapshot(room));
    assert [joined, state] == [joined] + [state];
    DeliverCons(v, joined, [state], rid, true);
    DeliverCons(OnUserJoined(v, userId, userName, color), state, [], rid, true);
  }

}

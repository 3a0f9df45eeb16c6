/** The socket event handlers of the server and its two process-wide maps:
    the room registry `classrooms` and the connection directory
    `userSessions`.  Each handler is first stated as a transition function
    from the state before an event to the state after it and the messages
    it sends; the class `Server` at the end runs the handlers in place and
    is proved to follow those functions. */
module SocketServer {
  import opened Wire
  import opened JsMap
  import opened Rooms

  datatype ServerData = ServerData(classrooms: map<Id, RoomData>, userSessions: map<Id, Session>)

  /** What a handler takes from its surroundings: a fresh uuid, the random
      presence colour, and the clock.  `now` is the first `Date.now()`
      reading of a handler, `later` the second (only `add-note` and
      `create-poll` read the clock twice, for `createdAt` and `updatedAt`). */
  datatype Env = Env(freshId: Id, color: string, now: int, later: int)

  /** The state after an event and the messages sent, in the order sent. */
  datatype Transition = Transition(next: ServerData, out: seq<Outbound>)

  /** Every session names a room that is in the registry.  The mutating
      handlers look the room up without checking for it. */
  predicate SessionsResolve(s: ServerData) {
    forall c | c in s.userSessions :: s.userSessions[c].classroomId in s.classrooms
  }

  /** Only room `rid` may differ between `s` and `s'`; the registry's keys
      and the session directory are the same. */
  predicate OnlyRoomChanged(s: ServerData, s': ServerData, rid: Id) {
    && s'.userSessions == s.userSessions
    && s'.classrooms.Keys == s.classrooms.Keys
    && forall r | r in s.classrooms && r != rid :: s'.classrooms[r] == s.classrooms[r]
  }

  /** The room state `classroom-state` carries: the lists
      `Array.from(map.values())` of notes, polls and users. */
  function Snapshot(r: RoomData): (m: ServerMessage)
    ensures m.ClassroomState?
    ensures |m.notes| == |r.notes.keys| && forall i | 0 <= i < |r.notes.keys| :: m.notes[i] == r.notes.vals[r.notes.keys[i]]
    ensures |m.polls| == |r.polls.keys| && forall i | 0 <= i < |r.polls.keys| :: m.polls[i] == r.polls.vals[r.polls.keys[i]]
    ensures |m.users| == |r.users.keys| && forall i | 0 <= i < |r.users.keys| :: m.users[i] == r.users.vals[r.users.keys[i]]
  {
    ClassroomState(Values(r.notes), Values(r.polls), Values(r.users))
  }

  /** The registry insert behind room creation: a new, empty room filed
      under the fresh id. */
  function AddRoom(s: ServerData, id: Id, name: string): (s': ServerData)
    ensures id in s'.classrooms && s'.classrooms[id] == NewRoom(id, name)
    ensures forall r | r in s.classrooms && r != id :: r in s'.classrooms && s'.classrooms[r] == s.classrooms[r]
    ensures s'.classrooms.Keys == s.classrooms.Keys + {id}
    ensures s'.userSessions == s.userSessions
  {
    s.(classrooms := s.classrooms[id := NewRoom(id, name)])
  }

  /** `join-classroom`.  An unknown room id gets one `error` message back to
      the sender and changes nothing.  Otherwise the connection is added to
      the room's users and bound to the room in the directory; the room then
      hears `user-joined` with the user count after the add, and the sender
      alone receives the room's full state. */
  function OnJoin(s: ServerData, conn: Id, classroomId: Id, userName: string, env: Env): (t: Transition)
    ensures classroomId !in s.classrooms ==>
      t == Transition(s, [Outbound(ToSender, Error("Classroom not found"))])
    ensures classroomId in s.classrooms ==>
      var was := s.classrooms[classroomId];
      && OnlyRoomChanged(s.(userSessions := t.next.userSessions), t.next, classroomId)
      && t.next.userSessions == s.userSessions[conn := Session(classroomId, userName)]
      && t.next.classrooms[classroomId] == was.AddUser(conn, userName, env.color, env.now).0
      && var room := t.next.classrooms[classroomId];
      && Get(room.users, conn) == Some(User(conn, userName, env.color, Defined(env.now)))
      && t.out == [Outbound(ToRoom(classroomId), UserJoined(conn, userName, env.color, Size(room.users))),
                   Outbound(ToSender, Snapshot(room))]
  {
    if classroomId !in s.classrooms then
      Transition(s, [Outbound(ToSender, Error("Classroom not found"))])
    else
      var (room, _) := s.classrooms[classroomId].AddUser(conn, userName, env.color, env.now);
      Transition(
        ServerData(s.classrooms[classroomId := room],
                   s.userSessions[conn := Session(classroomId, userName)]),
        [Outbound(ToRoom(classroomId), UserJoined(conn, userName, env.color, Size(room.users))),
         Outbound(ToSender, Snapshot(room))])
  }

  /** `add-note`.  Without a session nothing happens.  Otherwise a note
      with the fresh id, the event's fields as given and the sender as author
      is filed in the sender's room and broadcast to that room. */
  function OnAddNote(s: ServerData, conn: Id, content: Js<string>, color: Js<string>,
                     x: Js<real>, y: Js<real>, env: Env): (t: Transition)
    requires SessionsResolve(s)
    ensures conn !in s.userSessions ==> t == Transition(s, [])
    ensures conn in s.userSessions ==>
      var rid := s.userSessions[conn].classroomId;
      && |t.out| == 1 && t.out[0].target == ToRoom(rid) && t.out[0].msg.NoteAdded?
      && var n := t.out[0].msg.note;
      && n.id == env.freshId && n.content == content && n.color == color
      && n.x == x && n.y == y && n.userId == conn
      && n.userName == s.userSessions[conn].userName
      && n.createdAt == env.now && n.updatedAt == env.later
      && OnlyRoomChanged(s, t.next, rid)
      && t.next.classrooms[rid] == s.classrooms[rid].AddNote(n)
  {
    if conn !in s.userSessions then Transition(s, [])
    else
      var session := s.userSessions[conn];
      var rid := session.classroomId;
      var note := Note(env.freshId, content, color, conn, session.userName, x, y, env.now, env.later);
      Transition(s.(classrooms := s.classrooms[rid := s.classrooms[rid].AddNote(note)]),
                 [Outbound(ToRoom(rid), NoteAdded(note))])
  }

  /** `update-note`.  Without a session, or for a note id the sender's room
      does not hold, nothing changes and nothing is sent.  Otherwise the note
      is edited and the edited note is broadcast to the room. */
  function OnUpdateNote(s: ServerData, conn: Id, noteId: Id, edit: NoteEdit, env: Env): (t: Transition)
    requires SessionsResolve(s)
    ensures conn !in s.userSessions ==> t == Transition(s, [])
    ensures conn in s.userSessions ==>
      var rid := s.userSessions[conn].classroomId;
      var (room, updated) := s.classrooms[rid].UpdateNote(noteId, edit, env.now);
      && (noteId !in s.classrooms[rid].notes.vals ==> t == Transition(s, []))
      && (noteId in s.classrooms[rid].notes.vals ==>
            && OnlyRoomChanged(s, t.next, rid)
            && t.next.classrooms[rid] == room
            && t.out == [Outbound(ToRoom(rid), NoteUpdated(updated.value))])
  {
    if conn !in s.userSessions then Transition(s, [])
    else
      var rid := s.userSessions[conn].classroomId;
      var (room, updated) := s.classrooms[rid].UpdateNote(noteId, edit, env.now);
      match updated
      case None =>
        assert s.classrooms[rid := room] == s.classrooms;
        Transition(s.(classrooms := s.classrooms[rid := room]), [])
      case Some(n) =>
        Transition(s.(classrooms := s.classrooms[rid := room]), [Outbound(ToRoom(rid), NoteUpdated(n))])
  }

  /** `delete-note`.  Without a session nothing happens.  Otherwise the note
      is removed if present, and the requested id is broadcast to the room
      whether or not it was present. */
  function OnDeleteNote(s: ServerData, conn: Id, noteId: Id): (t: Transition)
    requires SessionsResolve(s)
    ensures conn !in s.userSessions ==> t == Transition(s, [])
    ensures conn in s.userSessions ==>
      var rid := s.userSessions[conn].classroomId;
      && t.out == [Outbound(ToRoom(rid), NoteDeleted(noteId))]
      && OnlyRoomChanged(s, t.next, rid)
      && t.next.classrooms[rid] == s.classrooms[rid].DeleteNote(noteId).0
      && (noteId !in s.classrooms[rid].notes.vals ==> t.next == s)
  {
    if conn !in s.userSessions then Transition(s, [])
    else
      var rid := s.userSessions[conn].classroomId;
      var (room, _) := s.classrooms[rid].DeleteNote(noteId);
      assert noteId !in s.classrooms[rid].notes.vals ==> s.classrooms[rid := room] == s.classrooms;
      Transition(s.(classrooms := s.classrooms[rid := room]), [Outbound(ToRoom(rid), NoteDeleted(noteId))])
  }

  /** `create-poll`.  Without a session nothing happens.  Otherwise a poll
      with the fresh id, the event's question and options as given, no
      responses and the sender as author is filed and broadcast. */
  function OnCreatePoll(s: ServerData, conn: Id, question: string, options: seq<string>, env: Env): (t: Transition)
    requires SessionsResolve(s)
    ensures conn !in s.userSessions ==> t == Transition(s, [])
    ensures conn in s.userSessions ==>
      var rid := s.userSessions[conn].classroomId;
      && |t.out| == 1 && t.out[0].target == ToRoom(rid) && t.out[0].msg.PollCreated?
      && var p := t.out[0].msg.poll;
      && p.id == env.freshId && p.question == question && p.options == options
      && p.userId == conn && p.userName == s.userSessions[conn].userName
      && p.responses == map[] && p.createdAt == env.now && p.updatedAt == env.later
      && OnlyRoomChanged(s, t.next, rid)
      && t.next.classrooms[rid] == s.classrooms[rid].CreatePoll(p)
  {
    if conn !in s.userSessions then Transition(s, [])
    else
      var session := s.userSessions[conn];
      var rid := session.classroomId;
      var poll := Poll(env.freshId, question, options, conn, session.userName, map[], env.now, env.later);
      Transition(s.(classrooms := s.classrooms[rid := s.classrooms[rid].CreatePoll(poll)]),
                 [Outbound(ToRoom(rid), PollCreated(poll))])
  }

  /** `vote-poll`.  Without a session, or for a poll the room does not
      hold, nothing changes and nothing is sent.  Otherwise the sender's
      response is recorded under its connection id and the poll is
      broadcast. */
  function OnVotePoll(s: ServerData, conn: Id, pollId: Id, optionId: int, env: Env): (t: Transition)
    requires SessionsResolve(s)
    ensures conn !in s.userSessions ==> t == Transition(s, [])
    ensures conn in s.userSessions ==>
      var rid := s.userSessions[conn].classroomId;
      var (room, updated) := s.classrooms[rid].AddPollResponse(pollId, conn, optionId, env.now);
      && (pollId !in s.classrooms[rid].polls.vals ==> t == Transition(s, []))
      && (pollId in s.classrooms[rid].polls.vals ==>
            && OnlyRoomChanged(s, t.next, rid)
            && t.next.classrooms[rid] == room
            && t.out == [Outbound(ToRoom(rid), PollUpdated(updated.value))])
  {
    if conn !in s.userSessions then Transition(s, [])
    else
      var rid := s.userSessions[conn].classroomId;
      var (room, updated) := s.classrooms[rid].AddPollResponse(pollId, conn, optionId, env.now);
      match updated
      case None =>
        assert s.classrooms[rid := room] == s.classrooms;
        Transition(s.(classrooms := s.classrooms[rid := room]), [])
      case Some(p) =>
        Transition(s.(classrooms := s.classrooms[rid := room]), [Outbound(ToRoom(rid), PollUpdated(p))])
  }

  /** `delete-poll`: as `delete-note`, for polls. */
  function OnDeletePoll(s: ServerData, conn: Id, pollId: Id): (t: Transition)
    requires SessionsResolve(s)
    ensures conn !in s.userSessions ==> t == Transition(s, [])
    ensures conn in s.userSessions ==>
      var rid := s.userSessions[conn].classroomId;
      && t.out == [Outbound(ToRoom(rid), PollDeleted(pollId))]
      && OnlyRoomChanged(s, t.next, rid)
      && t.next.classrooms[rid] == s.classrooms[rid].DeletePoll(pollId).0
      && (pollId !in s.classrooms[rid].polls.vals ==> t.next == s)
  {
    if conn !in s.userSessions then Transition(s, [])
    else
      var rid := s.userSessions[conn].classroomId;
      var (room, _) := s.classrooms[rid].DeletePoll(pollId);
      assert pollId !in s.classrooms[rid].polls.vals ==> s.classrooms[rid := room] == s.classrooms;
      Transition(s.(classrooms := s.classrooms[rid := room]), [Outbound(ToRoom(rid), PollDeleted(pollId))])
  }

  /** `disconnect`.  Without a session nothing happens.  Otherwise, when the
      session's room exists, the user is removed from it and the room hears
      `user-left` with the user count after the removal; the session is
      deleted in every case. */
  function OnDisconnect(s: ServerData, conn: Id): (t: Transition)
    ensures conn !in s.userSessions ==> t == Transition(s, [])
    ensures conn !in t.next.userSessions
    ensures t.next.userSessions == s.userSessions - {conn}
    ensures t.next.classrooms.Keys == s.classrooms.Keys
    ensures conn in s.userSessions && s.userSessions[conn].classroomId in s.classrooms ==>
      var session := s.userSessions[conn];
      var rid := session.classroomId;
      && t.next.classrooms[rid] == s.classrooms[rid].RemoveUser(conn).0
      && (forall r | r in s.classrooms && r != rid :: t.next.classrooms[r] == s.classrooms[r])
      && t.out == [Outbound(ToRoom(rid), UserLeft(conn, session.userName,
                                                  Size(t.next.classrooms[rid].users)))]
    ensures conn in s.userSessions && s.userSessions[conn].classroomId !in s.classrooms ==>
      t.next.classrooms == s.classrooms && t.out == []
  {
    if conn !in s.userSessions then
      assert s.userSessions - {conn} == s.userSessions;
      Transition(s, [])
    else
      var session := s.userSessions[conn];
      var rid := session.classroomId;
      if rid in s.classrooms then
        var (room, _) := s.classrooms[rid].RemoveUser(conn);
        Transition(ServerData(s.classrooms[rid := room], s.userSessions - {conn}),
                   [Outbound(ToRoom(rid), UserLeft(conn, session.userName, Size(room.users)))])
      else
        Transition(s.(userSessions := s.userSessions - {conn}), [])
  }

  /** Proof helper: the transition of a `disconnect` whose session names an
      existing room, spelled out. */
  lemma DisconnectFromRoom(s: ServerData, conn: Id)
    requires conn in s.userSessions && s.userSessions[conn].classroomId in s.classrooms
    ensures var session := s.userSessions[conn];
      var rid := session.classroomId;
      var room := s.classrooms[rid].RemoveUser(conn).0;
      OnDisconnect(s, conn)
        == Transition(ServerData(s.classrooms[rid := room], s.userSessions - {conn}),
                      [Outbound(ToRoom(rid), UserLeft(conn, session.userName, Size(room.users)))])
  {
  }

  /** Proof helper: the transition of a `disconnect` whose session names a
      room that is not in the registry. */
  lemma DisconnectNoRoom(s: ServerData, conn: Id)
    requires conn in s.userSessions && s.userSessions[conn].classroomId !in s.classrooms
    ensures OnDisconnect(s, conn) == Transition(s.(userSessions := s.userSessions - {conn}), [])
  {
  }

  /** One event from connection `conn`, handled to completion: the server
      runs its handlers one at a time. */
  function Step(s: ServerData, conn: Id, ev: ClientEvent, env: Env): (t: Transition)
    requires SessionsResolve(s)
    ensures SessionsResolve(t.next)
    ensures t.next.classrooms.Keys == s.classrooms.Keys
  {
    match ev
    case JoinClassroom(classroomId, userName) => OnJoin(s, conn, classroomId, userName, env)
    case AddNote(content, color, x, y) => OnAddNote(s, conn, content, color, x, y, env)
    case UpdateNote(noteId, edit) => OnUpdateNote(s, conn, noteId, edit, env)
    case DeleteNote(noteId) => OnDeleteNote(s, conn, noteId)
    case CreatePoll(question, options) => OnCreatePoll(s, conn, question, options, env)
    case VotePoll(pollId, optionId) => OnVotePoll(s, conn, pollId, optionId, env)
    case DeletePoll(pollId) => OnDeletePoll(s, conn, pollId)
    case Disconnect => OnDisconnect(s, conn)
  }

  // Proof helpers: `Step` unfolded for one kind of event each.  They state
  // nothing beyond `Step`'s body and keep the proofs that use them cheap.

  /** An `add-note` event is handled by the `add-note` handler. */
  lemma StepAddNote(s: ServerData, conn: Id, content: Js<string>, color: Js<string>, x: Js<real>, y: Js<real>, env: Env)
    requires SessionsResolve(s)
    ensures Step(s, conn, AddNote(content, color, x, y), env) == OnAddNote(s, conn, content, color, x, y, env)
  {
    var ev := AddNote(content, color, x, y);
    assert ev.AddNote? && ev.content == content && ev.color == color && ev.x == x && ev.y == y;
  }

  /** An `update-note` event is handled by the `update-note` handler. */
  lemma StepUpdateNote(s: ServerData, conn: Id, noteId: Id, edit: NoteEdit, env: Env)
    requires SessionsResolve(s)
    ensures Step(s, conn, UpdateNote(noteId, edit), env) == OnUpdateNote(s, conn, noteId, edit, env)
  {
    var ev := UpdateNote(noteId, edit);
    assert ev.UpdateNote? && ev.noteId == noteId && ev.edit == edit;
  }

  /** A `delete-note` event is handled by the `delete-note` handler. */
  lemma StepDeleteNote(s: ServerData, conn: Id, noteId: Id, env: Env)
    requires SessionsResolve(s)
    ensures Step(s, conn, DeleteNote(noteId), env) == OnDeleteNote(s, conn, noteId)
  {
    var ev := DeleteNote(noteId);
    assert ev.DeleteNote? && ev.noteId == noteId;
  }

  /** A `create-poll` event is handled by the `create-poll` handler. */
  lemma StepCreatePoll(s: ServerData, conn: Id, question: string, options: seq<string>, env: Env)
    requires SessionsResolve(s)
    ensures Step(s, conn, CreatePoll(question, options), env) == OnCreatePoll(s, conn, question, options, env)
  {
    var ev := CreatePoll(question, options);
    assert ev.CreatePoll? && ev.question == question && ev.options == options;
  }

  /** A `vote-poll` event is handled by the `vote-poll` handler. */
  lemma StepVotePoll(s: ServerData, conn: Id, pollId: Id, optionId: int, env: Env)
    requires SessionsResolve(s)
    ensures Step(s, conn, VotePoll(pollId, optionId), env) == OnVotePoll(s, conn, pollId, optionId, env)
  {
    var ev := VotePoll(pollId, optionId);
    assert ev.VotePoll? && ev.pollId == pollId && ev.optionId == optionId;
  }

  /** A `delete-poll` event is handled by the `delete-poll` handler. */
  lemma StepDeletePoll(s: ServerData, conn: Id, pollId: Id, env: Env)
    requires SessionsResolve(s)
    ensures Step(s, conn, DeletePoll(pollId), env) == OnDeletePoll(s, conn, pollId)
  {
    var ev := DeletePoll(pollId);
    assert ev.DeletePoll? && ev.pollId == pollId;
  }

  /** A `join-classroom` event is handled by the `join-classroom` handler. */
  lemma StepJoin(s: ServerData, conn: Id, classroomId: Id, userName: string, env: Env)
    requires SessionsResolve(s)
    ensures Step(s, conn, JoinClassroom(classroomId, userName), env) == OnJoin(s, conn, classroomId, userName, env)
  {
    var ev := JoinClassroom(classroomId, userName);
    assert ev.JoinClassroom? && ev.classroomId == classroomId && ev.userName == userName;
  }

  /** A `disconnect` is handled by the `disconnect` handler. */
  lemma StepDisconnect(s: ServerData, conn: Id, env: Env)
    requires SessionsResolve(s)
    ensures Step(s, conn, Disconnect, env) == OnDisconnect(s, conn)
  {
    var ev := Disconnect;
    assert ev.Disconnect?;
  }

  /** The abstract value of a registry of room objects. */
  function Registry(rooms: map<Id, Classroom>): map<Id, RoomData>
    reads rooms.Values
  {
    map k | k in rooms :: rooms[k].Data()
  }

  /** The server process: the registry holds `Classroom` objects, which the
      handlers change in place. */
  class Server {
    var classrooms: map<Id, Classroom>
    var userSessions: map<Id, Session>

    /** Each room is filed under its own id, so distinct keys hold distinct
        objects. */
    ghost predicate Valid()
      reads this
    {
      forall k | k in classrooms :: classrooms[k].id == k
    }

    function Data(): ServerData
      reads this, classrooms.Values
    {
      ServerData(Registry(classrooms), userSessions)
    }

    /** Both maps start empty. */
    constructor ()
      ensures Valid() && Data() == ServerData(map[], map[])
    {
      classrooms := map[];
      userSessions := map[];
    }

    /** After a step that changed, or newly filed, only the room under
        `rid`, the abstract registry differs from the old one in that entry
        alone. */
    twostate lemma OnlyRoomObjectChanged(rid: Id)
      requires rid in classrooms
      requires classrooms.Keys == old(classrooms).Keys + {rid}
      requires forall k | k in old(classrooms) && k != rid :: classrooms[k] == old(classrooms)[k]
      requires Valid()
      requires forall o | o in classrooms.Values && o != classrooms[rid] :: unchanged(o)
      ensures Data().classrooms == old(Data()).classrooms[rid := classrooms[rid].Data()]
    {
      var now, was := Registry(classrooms), old(Registry(classrooms))[rid := classrooms[rid].Data()];
      forall k | k in now ensures k in was && now[k] == was[k] {
        if k != rid {
          var o := classrooms[k];
          assert o == old(classrooms)[k] && o.id == k;
          assert o in classrooms.Values && o != classrooms[rid];
        }
      }
    }

    method CreateRoom(id: Id, name: string)
      requires Valid()
      modifies this
      ensures Valid() && id in classrooms && fresh(classrooms[id])
      ensures Data() == AddRoom(old(Data()), id, name)
    {
      var room := new Classroom(id, name);
      classrooms := classrooms[id := room];
      OnlyRoomObjectChanged(id);
    }

    method JoinClassroom(conn: Id, classroomId: Id, userName: string, env: Env) returns (out: seq<Outbound>)
      requires Valid()
      modifies this, classrooms.Values
      ensures Valid() && classrooms == old(classrooms)
      ensures Transition(Data(), out) == OnJoin(old(Data()), conn, classroomId, userName, env)
    {
      if classroomId !in classrooms {
        out := [Outbound(ToSender, Error("Classroom not found"))];
        return;
      }
      var room := classrooms[classroomId];
      var _ := room.AddUser(conn, userName, env.color, env.now);
      userSessions := userSessions[conn := Session(classroomId, userName)];
      OnlyRoomObjectChanged(classroomId);
      out := [Outbound(ToRoom(classroomId), UserJoined(conn, userName, env.color, Size(room.users))),
              Outbound(ToSender, ClassroomState(Values(room.notes), Values(room.polls), Values(room.users)))];
    }

    method AddNote(conn: Id, content: Js<string>, color: Js<string>, x: Js<real>, y: Js<real>, env: Env)
      returns (out: seq<Outbound>)
      requires Valid() && SessionsResolve(Data())
      modifies classrooms.Values
      ensures Transition(Data(), out) == OnAddNote(old(Data()), conn, content, color, x, y, env)
    {
      if conn !in userSessions {
        return [];
      }
      var session := userSessions[conn];
      var room := classrooms[session.classroomId];
      var note := Note(env.freshId, content, color, conn, session.userName, x, y, env.now, env.later);
      var _ := room.AddNote(note);
      OnlyRoomObjectChanged(session.classroomId);
      out := [Outbound(ToRoom(session.classroomId), NoteAdded(note))];
    }

    method UpdateNote(conn: Id, noteId: Id, edit: NoteEdit, env: Env) returns (out: seq<Outbound>)
      requires Valid() && SessionsResolve(Data())
      modifies classrooms.Values
      ensures Transition(Data(), out) == OnUpdateNote(old(Data()), conn, noteId, edit, env)
    {
      if conn !in userSessions {
        return [];
      }
      var session := userSessions[conn];
      var room := classrooms[session.classroomId];
      var updated := room.UpdateNote(noteId, edit, env.now);
      OnlyRoomObjectChanged(session.classroomId);
      if updated.Some? {
        out := [Outbound(ToRoom(session.classroomId), NoteUpdated(updated.value))];
      } else {
        out := [];
      }
    }

    method DeleteNote(conn: Id, noteId: Id) returns (out: seq<Outbound>)
      requires Valid() && SessionsResolve(Data())
      modifies classrooms.Values
      ensures Transition(Data(), out) == OnDeleteNote(old(Data()), conn, noteId)
    {
      if conn !in userSessions {
        return [];
      }
      var session := userSessions[conn];
      var room := classrooms[session.classroomId];
      var _ := room.DeleteNote(noteId);
      OnlyRoomObjectChanged(session.classroomId);
      out := [Outbound(ToRoom(session.classroomId), NoteDeleted(noteId))];
    }

    method CreatePoll(conn: Id, question: string, options: seq<string>, env: Env) returns (out: seq<Outbound>)
      requires Valid() && SessionsResolve(Data())
      modifies classrooms.Values
      ensures Transition(Data(), out) == OnCreatePoll(old(Data()), conn, question, options, env)
    {
      if conn !in userSessions {
        return [];
      }
      var session := userSessions[conn];
      var room := classrooms[session.classroomId];
      var poll := Poll(env.freshId, question, options, conn, session.userName, map[], env.now, env.later);
      var _ := room.CreatePoll(poll);
      OnlyRoomObjectChanged(session.classroomId);
      out := [Outbound(ToRoom(session.classroomId), PollCreated(poll))];
    }

    method VotePoll(conn: Id, pollId: Id, optionId: int, env: Env) returns (out: seq<Outbound>)
      requires Valid() && SessionsResolve(Data())
      modifies classrooms.Values
      ensures Transition(Data(), out) == OnVotePoll(old(Data()), conn, pollId, optionId, env)
    {
      if conn !in userSessions {
        return [];
      }
      var session := userSessions[conn];
      var room := classrooms[session.classroomId];
      var updated := room.AddPollResponse(pollId, conn, optionId, env.now);
      OnlyRoomObjectChanged(session.classroomId);
      if updated.Some? {
        out := [Outbound(ToRoom(session.classroomId), PollUpdated(updated.value))];
      } else {
        out := [];
      }
    }

    method DeletePoll(conn: Id, pollId: Id) returns (out: seq<Outbound>)
      requires Valid() && SessionsResolve(Data())
      modifies classrooms.Values
      ensures Transition(Data(), out) == OnDeletePoll(old(Data()), conn, pollId)
    {
      if conn !in userSessions {
        return [];
      }
      var session := userSessions[conn];
      var room := classrooms[session.classroomId];
      var _ := room.DeletePoll(pollId);
      OnlyRoomObjectChanged(session.classroomId);
      out := [Outbound(ToRoom(session.classroomId), PollDeleted(pollId))];
    }

    method Disconnect(conn: Id) returns (out: seq<Outbound>)
      requires Valid()
      modifies this, classrooms.Values
      ensures Valid() && classrooms == old(classrooms)
      ensures Transition(Data(), out) == OnDisconnect(old(Data()), conn)
    {
      if conn !in userSessions {
        return [];
      }
      if userSessions[conn].classroomId in classrooms {
        out := LeaveRoom(conn);
      } else {
        DisconnectNoRoom(Data(), conn);
        userSessions := userSessions - {conn};
        out := [];
        assert Data() == old(Data()).(userSessions := old(userSessions) - {conn});
      }
    }

    /** The part of `disconnect` for a session whose room exists: the user
        is removed from the room object, the room hears `user-left`, and
        the session is deleted. */
    method LeaveRoom(conn: Id) returns (out: seq<Outbound>)
      requires Valid() && conn in userSessions && userSessions[conn].classroomId in classrooms
      modifies this, classrooms.Values
      ensures Valid() && classrooms == old(classrooms)
      ensures Transition(Data(), out) == OnDisconnect(old(Data()), conn)
    {
      var session := userSessions[conn];
      var rid := session.classroomId;
      var room := classrooms[rid];
      var _ := room.RemoveUser(conn);
      out := [Outbound(ToRoom(rid), UserLeft(conn, session.userName, Size(room.users)))];
      userSessions := userSessions - {conn};
      OnlyRoomObjectChanged(rid);
      DisconnectFromRoom(old(Data()), conn);
    }
  }
}

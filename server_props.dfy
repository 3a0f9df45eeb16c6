/** Properties of the server's event handling that relate several events,
    or hold of every event. */
module ServerProperties {
  import opened Wire
  import opened JsMap
  import opened Rooms
  import opened SocketServer

  /** The events that need a session to do anything. */
  predicate Mutating(ev: ClientEvent) {
    !ev.JoinClassroom? && !ev.Disconnect?
  }

  /** A connection with no session changes nothing and hears nothing, for
      every event but `join-classroom`. */
  lemma NoSessionNoEffect(s: ServerData, conn: Id, ev: ClientEvent, env: Env)
    requires SessionsResolve(s)
    requires conn !in s.userSessions && !ev.JoinClassroom?
    ensures Step(s, conn, ev, env) == Transition(s, [])
  {
  }

  /** An event that needs a session, from a connection that has one,
      changes at most the room of that session, leaves the directory alone,
      and addresses every message it sends to that room. */
  lemma {:induction false} MutationStaysInRoom(s: ServerData, conn: Id, ev: ClientEvent, env: Env)
    requires SessionsResolve(s) && Mutating(ev) && conn in s.userSessions
    ensures var t := Step(s, conn, ev, env);
      var r := s.userSessions[conn].classroomId;
      && OnlyRoomChanged(s, t.next, r)
      && forall i | 0 <= i < |t.out| :: t.out[i].target == ToRoom(r)
  {
    match ev
    case AddNote(content, color, x, y) => StepAddNote(s, conn, content, color, x, y, env);
    case UpdateNote(noteId, edit) => StepUpdateNote(s, conn, noteId, edit, env);
    case DeleteNote(noteId) => StepDeleteNote(s, conn, noteId, env);
    case CreatePoll(question, options) => StepCreatePoll(s, conn, question, options, env);
    case VotePoll(pollId, optionId) => StepVotePoll(s, conn, pollId, optionId, env);
    case DeletePoll(pollId) => StepDeletePoll(s, conn, pollId, env);
  }

  /** A second `disconnect` from the same connection is a no-op. */
  lemma DisconnectIdempotent(s: ServerData, conn: Id)
    ensures var t := OnDisconnect(s, conn);
      OnDisconnect(t.next, conn) == Transition(t.next, [])
  {
  }

  /** Exactly one `user-left` is sent when the connection had a session
      whose room exists, and none otherwise. */
  lemma DisconnectAnnouncesOnce(s: ServerData, conn: Id)
    requires SessionsResolve(s)
    ensures var t := OnDisconnect(s, conn);
      && (conn in s.userSessions <==> |t.out| == 1)
      && (conn !in s.userSessions <==> t.out == [])
      && forall i | 0 <= i < |t.out| :: t.out[i].msg.UserLeft? && t.out[i].msg.userId == conn
  {
  }

  /** Voting twice from one connection on one poll leaves one entry for the
      connection, holding the later choice, and as many entries as after the
      first vote. */
  lemma {:induction false} ReVoteOverwrites(s: ServerData, conn: Id, pollId: Id, first: int, second: int, env1: Env, env2: Env)
    requires SessionsResolve(s) && conn in s.userSessions
    requires pollId in s.classrooms[s.userSessions[conn].classroomId].polls.vals
    ensures var t1 := OnVotePoll(s, conn, pollId, first, env1);
      var t2 := OnVotePoll(t1.next, conn, pollId, second, env2);
      var rid := s.userSessions[conn].classroomId;
      var p1 := t1.next.classrooms[rid].polls.vals[pollId];
      var p2 := t2.next.classrooms[rid].polls.vals[pollId];
      && p2.responses[conn] == second
      && p2.responses.Keys == p1.responses.Keys
      && |p2.responses| == |p1.responses|
  {
    var rid := s.userSessions[conn].classroomId;
    var t1 := OnVotePoll(s, conn, pollId, first, env1);
    assert SessionsResolve(t1.next);
    assert t1.next.userSessions == s.userSessions;
    assert pollId in t1.next.classrooms[rid].polls.vals;
  }

  /** Deleting a note twice: the second delete changes nothing but is still
      broadcast, because the handler does not look at `deleteNote`'s
      result. */
  lemma {:induction false} DeleteNoteTwice(s: ServerData, conn: Id, noteId: Id)
    requires SessionsResolve(s) && conn in s.userSessions
    ensures var t1 := OnDeleteNote(s, conn, noteId);
      var t2 := OnDeleteNote(t1.next, conn, noteId);
      && t2.next == t1.next
      && t2.out == t1.out == [Outbound(ToRoom(s.userSessions[conn].classroomId), NoteDeleted(noteId))]
  {
    var t1 := OnDeleteNote(s, conn, noteId);
    var rid := s.userSessions[conn].classroomId;
    assert SessionsResolve(t1.next) && t1.next.userSessions == s.userSessions;
    assert noteId !in t1.next.classrooms[rid].notes.vals;
  }

  /** The same for polls. */
  lemma {:induction false} DeletePollTwice(s: ServerData, conn: Id, pollId: Id)
    requires SessionsResolve(s) && conn in s.userSessions
    ensures var t1 := OnDeletePoll(s, conn, pollId);
      var t2 := OnDeletePoll(t1.next, conn, pollId);
      && t2.next == t1.next
      && t2.out == t1.out == [Outbound(ToRoom(s.userSessions[conn].classroomId), PollDeleted(pollId))]
  {
    var t1 := OnDeletePoll(s, conn, pollId);
    var rid := s.userSessions[conn].classroomId;
    assert SessionsResolve(t1.next) && t1.next.userSessions == s.userSessions;
    assert pollId !in t1.next.classrooms[rid].polls.vals;
  }

  /** A session of `c`, if any, names a room that lists `c` as a user. */
  predicate SessionListed(s: ServerData, c: Id) {
    c in s.userSessions ==>
      && s.userSessions[c].classroomId in s.classrooms
      && c in s.classrooms[s.userSessions[c].classroomId].users.vals
  }

  /** If room `r` lists `u` as a user, `u` has a session naming `r`. */
  predicate UserHasSession(s: ServerData, r: Id, u: Id) {
    r in s.classrooms && u in s.classrooms[r].users.vals ==>
      u in s.userSessions && s.userSessions[u].classroomId == r
  }

  /** The room under `r`, if any, has id `r` and files its entities under
      their own ids. */
  predicate RoomFiled(s: ServerData, r: Id) {
    r in s.classrooms ==> s.classrooms[r].id == r && s.classrooms[r].KeyedById()
  }

  /** The registry and the directory agree: every room is filed under its
      own id with its entities filed under theirs, every session names a
      room that lists the connection among its users, and every user of a
      room has a session naming that room. */
  ghost predicate Consistent(s: ServerData) {
    && SessionsResolve(s)
    && (forall c :: SessionListed(s, c))
    && (forall r, u :: UserHasSession(s, r, u))
    && (forall r :: RoomFiled(s, r))
  }

  /** A connection has a session exactly when some room lists it. */
  lemma {:induction false} PresenceIffSession(s: ServerData, conn: Id)
    requires Consistent(s)
    ensures conn in s.userSessions <==> exists r :: r in s.classrooms && conn in s.classrooms[r].users.vals
  {
    if conn in s.userSessions {
      assert SessionListed(s, conn);
      var r := s.userSessions[conn].classroomId;
      assert r in s.classrooms && conn in s.classrooms[r].users.vals;
    } else {
      forall r | r in s.classrooms ensures conn !in s.classrooms[r].users.vals {
        assert UserHasSession(s, r, conn);
      }
    }
  }

  lemma ServerStartsConsistent()
    ensures Consistent(ServerData(map[], map[]))
  {
  }

  /** Filing a new room under a fresh id keeps the agreement. */
  lemma {:induction false} AddRoomKeepsConsistent(s: ServerData, id: Id, name: string)
    requires Consistent(s) && id !in s.classrooms
    ensures Consistent(AddRoom(s, id, name))
  {
    var s' := AddRoom(s, id, name);
    forall c ensures SessionListed(s', c) {
      assert SessionListed(s, c);
    }
    forall r, u ensures UserHasSession(s', r, u) {
      assert UserHasSession(s, r, u);
    }
    forall r ensures RoomFiled(s', r) {
      assert RoomFiled(s, r);
    }
  }

  /** A join from a connection without a session keeps the agreement. */
  lemma {:induction false} JoinKeepsConsistent(s: ServerData, conn: Id, rid: Id, userName: string, env: Env)
    requires Consistent(s) && conn !in s.userSessions
    ensures Consistent(OnJoin(s, conn, rid, userName, env).next)
  {
    var s' := OnJoin(s, conn, rid, userName, env).next;
    if rid in s.classrooms {
      var room := s'.classrooms[rid];
      forall c ensures SessionListed(s', c) {
        assert SessionListed(s, c);
        if c != conn && c in s.userSessions && s.userSessions[c].classroomId == rid {
          assert Get(room.users, c) == Get(s.classrooms[rid].users, c);
        }
      }
      forall r, u ensures UserHasSession(s', r, u) {
        assert UserHasSession(s, r, u);
        if r == rid && u != conn {
          assert Get(room.users, u) == Get(s.classrooms[rid].users, u);
        }
      }
      forall r ensures RoomFiled(s', r) {
        assert RoomFiled(s, r);
      }
    }
  }

  /** `disconnect` keeps the agreement. */
  lemma {:induction false} DisconnectKeepsConsistent(s: ServerData, conn: Id)
    requires Consistent(s)
    ensures Consistent(OnDisconnect(s, conn).next)
  {
    var s' := OnDisconnect(s, conn).next;
    if conn in s.userSessions {
      var rid := s.userSessions[conn].classroomId;
      var room := s'.classrooms[rid];
      forall c ensures SessionListed(s', c) {
        assert SessionListed(s, c);
        if c != conn && c in s.userSessions && s.userSessions[c].classroomId == rid {
          assert Get(room.users, c) == Get(s.classrooms[rid].users, c);
        }
      }
      forall r, u ensures UserHasSession(s', r, u) {
        assert UserHasSession(s, r, u);
        if r == rid && u != conn {
          assert Get(room.users, u) == Get(s.classrooms[rid].users, u);
        }
      }
      forall r ensures RoomFiled(s', r) {
        assert RoomFiled(s, r);
      }
    }
  }

  /** A step that only replaces the room `rid` by one with the same id,
      the same users and its entities still filed under their ids keeps the
      agreement. */
  lemma {:induction false} SameUsersKeepsConsistent(s: ServerData, s': ServerData, rid: Id)
    requires Consistent(s) && rid in s.classrooms && OnlyRoomChanged(s, s', rid)
    requires s'.classrooms[rid].users == s.classrooms[rid].users
    requires s'.classrooms[rid].id == rid && s'.classrooms[rid].KeyedById()
    ensures Consistent(s')
  {
    forall c ensures SessionListed(s', c) {
      assert SessionListed(s, c);
    }
    forall r, u ensures UserHasSession(s', r, u) {
      assert UserHasSession(s, r, u);
    }
    forall r ensures RoomFiled(s', r) {
      assert RoomFiled(s, r);
    }
  }

  /** Every event keeps the agreement, provided a connection that already
      has a session does not join again (the browser joins once per
      connection). */
  lemma {:induction false} StepKeepsConsistent(s: ServerData, conn: Id, ev: ClientEvent, env: Env)
    requires Consistent(s)
    requires ev.JoinClassroom? ==> conn !in s.userSessions
    ensures Consistent(Step(s, conn, ev, env).next)
  {
    match ev
    case JoinClassroom(rid, userName) =>
      JoinKeepsConsistent(s, conn, rid, userName, env);
    case Disconnect =>
      DisconnectKeepsConsistent(s, conn);
    case _ =>
      if conn in s.userSessions {
        var rid := s.userSessions[conn].classroomId;
        assert RoomFiled(s, rid);
        SameUsersKeepsConsistent(s, Step(s, conn, ev, env).next, rid);
      }
  }

  /** Why the join-once proviso is needed: a connection that joins a second
      room keeps its entry in the first, whose session is gone. */
  lemma {:induction false} RejoinLeavesStalePresence(env: Env)
    ensures
      var s0 := AddRoom(AddRoom(ServerData(map[], map[]), "a", "A"), "b", "B");
      var s1 := Step(s0, "c", JoinClassroom("a", "Ann"), env).next;
      var s2 := Step(s1, "c", JoinClassroom("b", "Ann"), env).next;
      && Consistent(s1)
      && "c" in s2.classrooms["a"].users.vals
      && s2.userSessions["c"].classroomId == "b"
      && !Consistent(s2)
  {
    var empty := ServerData(map[], map[]);
    var s0 := AddRoom(AddRoom(empty, "a", "A"), "b", "B");
    ServerStartsConsistent();
    AddRoomKeepsConsistent(empty, "a", "A");
    AddRoomKeepsConsistent(AddRoom(empty, "a", "A"), "b", "B");
    assert "a" in s0.classrooms && "b" in s0.classrooms && "c" !in s0.userSessions;
    var s1 := OnJoin(s0, "c", "a", "Ann", env).next;
    JoinKeepsConsistent(s0, "c", "a", "Ann", env);
    assert Get(s1.classrooms["a"].users, "c").Some?;
    var s2 := OnJoin(s1, "c", "b", "Ann", env).next;
    assert s2.classrooms["a"] == s1.classrooms["a"];
    assert s2.userSessions["c"].classroomId == "b";
    assert !UserHasSession(s2, "a", "c");
  }
}

/** What the browser's poll components and the server do together: the
    event the form emits becomes a poll of the room, and the vote a card
    emits is recorded under the voter's connection. */
module EndToEnd {
  import opened Wire
  import opened JsMap
  import opened Rooms
  import opened SocketServer
  import opened PollManager
  import opened PollCard

  /** A `create-poll` the form lets through, from a member of a room, files
      a poll under the fresh id with the question as typed, the non-blank
      options in order, at least two of them, and no votes yet. */
  lemma {:induction false} FormPollIsFiled(s: ServerData, conn: Id, question: string, options: seq<string>, env: Env)
    requires SessionsResolve(s) && conn in s.userSessions
    requires CreatePollRequest(question, options).Some?
    ensures var t := Step(s, conn, CreatePollRequest(question, options).value, env);
      var rid := s.userSessions[conn].classroomId;
      && env.freshId in t.next.classrooms[rid].polls.vals
      && var p := t.next.classrooms[rid].polls.vals[env.freshId];
      && p.question == question && p.options == ValidOptions(options)
      && |p.options| >= 2 && (forall i | 0 <= i < |p.options| :: !IsBlank(p.options[i]))
      && TotalVotes(p) == 0 && VotesInRange(p)
  {
    var ev := CreatePollRequest(question, options).value;
    var valid := ValidOptions(options);
    assert ev == CreatePoll(question, valid);
    var rid := s.userSessions[conn].classroomId;
    var t := OnCreatePoll(s, conn, question, valid, env);
    StepCreatePoll(s, conn, question, valid, env);
    var p := t.out[0].msg.poll;
    assert Get(t.next.classrooms[rid].polls, env.freshId) == Some(p);
  }

  /** A card's vote for one of the poll's options, from a member of the
      poll's room, is stored under the member's connection; a poll whose
      stored choices all named options keeps that property, so its
      per-option counts still add up to its total. */
  lemma {:induction false} CardVoteIsRecorded(s: ServerData, conn: Id, pollId: Id, index: nat, env: Env)
    requires SessionsResolve(s) && conn in s.userSessions
    requires pollId in s.classrooms[s.userSessions[conn].classroomId].polls.vals
    requires index < |s.classrooms[s.userSessions[conn].classroomId].polls.vals[pollId].options|
    ensures var rid := s.userSessions[conn].classroomId;
      var p := s.classrooms[rid].polls.vals[pollId];
      var t := Step(s, conn, VotePoll(pollId, index), env);
      && pollId in t.next.classrooms[rid].polls.vals
      && var p' := t.next.classrooms[rid].polls.vals[pollId];
      && p'.responses[conn] == index
      && TotalVotes(p') == TotalVotes(p) + (if conn in p.responses then 0 else 1)
      && (VotesInRange(p) ==> VotesInRange(p') && ShownVotes(p', |p'.options|) == TotalVotes(p'))
  {
    var rid := s.userSessions[conn].classroomId;
    var p := s.classrooms[rid].polls.vals[pollId];
    var (room', updated) := s.classrooms[rid].AddPollResponse(pollId, conn, index, env.now);
    var p' := updated.value;
    StepVotePoll(s, conn, pollId, index, env);
    assert OnVotePoll(s, conn, pollId, index, env).next.classrooms[rid] == room';
    assert Get(room'.polls, pollId) == Some(p');
    if conn in p.responses {
      assert p'.responses.Keys == p.responses.Keys;
    } else {
      assert |p.responses.Keys + {conn}| == |p.responses.Keys| + 1;
    }
    if VotesInRange(p) {
      assert VotesInRange(p');
      TallyAddsUp(p');
    }
  }
}

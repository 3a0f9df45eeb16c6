/** The browser's copy of a room: the lists of notes, polls and users the
    classroom view keeps, and how each server message updates them.  Every
    handler is a function from the previous lists to the next ones. */
module ClassroomView {
  import opened Wire
  import opened Seqs

  datatype View = View(notes: seq<Note>, polls: seq<Poll>, users: seq<User>)

  function NoteId(n: Note): Id { n.id }
  function PollId(p: Poll): Id { p.id }
  function UserId(u: User): Id { u.userId }

  /** `prev.map(x => id(x) === id(y) ? y : x)` */
  function ReplaceById<T>(xs: seq<T>, id: T -> Id, y: T): (r: seq<T>)
    ensures |r| == |xs|
    ensures forall i | 0 <= i < |xs| :: r[i] == if id(xs[i]) == id(y) then y else xs[i]
  {
    seq(|xs|, i requires 0 <= i < |xs| => if id(xs[i]) == id(y) then y else xs[i])
  }

  /** `prev.filter(x => id(x) !== k)` */
  function RemoveById<T(==)>(xs: seq<T>, id: T -> Id, k: Id): (r: seq<T>)
    ensures |r| <= |xs|
  {
    if xs == [] then []
    else if id(xs[0]) == k then RemoveById(xs[1..], id, k)
    else [xs[0]] + RemoveById(xs[1..], id, k)
  }

  /** What the filter keeps: every kept element is in the input with a
      different id, and every element of the input with a different id is
      kept. */
  lemma {:induction false} RemoveByIdKeeps<T>(xs: seq<T>, id: T -> Id, k: Id)
    ensures forall i | 0 <= i < |RemoveById(xs, id, k)| ::
      id(RemoveById(xs, id, k)[i]) != k && RemoveById(xs, id, k)[i] in xs
    ensures forall i | 0 <= i < |xs| && id(xs[i]) != k :: xs[i] in RemoveById(xs, id, k)
  {
    if xs != [] {
      RemoveByIdKeeps(xs[1..], id, k);
      var rest := RemoveById(xs[1..], id, k);
      assert forall x | x in xs[1..] :: x in xs;
      if id(xs[0]) != k {
        assert RemoveById(xs, id, k) == [xs[0]] + rest;
      }
      forall i | 1 <= i < |xs| && id(xs[i]) != k ensures xs[i] in rest {
        assert xs[i] == xs[1..][i - 1];
      }
    }
  }

  /** Filtering distributes over concatenation, so the elements that stay
      keep their relative order. */
  lemma {:induction false} RemoveByIdAppend<T>(a: seq<T>, b: seq<T>, id: T -> Id, k: Id)
    ensures RemoveById(a + b, id, k) == RemoveById(a, id, k) + RemoveById(b, id, k)
  {
    if a != [] {
      assert (a + b)[1..] == a[1..] + b;
      RemoveByIdAppend(a[1..], b, id, k);
    } else {
      assert a + b == b;
    }
  }

  /** Filtering out an id no element carries changes nothing. */
  lemma {:induction false} RemoveByIdAbsent<T>(xs: seq<T>, id: T -> Id, k: Id)
    ensures (forall i | 0 <= i < |xs| :: id(xs[i]) != k) ==> RemoveById(xs, id, k) == xs
  {
    if xs != [] {
      RemoveByIdAbsent(xs[1..], id, k);
      if forall i | 0 <= i < |xs| :: id(xs[i]) != k {
        assert forall i | 0 <= i < |xs[1..]| :: id(xs[1..][i]) != k by {
          forall i | 0 <= i < |xs[1..]| ensures id(xs[1..][i]) != k {
            assert xs[1..][i] == xs[i + 1];
          }
        }
      }
    }
  }

  /** The elements that stay appear in the input, in the same order. */
  lemma {:induction false} RemoveByIdSubsequence<T>(xs: seq<T>, id: T -> Id, k: Id)
    ensures IsSubsequence(RemoveById(xs, id, k), xs)
  {
    if xs != [] {
      RemoveByIdSubsequence(xs[1..], id, k);
      var r := RemoveById(xs, id, k);
      if id(xs[0]) == k {
        SubsequenceSkip(r, xs);
      } else {
        assert r[1..] == RemoveById(xs[1..], id, k);
      }
    }
  }

  /** `classroom-state`: the three lists are replaced by the received ones,
      whatever the view held before. */
  function OnClassroomState(v: View, notes: seq<Note>, polls: seq<Poll>, users: seq<User>): (v': View)
    ensures v'.notes == notes && v'.polls == polls && v'.users == users
  {
    View(notes, polls, users)
  }

  /** `note-added`: the note goes at the end, the earlier ones stay put. */
  function OnNoteAdded(v: View, note: Note): (v': View)
    ensures |v'.notes| == |v.notes| + 1
    ensures v'.notes[..|v.notes|] == v.notes && v'.notes[|v.notes|] == note
    ensures v'.polls == v.polls && v'.users == v.users
  {
    v.(notes := v.notes + [note])
  }

  /** `note-updated`: every note with the update's id is replaced. */
  function OnNoteUpdated(v: View, note: Note): View {
    v.(notes := ReplaceById(v.notes, NoteId, note))
  }

  /** Every note with the update's id becomes the update, every other note
      is untouched, and nothing but the notes changes. */
  lemma NoteUpdatedReplaces(v: View, note: Note)
    ensures var v' := OnNoteUpdated(v, note);
      && |v'.notes| == |v.notes|
      && (forall i | 0 <= i < |v.notes| && v.notes[i].id == note.id :: v'.notes[i] == note)
      && (forall i | 0 <= i < |v.notes| && v.notes[i].id != note.id :: v'.notes[i] == v.notes[i])
      && v'.polls == v.polls && v'.users == v.users
  {
  }

  /** `note-deleted`: every note with the id is filtered out. */
  function OnNoteDeleted(v: View, noteId: Id): View {
    v.(notes := RemoveById(v.notes, NoteId, noteId))
  }

  /** No note with the id is left; the others stay, in their order; for an
      id no note has, the list is unchanged. */
  lemma NoteDeletedRemoves(v: View, noteId: Id)
    ensures var v' := OnNoteDeleted(v, noteId);
      && (forall i | 0 <= i < |v'.notes| :: v'.notes[i].id != noteId)
      && (forall i | 0 <= i < |v.notes| && v.notes[i].id != noteId :: v.notes[i] in v'.notes)
      && IsSubsequence(v'.notes, v.notes)
      && ((forall i | 0 <= i < |v.notes| :: v.notes[i].id != noteId) ==> v'.notes == v.notes)
      && v'.polls == v.polls && v'.users == v.users
  {
    RemoveByIdKeeps(v.notes, NoteId, noteId);
    RemoveByIdSubsequence(v.notes, NoteId, noteId);
    RemoveByIdAbsent(v.notes, NoteId, noteId);
  }

  /** `poll-created`: as `note-added`, for polls. */
  function OnPollCreated(v: View, poll: Poll): (v': View)
    ensures |v'.polls| == |v.polls| + 1
    ensures v'.polls[..|v.polls|] == v.polls && v'.polls[|v.polls|] == poll
    ensures v'.notes == v.notes && v'.users == v.users
  {
    v.(polls := v.polls + [poll])
  }

  /** `poll-updated`: as `note-updated`, for polls. */
  function OnPollUpdated(v: View, poll: Poll): View {
    v.(polls := ReplaceById(v.polls, PollId, poll))
  }

  lemma PollUpdatedReplaces(v: View, poll: Poll)
    ensures var v' := OnPollUpdated(v, poll);
      && |v'.polls| == |v.polls|
      && (forall i | 0 <= i < |v.polls| && v.polls[i].id == poll.id :: v'.polls[i] == poll)
      && (forall i | 0 <= i < |v.polls| && v.polls[i].id != poll.id :: v'.polls[i] == v.polls[i])
      && v'.notes == v.notes && v'.users == v.users
  {
  }

  /** `poll-deleted`: as `note-deleted`, for polls. */
  function OnPollDeleted(v: View, pollId: Id): View {
    v.(polls := RemoveById(v.polls, PollId, pollId))
  }

  lemma PollDeletedRemoves(v: View, pollId: Id)
    ensures var v' := OnPollDeleted(v, pollId);
      && (forall i | 0 <= i < |v'.polls| :: v'.polls[i].id != pollId)
      && (forall i | 0 <= i < |v.polls| && v.polls[i].id != pollId :: v.polls[i] in v'.polls)
      && IsSubsequence(v'.polls, v.polls)
      && ((forall i | 0 <= i < |v.polls| :: v.polls[i].id != pollId) ==> v'.polls == v.polls)
      && v'.notes == v.notes && v'.users == v.users
  {
    RemoveByIdKeeps(v.polls, PollId, pollId);
    RemoveByIdSubsequence(v.polls, PollId, pollId);
    RemoveByIdAbsent(v.polls, PollId, pollId);
  }

  /** `user-joined`: any earlier entry for the connection is dropped and a
      new one, without `joinedAt`, goes at the end. */
  function OnUserJoined(v: View, userId: Id, userName: string, color: string): View {
    v.(users := RemoveById(v.users, UserId, userId) + [User(userId, userName, color, Undefined)])
  }

  /** Exactly one entry carries the joiner's id, the last one; every other
      user stays, in relative order. */
  lemma UserJoinedReplacesEntry(v: View, userId: Id, userName: string, color: string)
    ensures var v' := OnUserJoined(v, userId, userName, color);
      && |v'.users| >= 1 && v'.users[|v'.users| - 1] == User(userId, userName, color, Undefined)
      && (forall i | 0 <= i < |v'.users| - 1 :: v'.users[i].userId != userId)
      && IsSubsequence(v'.users[..|v'.users| - 1], v.users)
      && (forall i | 0 <= i < |v.users| && v.users[i].userId != userId :: v.users[i] in v'.users)
      && v'.notes == v.notes && v'.polls == v.polls
  {
    var others := RemoveById(v.users, UserId, userId);
    RemoveByIdKeeps(v.users, UserId, userId);
    RemoveByIdSubsequence(v.users, UserId, userId);
    var r := OnUserJoined(v, userId, userName, color).users;
    assert r[..|r| - 1] == others;
    assert forall u | u in others :: u in r;
  }

  /** `user-left`: every entry for the connection is filtered out. */
  function OnUserLeft(v: View, userId: Id): View {
    v.(users := RemoveById(v.users, UserId, userId))
  }

  /** No entry for the connection is left; the others stay, in order. */
  lemma UserLeftRemoves(v: View, userId: Id)
    ensures var v' := OnUserLeft(v, userId);
      && (forall i | 0 <= i < |v'.users| :: v'.users[i].userId != userId)
      && (forall i | 0 <= i < |v.users| && v.users[i].userId != userId :: v.users[i] in v'.users)
      && IsSubsequence(v'.users, v.users)
      && v'.notes == v.notes && v'.polls == v.polls
  {
    RemoveByIdKeeps(v.users, UserId, userId);
    RemoveByIdSubsequence(v.users, UserId, userId);
  }

  /** Applying `user-left` twice is applying it once. */
  lemma UserLeftIdempotent(v: View, userId: Id)
    ensures OnUserLeft(OnUserLeft(v, userId), userId) == OnUserLeft(v, userId)
  {
    RemoveByIdKeeps(v.users, UserId, userId);
    RemoveByIdAbsent(OnUserLeft(v, userId).users, UserId, userId);
  }

  /** Applying `note-deleted` twice is applying it once. */
  lemma NoteDeletedIdempotent(v: View, noteId: Id)
    ensures OnNoteDeleted(OnNoteDeleted(v, noteId), noteId) == OnNoteDeleted(v, noteId)
  {
    RemoveByIdKeeps(v.notes, NoteId, noteId);
    RemoveByIdAbsent(OnNoteDeleted(v, noteId).notes, NoteId, noteId);
  }

  /** The handler the view has registered for a message; the view has none
      for `error`, which leaves it unchanged. */
  function Receive(v: View, m: ServerMessage): View {
    match m
    case Error(_) => v
    case ClassroomState(notes, polls, users) => OnClassroomState(v, notes, polls, users)
    case UserJoined(userId, userName, color, _) => OnUserJoined(v, userId, userName, color)
    case UserLeft(userId, _, _) => OnUserLeft(v, userId)
    case NoteAdded(note) => OnNoteAdded(v, note)
    case NoteUpdated(note) => OnNoteUpdated(v, note)
    case NoteDeleted(noteId) => OnNoteDeleted(v, noteId)
    case PollCreated(poll) => OnPollCreated(v, poll)
    case PollUpdated(poll) => OnPollUpdated(v, poll)
    case PollDeleted(pollId) => OnPollDeleted(v, pollId)
  }
}

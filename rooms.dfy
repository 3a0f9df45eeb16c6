/** The `Classroom` aggregate of the server: one room's notes, polls and
    present users, each a JavaScript `Map`.  `RoomData` is the value a room
    holds at one moment and its member functions say what each operation of
    the class does to it; the class `Classroom` below performs the same
    operations in place and is proved to agree with them. */
module Rooms {
  import opened Wire
  import opened JsMap

  datatype RoomData = RoomData(
    id: Id,
    name: string,
    notes: JsMap<Note>,
    polls: JsMap<Poll>,
    users: JsMap<User>)
  {
    /** Notes and polls are filed under their own id, users under their
        connection id. */
    predicate KeyedById() {
      && (forall k | k in notes.vals :: notes.vals[k].id == k)
      && (forall k | k in polls.vals :: polls.vals[k].id == k)
      && (forall k | k in users.vals :: users.vals[k].userId == k)
    }

    /** `addNote(note)`: the note is filed under its id, nothing else moves. */
    function AddNote(note: Note): (r: RoomData)
      ensures Get(r.notes, note.id) == Some(note)
      ensures forall k :: k != note.id ==> Get(r.notes, k) == Get(notes, k)
      ensures r.polls == polls && r.users == users && r.id == id && r.name == name
      ensures KeyedById() ==> r.KeyedById()
    {
      this.(notes := Set(notes, note.id, note))
    }

    /** `updateNote(noteId, edit)` at clock reading `now`: a present note
        takes the four edited fields as given (even `undefined`) and the new
        `updatedAt`, keeps its identity, author and creation time, and keeps
        its position in the map; an absent id changes nothing and yields
        `None` (the source's `null`). */
    function UpdateNote(noteId: Id, edit: NoteEdit, now: int): (r: (RoomData, Option<Note>))
      ensures noteId !in notes.vals ==> r == (this, None)
      ensures noteId in notes.vals ==>
        var was := notes.vals[noteId];
        && r.1.Some?
        && Get(r.0.notes, noteId) == r.1
        && r.1.value.content == edit.content && r.1.value.x == edit.x
        && r.1.value.y == edit.y && r.1.value.color == edit.color
        && r.1.value.updatedAt == now
        && r.1.value.id == was.id && r.1.value.userId == was.userId
        && r.1.value.userName == was.userName && r.1.value.createdAt == was.createdAt
        && r.0.notes.keys == notes.keys
      ensures forall k :: k != noteId ==> Get(r.0.notes, k) == Get(notes, k)
      ensures r.0.polls == polls && r.0.users == users && r.0.id == id && r.0.name == name
      ensures KeyedById() ==> r.0.KeyedById()
    {
      match Get(notes, noteId)
      case None => (this, None)
      case Some(n) =>
        var n' := n.(content := edit.content, x := edit.x, y := edit.y,
                     color := edit.color, updatedAt := now);
        (this.(notes := Set(notes, noteId, n')), Some(n'))
    }

    /** `deleteNote(noteId)`: true exactly when the note was there; it is
        gone afterwards, and an absent id leaves the room as it was. */
    function DeleteNote(noteId: Id): (r: (RoomData, bool))
      ensures r.1 <==> noteId in notes.vals
      ensures noteId !in r.0.notes.vals
      ensures forall k :: k != noteId ==> Get(r.0.notes, k) == Get(notes, k)
      ensures !r.1 ==> r.0 == this
      ensures r.0.polls == polls && r.0.users == users && r.0.id == id && r.0.name == name
      ensures KeyedById() ==> r.0.KeyedById()
    {
      var (m, existed) := Delete(notes, noteId);
      (this.(notes := m), existed)
    }

    /** `createPoll(poll)`: the poll is filed under its id. */
    function CreatePoll(poll: Poll): (r: RoomData)
      ensures Get(r.polls, poll.id) == Some(poll)
      ensures forall k :: k != poll.id ==> Get(r.polls, k) == Get(polls, k)
      ensures r.notes == notes && r.users == users && r.id == id && r.name == name
      ensures KeyedById() ==> r.KeyedById()
    {
      this.(polls := Set(polls, poll.id, poll))
    }

    /** `addPollResponse(pollId, userId, optionId)` at clock reading `now`:
        the voter's entry is set to `optionId` whatever it was before and
        whatever the poll's options are, every other voter's entry stays,
        `updatedAt` becomes `now`; an absent poll yields `None` and changes
        nothing. */
    function AddPollResponse(pollId: Id, userId: Id, optionId: int, now: int): (r: (RoomData, Option<Poll>))
      ensures pollId !in polls.vals ==> r == (this, None)
      ensures pollId in polls.vals ==>
        var was := polls.vals[pollId];
        && r.1.Some?
        && Get(r.0.polls, pollId) == r.1
        && r.1.value.responses.Keys == was.responses.Keys + {userId}
        && r.1.value.responses[userId] == optionId
        && (forall u | u in was.responses && u != userId :: r.1.value.responses[u] == was.responses[u])
        && r.1.value.updatedAt == now
        && r.1.value.id == was.id && r.1.value.question == was.question
        && r.1.value.options == was.options && r.1.value.userId == was.userId
        && r.1.value.userName == was.userName && r.1.value.createdAt == was.createdAt
        && r.0.polls.keys == polls.keys
      ensures forall k :: k != pollId ==> Get(r.0.polls, k) == Get(polls, k)
      ensures r.0.notes == notes && r.0.users == users && r.0.id == id && r.0.name == name
      ensures KeyedById() ==> r.0.KeyedById()
    {
      match Get(polls, pollId)
      case None => (this, None)
      case Some(p) =>
        var p' := p.(responses := p.responses[userId := optionId], updatedAt := now);
        (this.(polls := Set(polls, pollId, p')), Some(p'))
    }

    /** `deletePoll(pollId)`: as `DeleteNote`, for polls. */
    function DeletePoll(pollId: Id): (r: (RoomData, bool))
      ensures r.1 <==> pollId in polls.vals
      ensures pollId !in r.0.polls.vals
      ensures forall k :: k != pollId ==> Get(r.0.polls, k) == Get(polls, k)
      ensures !r.1 ==> r.0 == this
      ensures r.0.notes == notes && r.0.users == users && r.0.id == id && r.0.name == name
      ensures KeyedById() ==> r.0.KeyedById()
    {
      var (m, existed) := Delete(polls, pollId);
      (this.(polls := m), existed)
    }

    /** `addUser(userId, userName, color)` at clock reading `now`: the new
        user record is filed under the connection id and returned. */
    function AddUser(userId: Id, userName: string, color: string, now: int): (r: (RoomData, User))
      ensures r.1 == User(userId, userName, color, Defined(now))
      ensures Get(r.0.users, userId) == Some(r.1)
      ensures forall k :: k != userId ==> Get(r.0.users, k) == Get(users, k)
      ensures r.0.notes == notes && r.0.polls == polls && r.0.id == id && r.0.name == name
      ensures KeyedById() ==> r.0.KeyedById()
    {
      var u := User(userId, userName, color, Defined(now));
      (this.(users := Set(users, userId, u)), u)
    }

    /** `removeUser(userId)`: true exactly when the user was present. */
    function RemoveUser(userId: Id): (r: (RoomData, bool))
      ensures r.1 <==> userId in users.vals
      ensures userId !in r.0.users.vals
      ensures forall k :: k != userId ==> Get(r.0.users, k) == Get(users, k)
      ensures !r.1 ==> r.0 == this
      ensures r.0.notes == notes && r.0.polls == polls && r.0.id == id && r.0.name == name
      ensures KeyedById() ==> r.0.KeyedById()
    {
      var (m, existed) := Delete(users, userId);
      (this.(users := m), existed)
    }
  }

  /** `new Classroom(id, name)`: a room with no notes, polls or users. */
  function NewRoom(id: Id, name: string): (r: RoomData)
    ensures r.id == id && r.name == name
    ensures r.notes.keys == [] && r.polls.keys == [] && r.users.keys == []
    ensures r.notes.vals == map[] && r.polls.vals == map[] && r.users.vals == map[]
    ensures r.KeyedById()
  {
    RoomData(id, name, Empty(), Empty(), Empty())
  }

  /** The class itself: its three maps are fields that each method
      reassigns; `Data()` is what the room holds. */
  class Classroom {
    const id: Id
    const name: string
    var notes: JsMap<Note>
    var polls: JsMap<Poll>
    var users: JsMap<User>

    function Data(): RoomData
      reads this
    {
      RoomData(id, name, notes, polls, users)
    }

    constructor (id: Id, name: string)
      ensures Data() == NewRoom(id, name)
    {
      this.id := id;
      this.name := name;
      notes := Empty();
      polls := Empty();
      users := Empty();
    }

    method AddNote(note: Note) returns (r: Note)
      modifies this
      ensures Data() == old(Data()).AddNote(note)
      ensures r == note
    {
      notes := Set(notes, note.id, note);
      r := note;
    }

    method UpdateNote(noteId: Id, edit: NoteEdit, now: int) returns (r: Option<Note>)
      modifies this
      ensures (Data(), r) == old(Data()).UpdateNote(noteId, edit, now)
    {
      var found := Get(notes, noteId);
      if found.Some? {
        var n := found.value.(content := edit.content, x := edit.x, y := edit.y,
                              color := edit.color, updatedAt := now);
        notes := Set(notes, noteId, n);
        r := Some(n);
      } else {
        r := None;
      }
    }

    method DeleteNote(noteId: Id) returns (existed: bool)
      modifies this
      ensures (Data(), existed) == old(Data()).DeleteNote(noteId)
    {
      var m;
      m, existed := Delete(notes, noteId).0, Delete(notes, noteId).1;
      notes := m;
    }

    method CreatePoll(poll: Poll) returns (r: Poll)
      modifies this
      ensures Data() == old(Data()).CreatePoll(poll)
      ensures r == poll
    {
      polls := Set(polls, poll.id, poll);
      r := poll;
    }

    method AddPollResponse(pollId: Id, userId: Id, optionId: int, now: int) returns (r: Option<Poll>)
      modifies this
      ensures (Data(), r) == old(Data()).AddPollResponse(pollId, userId, optionId, now)
    {
      var found := Get(polls, pollId);
      if found.Some? {
        var p := found.value.(responses := found.value.responses[userId := optionId], updatedAt := now);
        polls := Set(polls, pollId, p);
        r := Some(p);
      } else {
        r := None;
      }
    }

    method DeletePoll(pollId: Id) returns (existed: bool)
      modifies this
      ensures (Data(), existed) == old(Data()).DeletePoll(pollId)
    {
      var m;
      m, existed := Delete(polls, pollId).0, Delete(polls, pollId).1;
      polls := m;
    }

    method AddUser(userId: Id, userName: string, color: string, now: int) returns (u: User)
      modifies this
      ensures (Data(), u) == old(Data()).AddUser(userId, userName, color, now)
    {
      u := User(userId, userName, color, Defined(now));
      users := Set(users, userId, u);
    }

    method RemoveUser(userId: Id) returns (existed: bool)
      modifies this
      ensures (Data(), existed) == old(Data()).RemoveUser(userId)
    {
      var m;
      m, existed := Delete(users, userId).0, Delete(users, userId).1;
      users := m;
    }
  }
}

/** The entities the classroom server stores and the events that travel
    between a browser and the server, as plain values. */
module Wire {

  /** uuid v4 strings (room, note and poll ids) and socket connection ids. */
  type Id = string

  /** A property of a JavaScript object that may be `undefined`: the server
      copies event fields into notes without checking that they were sent. */
  datatype Js<T> = Undefined | Defined(value: T)

  /** A sticky note; `userId`/`userName` are its author. */
  datatype Note = Note(
    id: Id,
    content: Js<string>,
    color: Js<string>,
    userId: Id,
    userName: string,
    x: Js<real>,
    y: Js<real>,
    createdAt: int,
    updatedAt: int)

  /** A poll; `responses` maps a voter's connection id to the option index
      it last chose (the JavaScript object `responses`). */
  datatype Poll = Poll(
    id: Id,
    question: string,
    options: seq<string>,
    userId: Id,
    userName: string,
    responses: map<Id, int>,
    createdAt: int,
    updatedAt: int)

  /** A present user.  The server always sets `joinedAt`; the entries a
      browser builds from a `user-joined` message have none. */
  datatype User = User(userId: Id, userName: string, color: string, joinedAt: Js<int>)

  /** The binding of a connection to the room it joined. */
  datatype Session = Session(classroomId: Id, userName: string)

  /** The field edits an `update-note` event carries. */
  datatype NoteEdit = NoteEdit(content: Js<string>, x: Js<real>, y: Js<real>, color: Js<string>)

  /** Events a browser sends to the server over its connection. */
  datatype ClientEvent =
    | JoinClassroom(classroomId: Id, userName: string)
    | AddNote(content: Js<string>, color: Js<string>, x: Js<real>, y: Js<real>)
    | UpdateNote(noteId: Id, edit: NoteEdit)
    | DeleteNote(noteId: Id)
    | CreatePoll(question: string, options: seq<string>)
    | VotePoll(pollId: Id, optionId: int)
    | DeletePoll(pollId: Id)
    | Disconnect

  /** Events the server sends to browsers. */
  datatype ServerMessage =
    | Error(message: string)
    | ClassroomState(notes: seq<Note>, polls: seq<Poll>, users: seq<User>)
    | UserJoined(userId: Id, userName: string, color: string, userCount: nat)
    | UserLeft(userId: Id, userName: string, userCount: nat)
    | NoteAdded(note: Note)
    | NoteUpdated(note: Note)
    | NoteDeleted(noteId: Id)
    | PollCreated(poll: Poll)
    | PollUpdated(poll: Poll)
    | PollDeleted(pollId: Id)

  /** Who receives a message: the connection that sent the event, or every
      connection in the socket group of a room. */
  datatype Target = ToSender | ToRoom(classroomId: Id)

  datatype Outbound = Outbound(target: Target, msg: ServerMessage)
}

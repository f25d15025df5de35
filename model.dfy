/** The values the matchmaking engine works on: users waiting in a queue,
    two-party rooms, the events it delivers to connections, and a snapshot
    of its whole state. */
module Model {

  /** A transport session identifier (the socket id); the join key used everywhere. */
  type ConnId = string

  /** The key of a room in the room registry. */
  type RoomId = string

  /** A client-supplied value (chat text, SDP offer or answer, ICE candidate)
      that the engine forwards without looking inside. */
  type Payload = string

  /** The mode a client asks for. The engine never validates it: `Other`
      stands for every value that is neither "text" nor "video". */
  datatype Mode = Text | Video | Other

  /** A waiting or matched user: the client-supplied id and display name,
      its connection and the mode it asked for. */
  datatype User = User(id: string, name: string, socketId: ConnId, mode: Mode)

  /** A room as stored in the registry; `users` is `[joiner, match]` when created. */
  datatype Room = Room(id: RoomId, mode: Mode, users: seq<User>)

  /** The named events the engine delivers, with their payloads. */
  datatype Event =
    | Matched(roomId: RoomId, otherId: string, otherName: string)
    | Message(text: Payload, from: string)
    | Typing
    | CallOffer(offerFrom: ConnId, offer: Payload)
    | CallAnswer(answerFrom: ConnId, answer: Payload)
    | IceCandidate(candidateFrom: ConnId, candidate: Payload)
    | PeerWantsFindNew
    | CallEnded
    | UserDisconnected
    | PeerDisconnected

  /** One delivery of an event to one connection. */
  datatype Emit = Emit(to: ConnId, event: Event)

  /** The engine's whole state: the two waiting queues, the room registry as
      its entries in insertion order (the iteration order of a JavaScript Map),
      and every event delivered so far. */
  datatype State = State(textQueue: seq<User>, videoQueue: seq<User>, rooms: seq<Room>, outbox: seq<Emit>)

  datatype Option<T> = None | Some(value: T)

  /** The random source of the shuffle: at step `i` the swap partner is
      `rng(i) % (i + 1)`, so every index in `[0, i]` can be drawn. */
  type Rng = nat -> nat
}

/** What each operation of the engine does to the whole state, as functions
    from the state before to the state after. The engine class implements
    exactly these; the properties of the protocol are proved about them. */
module Protocol {
  import opened Model
  import opened Queues
  import opened Rooms

  /** `mode === "text" ? textQueue : videoQueue`: every mode other than
      "text" selects the video queue. */
  function QueueFor(st: State, m: Mode): (q': seq<User>)
  {
    if m == Text then st.textQueue else st.videoQueue
  }

  /** The mode whose queue is the one `QueueFor` does not select. */
  function Opposite(m: Mode): (o: Mode)
  {
    if m == Text then Video else Text
  }

  /** Replaces the queue that `QueueFor(st, m)` selects. */
  function WithQueue(st: State, m: Mode, q: seq<User>): (st': State)
  {
    if m == Text then st.(textQueue := q) else st.(videoQueue := q)
  }

  /** Appends deliveries to the outbox. */
  function Send(st: State, es: seq<Emit>): (st': State)
  {
    st.(outbox := st.outbox + es)
  }

  /** `getUserFromQueue`: the text queue's entry for `s`, else the video queue's. */
  function UserFromQueue(st: State, s: ConnId): (found: Option<User>)
  {
    var i := IndexOf(st.textQueue, s);
    if i >= 0 then Some(st.textQueue[i])
    else
      var j := IndexOf(st.videoQueue, s);
      if j >= 0 then Some(st.videoQueue[j]) else None
  }

  /** An occupant record together with the id of the room it was found in. */
  datatype Located = Located(user: User, roomId: RoomId)

  /** `getUserBySocketId`: the record of `s` in the first room hosting it. */
  function UserBySocketId(st: State, s: ConnId): (found: Option<Located>)
  {
    var k := FirstRoom(st.rooms, s, false);
    if k < 0 then None else Some(Located(OccupantOf(st.rooms[k], s), st.rooms[k].id))
  }

  /** `activeRooms.get(roomId)?.users.find(u => u.socketId !== s)`. */
  function PeerInRoom(st: State, roomId: RoomId, s: ConnId): (found: Option<User>)
  {
    var j := KeyIndex(st.rooms, roomId);
    if j < 0 then None else PeerOf(st.rooms[j], s)
  }

  /** `removeFromQueues(s)`: the first entry of `s` leaves each queue. */
  function RemoveFromQueues(st: State, s: ConnId): (st': State)
  {
    st.(textQueue := RemoveConn(st.textQueue, s), videoQueue := RemoveConn(st.videoQueue, s))
  }

  /** `leaveRoom(s, requeue)`: the first room hosting `s` is torn down; every
      other occupant gets `user-disconnected` then `peer-disconnected`; with
      `requeue`, every occupant (`s` included) is pushed onto the queue of the
      room's mode unless already there. */
  function LeaveRoom(st: State, s: ConnId, requeue: bool): (st': State)
  {
    var k := FirstRoom(st.rooms, s, false);
    if k < 0 then st
    else
      var room := st.rooms[k];
      var st1 := Send(st, ToOthers(room.users, s, [UserDisconnected, PeerDisconnected]));
      var st2 := if requeue then WithQueue(st1, room.mode, AddAbsent(QueueFor(st1, room.mode), room.users)) else st1;
      st2.(rooms := Delete(st2.rooms, room.id))
  }

  /** The state `leaveRoom` leaves for a seated connection, field by field. */
  lemma LeaveRoomShape(st: State, s: ConnId, requeue: bool)
    requires FirstRoom(st.rooms, s, false) >= 0
    ensures var room := st.rooms[FirstRoom(st.rooms, s, false)];
            var st' := LeaveRoom(st, s, requeue);
            && st'.rooms == Delete(st.rooms, room.id)
            && st'.outbox == st.outbox + ToOthers(room.users, s, [UserDisconnected, PeerDisconnected])
            && QueueFor(st', room.mode) == (if requeue then AddAbsent(QueueFor(st, room.mode), room.users) else QueueFor(st, room.mode))
            && QueueFor(st', Opposite(room.mode)) == QueueFor(st, Opposite(room.mode))
  {
    var room := st.rooms[FirstRoom(st.rooms, s, false)];
    var st1 := Send(st, ToOthers(room.users, s, [UserDisconnected, PeerDisconnected]));
    var q := AddAbsent(QueueFor(st, room.mode), room.users);
    var st2 := if requeue then WithQueue(st1, room.mode, q) else st1;
    assert LeaveRoom(st, s, requeue) == st2.(rooms := Delete(st2.rooms, room.id));
    assert QueueFor(st2, room.mode) == (if requeue then q else QueueFor(st, room.mode));
  }

  /** The `matched` pair sent when `u` and `m` get room `rid`: each side
      learns the other's id and name. */
  function MatchedPair(rid: RoomId, u: User, m: User): (out: seq<Emit>)
  {
    [Emit(u.socketId, Matched(rid, m.id, m.name)), Emit(m.socketId, Matched(rid, u.id, u.name))]
  }

  /** The block that join-queue, proceedToFindNew and find-new share:
      `findMatch` on the queue of `u`'s mode; on a match, room `rid` of that
      mode holding `[u, match]` is set and both sides get `matched`. */
  function Matchmake(st: State, u: User, rng: Rng, rid: RoomId): (st': State)
  {
    var r := MatchOutcome(QueueFor(st, u.mode), u, rng);
    var st1 := WithQueue(st, u.mode, r.queue);
    if r.found.None? then st1
    else
      var m := r.found.value;
      Send(st1.(rooms := Put(st1.rooms, Room(rid, u.mode, [u, m]))), MatchedPair(rid, u, m))
  }

  /** The state the matchmaking block leaves, field by field. */
  lemma MatchmakeShape(st: State, u: User, rng: Rng, rid: RoomId)
    ensures var r := MatchOutcome(QueueFor(st, u.mode), u, rng);
            var st' := Matchmake(st, u, rng, rid);
            && QueueFor(st', u.mode) == r.queue
            && QueueFor(st', Opposite(u.mode)) == QueueFor(st, Opposite(u.mode))
            && (r.found.None? ==> st'.rooms == st.rooms && st'.outbox == st.outbox)
            && (r.found.Some? ==>
                  && st'.rooms == Put(st.rooms, Room(rid, u.mode, [u, r.found.value]))
                  && st'.outbox == st.outbox + MatchedPair(rid, u, r.found.value))
  {
  }

  /** `join-queue {userId, userName, mode}` from connection `s`. */
  function OnJoinQueue(st: State, s: ConnId, userId: string, userName: string, mode: Mode, rng: Rng, rid: RoomId): (st': State)
  {
    Matchmake(RemoveFromQueues(st, s), User(userId, userName, s, mode), rng, rid)
  }

  /** The relay handlers: in the first room selected for `s`, `e` goes to
      every other occupant; nothing happens when no room is selected. */
  function Relay(st: State, s: ConnId, videoOnly: bool, e: Event): (st': State)
  {
    var k := FirstRoom(st.rooms, s, videoOnly);
    if k < 0 then st else Send(st, ToOthers(st.rooms[k].users, s, [e]))
  }

  /** `send-message {text}`: relayed with the sender's display name. */
  function OnSendMessage(st: State, s: ConnId, text: Payload): (st': State)
  {
    var k := FirstRoom(st.rooms, s, false);
    if k < 0 then st
    else
      var room := st.rooms[k];
      Send(st, ToOthers(room.users, s, [Message(text, OccupantOf(room, s).name)]))
  }

  /** `typing`. */
  function OnTyping(st: State, s: ConnId): (st': State)
  {
    Relay(st, s, false, Typing)
  }

  /** `call-offer {offer}`: only through a room whose mode is "video". */
  function OnCallOffer(st: State, s: ConnId, offer: Payload): (st': State)
  {
    Relay(st, s, true, CallOffer(s, offer))
  }

  /** `call-answer {answer}`: only through a room whose mode is "video". */
  function OnCallAnswer(st: State, s: ConnId, answer: Payload): (st': State)
  {
    Relay(st, s, true, CallAnswer(s, answer))
  }

  /** `ice-candidate {candidate}`. */
  function OnIceCandidate(st: State, s: ConnId, candidate: Payload): (st': State)
  {
    Relay(st, s, false, IceCandidate(s, candidate))
  }

  /** `proceedToFindNew`: for a connection still in a room, leave it (with
      requeue) and run the matchmaking block for its occupant record. */
  function ProceedToFindNew(st: State, s: ConnId, rng: Rng, rid: RoomId): (st': State)
  {
    match UserBySocketId(st, s)
    case None => st
    case Some(loc) => Matchmake(LeaveRoom(st, s, true), loc.user, rng, rid)
  }

  /** `peer-confirm-find-new`: tear down the sender's room and its peer's,
      then `proceedToFindNew` for both; the draws and room ids of the two
      calls are `rng1`, `rid1` and `rng2`, `rid2`. */
  function OnPeerConfirmFindNew(st: State, s: ConnId, rng1: Rng, rid1: RoomId, rng2: Rng, rid2: RoomId): (st': State)
  {
    match UserBySocketId(st, s)
    case None => st
    case Some(loc) =>
      var other := PeerInRoom(st, loc.roomId, s);
      var st1 := LeaveRoom(st, s, true);
      var st2 := if other.Some? then LeaveRoom(st1, other.value.socketId, true) else st1;
      var st3 := ProceedToFindNew(st2, s, rng1, rid1);
      if other.Some? then ProceedToFindNew(st3, other.value.socketId, rng2, rid2) else st3
  }

  /** `find-new`: from a room, only prompt the peer; from a queue, run the
      matchmaking block for the queued record; otherwise nothing. */
  function OnFindNew(st: State, s: ConnId, rng: Rng, rid: RoomId): (st': State)
  {
    match UserBySocketId(st, s)
    case None =>
      (match UserFromQueue(st, s)
       case None => st
       case Some(queued) => Matchmake(st, queued, rng, rid))
    case Some(loc) =>
      var other := PeerInRoom(st, loc.roomId, s);
      if other.Some? then Send(st, [Emit(other.value.socketId, PeerWantsFindNew)]) else st
  }

  /** `end-call`: `call-ended` to the other occupants, then `leaveRoom(s)`
      with its default requeue. */
  function OnEndCall(st: State, s: ConnId): (st': State)
  {
    var k := FirstRoom(st.rooms, s, false);
    var st1 := if k < 0 then st else Send(st, ToOthers(st.rooms[k].users, s, [CallEnded]));
    LeaveRoom(st1, s, true)
  }

  /** `disconnect`: `leaveRoom(s, true)`, then `removeFromQueues(s)`. */
  function OnDisconnect(st: State, s: ConnId): (st': State)
  {
    RemoveFromQueues(LeaveRoom(st, s, true), s)
  }
}

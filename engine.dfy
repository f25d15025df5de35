/** The engine as the server runs it: one object holding the two queues, the
    room registry and the outbox, with one method per helper and per socket
    event handler. Each method changes the fields step by step and ends in
    the state that the matching function of `Protocol` describes. */
module Server {
  import opened Model
  import opened Queues
  import opened Rooms
  import P = Protocol

  class Engine {
    var textQueue: seq<User>
    var videoQueue: seq<User>
    /** `activeRooms`: the Map's entries in insertion order. */
    var activeRooms: seq<Room>
    /** Every `emit` so far, in order. */
    var outbox: seq<Emit>

    /** The engine's state as a value. */
    function Abs(): (st': State)
      reads this
    {
      State(textQueue, videoQueue, activeRooms, outbox)
    }

    constructor ()
      ensures Abs() == State([], [], [], [])
    {
      textQueue, videoQueue, activeRooms, outbox := [], [], [], [];
    }

    /** `removeFromQueues(socketId)`. */
    method RemoveFromQueues(socketId: ConnId)
      modifies this
      ensures Abs() == P.RemoveFromQueues(old(Abs()), socketId)
    {
      var textIndex := IndexOf(textQueue, socketId);
      if textIndex != -1 {
        textQueue := RemoveAt(textQueue, textIndex);
      }
      var videoIndex := IndexOf(videoQueue, socketId);
      if videoIndex != -1 {
        videoQueue := RemoveAt(videoQueue, videoIndex);
      }
    }

    /** `users.forEach(u => { if (u.socketId !== s) emit es to u })`. */
    method NotifyOthers(users: seq<User>, s: ConnId, es: seq<Event>)
      modifies this
      ensures Abs() == P.Send(old(Abs()), ToOthers(users, s, es))
    {
      for i := 0 to |users|
        invariant textQueue == old(textQueue) && videoQueue == old(videoQueue)
        invariant activeRooms == old(activeRooms)
        invariant outbox == old(outbox) + ToOthers(users[..i], s, es)
      {
        ToOthersStep(users, i, s, es);
        if users[i].socketId != s {
          outbox := outbox + Deliver(users[i].socketId, es);
        }
      }
      assert users[..|users|] == users;
    }

    /** The requeue `forEach` of `leaveRoom`: each occupant is pushed onto the
        queue of `mode` unless that queue already has its connection. */
    method Requeue(users: seq<User>, mode: Mode)
      modifies this
      ensures Abs() == P.WithQueue(old(Abs()), mode, AddAbsent(P.QueueFor(old(Abs()), mode), users))
    {
      for i := 0 to |users|
        invariant activeRooms == old(activeRooms) && outbox == old(outbox)
        invariant mode == Text ==> videoQueue == old(videoQueue) && textQueue == AddAbsent(old(textQueue), users[..i])
        invariant mode != Text ==> textQueue == old(textQueue) && videoQueue == AddAbsent(old(videoQueue), users[..i])
      {
        AddAbsentStep(P.QueueFor(old(Abs()), mode), users, i);
        var user := users[i];
        if mode == Text {
          if user.socketId !in Sids(textQueue) {
            textQueue := textQueue + [user];
          }
        } else {
          if user.socketId !in Sids(videoQueue) {
            videoQueue := videoQueue + [user];
          }
        }
      }
      assert users[..|users|] == users;
    }

    /** `leaveRoom(socketId, requeue)`. */
    method LeaveRoom(socketId: ConnId, requeue: bool)
      modifies this
      ensures Abs() == P.LeaveRoom(old(Abs()), socketId, requeue)
    {
      var k := ScanRooms(activeRooms, socketId, false);
      if k >= 0 {
        var room := activeRooms[k];
        NotifyOthers(room.users, socketId, [UserDisconnected, PeerDisconnected]);
        if requeue {
          Requeue(room.users, room.mode);
        }
        activeRooms := Delete(activeRooms, room.id);
      }
    }

    /** The matchmaking block: `findMatch` on the queue of the user's mode and,
        on a match, a new room of that mode and `matched` to both sides. */
    method Matchmake(user: User, rng: Rng, roomId: RoomId)
      modifies this
      ensures Abs() == P.Matchmake(old(Abs()), user, rng, roomId)
    {
      var queue := if user.mode == Text then textQueue else videoQueue;
      var rest, found := FindMatch(queue, user, rng);
      if user.mode == Text {
        textQueue := rest;
      } else {
        videoQueue := rest;
      }
      if found.Some? {
        var m := found.value;
        activeRooms := Put(activeRooms, Room(roomId, user.mode, [user, m]));
        outbox := outbox + P.MatchedPair(roomId, user, m);
      }
    }

    /** `proceedToFindNew(socket)`. */
    method ProceedToFindNew(socketId: ConnId, rng: Rng, roomId: RoomId)
      modifies this
      ensures Abs() == P.ProceedToFindNew(old(Abs()), socketId, rng, roomId)
    {
      var loc := P.UserBySocketId(Abs(), socketId);
      if loc.None? {
        return;
      }
      LeaveRoom(socketId, true);
      Matchmake(loc.value.user, rng, roomId);
    }

    /** Handler of `join-queue {userId, userName, mode}`. */
    method OnJoinQueue(socketId: ConnId, userId: string, userName: string, mode: Mode, rng: Rng, roomId: RoomId)
      modifies this
      ensures Abs() == P.OnJoinQueue(old(Abs()), socketId, userId, userName, mode, rng, roomId)
    {
      var user := User(userId, userName, socketId, mode);
      RemoveFromQueues(socketId);
      Matchmake(user, rng, roomId);
    }

    /** The shared relay: scan for the sender's room and forward `e` to the
        other occupants. */
    method Relay(socketId: ConnId, videoOnly: bool, e: Event)
      modifies this
      ensures Abs() == P.Relay(old(Abs()), socketId, videoOnly, e)
    {
      var k := ScanRooms(activeRooms, socketId, videoOnly);
      if k >= 0 {
        NotifyOthers(activeRooms[k].users, socketId, [e]);
      }
    }

    /** Handler of `send-message {text}`. */
    method OnSendMessage(socketId: ConnId, text: Payload)
      modifies this
      ensures Abs() == P.OnSendMessage(old(Abs()), socketId, text)
    {
      var k := ScanRooms(activeRooms, socketId, false);
      if k >= 0 {
        var room := activeRooms[k];
        var userInRoom := OccupantOf(room, socketId);
        NotifyOthers(room.users, socketId, [Message(text, userInRoom.name)]);
      }
    }

    /** Handler of `typing`. */
    method OnTyping(socketId: ConnId)
      modifies this
      ensures Abs() == P.OnTyping(old(Abs()), socketId)
    {
      Relay(socketId, false, Typing);
    }

    /** Handler of `call-offer {offer}`. */
    method OnCallOffer(socketId: ConnId, offer: Payload)
      modifies this
      ensures Abs() == P.OnCallOffer(old(Abs()), socketId, offer)
    {
      Relay(socketId, true, CallOffer(socketId, offer));
    }

    /** Handler of `call-answer {answer}`. */
    method OnCallAnswer(socketId: ConnId, answer: Payload)
      modifies this
      ensures Abs() == P.OnCallAnswer(old(Abs()), socketId, answer)
    {
      Relay(socketId, true, CallAnswer(socketId, answer));
    }

    /** Handler of `ice-candidate {candidate}`. */
    method OnIceCandidate(socketId: ConnId, candidate: Payload)
      modifies this
      ensures Abs() == P.OnIceCandidate(old(Abs()), socketId, candidate)
    {
      Relay(socketId, false, IceCandidate(socketId, candidate));
    }

    /** Handler of `peer-confirm-find-new`. */
    method OnPeerConfirmFindNew(socketId: ConnId, rng1: Rng, roomId1: RoomId, rng2: Rng, roomId2: RoomId)
      modifies this
      ensures Abs() == P.OnPeerConfirmFindNew(old(Abs()), socketId, rng1, roomId1, rng2, roomId2)
    {
      var loc := P.UserBySocketId(Abs(), socketId);
      if loc.None? {
        return;
      }
      var otherUser := P.PeerInRoom(Abs(), loc.value.roomId, socketId);
      LeaveRoom(socketId, true);
      if otherUser.Some? {
        LeaveRoom(otherUser.value.socketId, true);
      }
      ProceedToFindNew(socketId, rng1, roomId1);
      if otherUser.Some? {
        ProceedToFindNew(otherUser.value.socketId, rng2, roomId2);
      }
    }

    /** Handler of `find-new`. */
    method OnFindNew(socketId: ConnId, rng: Rng, roomId: RoomId)
      modifies this
      ensures Abs() == P.OnFindNew(old(Abs()), socketId, rng, roomId)
    {
      var loc := P.UserBySocketId(Abs(), socketId);
      if loc.None? {
        var queuedUser := P.UserFromQueue(Abs(), socketId);
        if queuedUser.None? {
          return;
        }
        Matchmake(queuedUser.value, rng, roomId);
        return;
      }
      var otherUser := P.PeerInRoom(Abs(), loc.value.roomId, socketId);
      if otherUser.Some? {
        outbox := outbox + [Emit(otherUser.value.socketId, PeerWantsFindNew)];
      }
    }

    /** Handler of `end-call`. */
    method OnEndCall(socketId: ConnId)
      modifies this
      ensures Abs() == P.OnEndCall(old(Abs()), socketId)
    {
      var k := ScanRooms(activeRooms, socketId, false);
      if k >= 0 {
        NotifyOthers(activeRooms[k].users, socketId, [CallEnded]);
      }
      LeaveRoom(socketId, true);
    }

    /** Handler of `disconnect`. */
    method OnDisconnect(socketId: ConnId)
      modifies this
      ensures Abs() == P.OnDisconnect(old(Abs()), socketId)
    {
      LeaveRoom(socketId, true);
      RemoveFromQueues(socketId);
    }
  }
}

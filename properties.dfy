/** What each helper and handler does, stated against the state before the
    call: the lookups, removal from the queues, room teardown with and without
    requeue, the matchmaking block, the relays and call gating, `find-new`,
    `end-call`, `peer-confirm-find-new` and `disconnect`. */
module Properties {
  import opened Model
  import opened Queues
  import opened Rooms
  import opened Protocol
  import opened Invariant

  // ---------------------------------------------------------------------
  // Small facts about queues

  lemma AbsentRemoveConn(q: seq<User>, s: ConnId)
    requires Count(q, s) == 0
    ensures RemoveConn(q, s) == q
  {
    FoundIsCounted(q, s);
  }

  /** `findIndex` over a prefix that does not hold `s` lands in the suffix. */
  lemma IndexOfAppend(q: seq<User>, t: seq<User>, s: ConnId)
    requires s !in Sids(q)
    ensures IndexOf(q + t, s) == (if IndexOf(t, s) < 0 then -1 else |q| + IndexOf(t, s))
  {
    var k2 := IndexOf(t, s);
    var n := if k2 < 0 then |t| else k2;
    forall j | 0 <= j < |q| + n ensures (q + t)[j].socketId != s {
      if j < |q| {
        assert Sids(q)[j] == q[j].socketId;
      } else {
        assert (q + t)[j] == t[j - |q|];
      }
    }
    if k2 >= 0 {
      assert (q + t)[|q| + k2] == t[k2];
    }
  }

  /** Removal by connection skips a prefix that does not hold `s`. */
  lemma RemoveConnAppend(q: seq<User>, t: seq<User>, s: ConnId)
    requires s !in Sids(q)
    ensures RemoveConn(q + t, s) == q + RemoveConn(t, s)
  {
    IndexOfAppend(q, t, s);
    var k2 := IndexOf(t, s);
    if k2 >= 0 {
      var k := |q| + k2;
      assert (q + t)[..k] == q + t[..k2];
      assert (q + t)[k + 1..] == t[k2 + 1..];
    }
  }

  /** Requeueing two occupants whose connections are both absent appends both, in seat order. */
  lemma AddAbsentPair(q: seq<User>, a: User, b: User)
    requires a.socketId != b.socketId && a.socketId !in Sids(q) && b.socketId !in Sids(q)
    ensures AddAbsent(q, [a, b]) == q + [a, b]
  {
    assert [a, b][..1] == [a];
    assert [a][..0] == [];
    assert AddAbsent(q, [a]) == q + [a];
    SidsConcat(q, [a]);
    assert Sids([a]) == [a.socketId];
    assert b.socketId !in Sids(q + [a]);
  }

  // ---------------------------------------------------------------------
  // Lookups

  /** `getUserFromQueue`: an entry of `s` is found exactly when one of the
      queues holds `s`; the text queue is searched first. */
  lemma UserFromQueueFinds(st: State, s: ConnId)
    ensures var r := UserFromQueue(st, s);
            && (r.Some? <==> s in Sids(st.textQueue) || s in Sids(st.videoQueue))
            && (r.Some? ==> r.value.socketId == s)
            && (s in Sids(st.textQueue) ==> r.Some? && r.value in st.textQueue)
            && (s !in Sids(st.textQueue) && r.Some? ==> r.value in st.videoQueue)
  {
    FoundIsCounted(st.textQueue, s);
    FoundIsCounted(st.videoQueue, s);
    var i := IndexOf(st.textQueue, s);
    var j := IndexOf(st.videoQueue, s);
    if i >= 0 {
      assert Sids(st.textQueue)[i] == s;
    }
    if j >= 0 {
      assert Sids(st.videoQueue)[j] == s;
    }
  }

  /** `getUserBySocketId`: an occupant record is found exactly when some room
      seats `s`; it is the record of `s` in the first such room, with that
      room's id. */
  lemma UserBySocketIdFinds(st: State, s: ConnId)
    ensures var r := UserBySocketId(st, s);
            && (r.Some? <==> s in RoomSids(st.rooms))
            && (r.Some? ==>
                  var k := FirstRoom(st.rooms, s, false);
                  && r.value.user.socketId == s
                  && r.value.user in st.rooms[k].users
                  && r.value.roomId == st.rooms[k].id
                  && forall j :: 0 <= j < k ==> !Hosts(st.rooms[j], s))
  {
    FirstRoomFinds(st.rooms, s);
  }

  // ---------------------------------------------------------------------
  // removeFromQueues

  /** `removeFromQueues(s)` on queues that hold `s` at most once each: `s`
      is then in neither queue, every other entry stays in order, rooms and
      emits are untouched, and a second call changes nothing. */
  lemma RemoveFromQueuesClears(st: State, s: ConnId)
    requires Count(st.textQueue, s) <= 1 && Count(st.videoQueue, s) <= 1
    ensures var st' := RemoveFromQueues(st, s);
            && Count(st'.textQueue, s) == 0 && Count(st'.videoQueue, s) == 0
            && st'.textQueue == Without(st.textQueue, s)
            && st'.videoQueue == Without(st.videoQueue, s)
            && st'.rooms == st.rooms && st'.outbox == st.outbox
            && RemoveFromQueues(st', s) == st'
  {
    RemoveConnIsWithout(st.textQueue, s);
    RemoveConnIsWithout(st.videoQueue, s);
    RemoveConnClears(st.textQueue, s);
    RemoveConnClears(st.videoQueue, s);
    RemoveConnIdempotent(st.textQueue, s);
    RemoveConnIdempotent(st.videoQueue, s);
  }

  // ---------------------------------------------------------------------
  // leaveRoom

  /** `leaveRoom` for a connection no room seats changes nothing and emits nothing. */
  lemma LeaveRoomAbsent(st: State, s: ConnId, requeue: bool)
    requires s !in RoomSids(st.rooms)
    ensures LeaveRoom(st, s, requeue) == st
  {
    FirstRoomFinds(st.rooms, s);
  }

  /** `leaveRoom` for a seated connection: exactly the first room seating it
      is removed, every other occupant gets `user-disconnected` then
      `peer-disconnected` and `s` gets nothing; without requeue the queues
      are untouched, with requeue only the queue of the room's mode grows. */
  lemma LeaveRoomEffect(st: State, s: ConnId, requeue: bool)
    requires DistinctIds(st.rooms) && FirstRoom(st.rooms, s, false) >= 0
    ensures var k := FirstRoom(st.rooms, s, false);
            var room := st.rooms[k];
            var st' := LeaveRoom(st, s, requeue);
            && st'.rooms == RemoveAt(st.rooms, k)
            && st'.outbox == st.outbox + ToOthers(room.users, s, [UserDisconnected, PeerDisconnected])
            && (forall e :: e in st'.outbox[|st.outbox|..] ==> e.to != s && e.to in Sids(room.users))
            && (!requeue ==> st'.textQueue == st.textQueue && st'.videoQueue == st.videoQueue)
            && (requeue ==> QueueFor(st', room.mode) == AddAbsent(QueueFor(st, room.mode), room.users))
            && QueueFor(st', Opposite(room.mode)) == QueueFor(st, Opposite(room.mode))
  {
    var k := FirstRoom(st.rooms, s, false);
    var room := st.rooms[k];
    LeaveRoomShape(st, s, requeue);
    DeleteAt(st.rooms, k);
    var es := ToOthers(room.users, s, [UserDisconnected, PeerDisconnected]);
    ToOthersTargets(room.users, s, [UserDisconnected, PeerDisconnected]);
    assert (st.outbox + es)[|st.outbox|..] == es;
  }

  /** The requeue of `leaveRoom` keeps the room-mode queue free of
      duplicates: every occupant's connection is in it afterwards, and a
      connection queued at most once before is queued at most once after. */
  lemma LeaveRoomRequeueNoDuplicates(st: State, s: ConnId)
    requires DistinctIds(st.rooms) && FirstRoom(st.rooms, s, false) >= 0
    ensures var room := st.rooms[FirstRoom(st.rooms, s, false)];
            var q' := QueueFor(LeaveRoom(st, s, true), room.mode);
            && QueueFor(st, room.mode) <= q'
            && (forall u :: u in room.users ==> u.socketId in Sids(q'))
            && (forall c :: Count(QueueFor(st, room.mode), c) <= 1 ==> Count(q', c) <= 1)
  {
    var room := st.rooms[FirstRoom(st.rooms, s, false)];
    LeaveRoomEffect(st, s, true);
    AddAbsentSpec(QueueFor(st, room.mode), room.users);
    AddAbsentCounts(QueueFor(st, room.mode), room.users);
  }

  // ---------------------------------------------------------------------
  // The matchmaking block and join-queue

  /** The matchmaking block for `u` whose queue holds it at most once, with
      a room id no room has: with nobody else waiting, `u` becomes the only
      entry of its queue and nothing is emitted; otherwise the match is a
      waiting user other than `u`, both leave the queue, room `rid` of `u`'s
      mode seating `[u, match]` is appended, and each side gets `matched`
      naming the other. The other queue is untouched either way. */
  lemma MatchmakeOutcome(st: State, u: User, rng: Rng, rid: RoomId)
    requires Count(QueueFor(st, u.mode), u.socketId) <= 1
    requires forall j :: 0 <= j < |st.rooms| ==> st.rooms[j].id != rid
    ensures var q := QueueFor(st, u.mode);
            var st' := Matchmake(st, u, rng, rid);
            && QueueFor(st', Opposite(u.mode)) == QueueFor(st, Opposite(u.mode))
            && (RemoveConn(q, u.socketId) == [] ==>
                  && QueueFor(st', u.mode) == [u]
                  && st'.rooms == st.rooms && st'.outbox == st.outbox)
            && (RemoveConn(q, u.socketId) != [] ==>
                  var f := MatchOutcome(q, u, rng).found;
                  && f.Some? && f.value in q && f.value.socketId != u.socketId
                  && multiset(QueueFor(st', u.mode)) == multiset(RemoveConn(q, u.socketId)) - multiset{f.value}
                  && Count(QueueFor(st', u.mode), u.socketId) == 0
                  && st'.rooms == st.rooms + [Room(rid, u.mode, [u, f.value])]
                  && st'.outbox == st.outbox + [Emit(u.socketId, Matched(rid, f.value.id, f.value.name)),
                                                Emit(f.value.socketId, Matched(rid, u.id, u.name))])
  {
    var q := QueueFor(st, u.mode);
    MatchmakeShape(st, u, rng, rid);
    if RemoveConn(q, u.socketId) == [] {
      MatchOutcomeEmpty(q, u, rng);
    } else {
      MatchOutcomeFound(q, u, rng);
      MatchOutcomeNotSelf(q, u, rng);
      var m := MatchOutcome(q, u, rng).found.value;
      PutFresh(st.rooms, Room(rid, u.mode, [u, m]));
    }
  }

  /** `join-queue` from a connection in no queue and no room, with a room id
      no room has: either it waits alone in the queue of its mode (which was
      empty) and nothing is emitted, or it is paired with a waiting user of
      that queue in a new room and both get `matched`. */
  lemma JoinQueueOutcome(st: State, s: ConnId, userId: string, userName: string, mode: Mode, rng: Rng, rid: RoomId)
    requires Count(st.textQueue, s) == 0 && Count(st.videoQueue, s) == 0
    requires forall j :: 0 <= j < |st.rooms| ==> st.rooms[j].id != rid
    ensures var u := User(userId, userName, s, mode);
            var q := QueueFor(st, mode);
            var st' := OnJoinQueue(st, s, userId, userName, mode, rng, rid);
            && QueueFor(st', Opposite(mode)) == QueueFor(st, Opposite(mode))
            && (q == [] ==> QueueFor(st', mode) == [u] && st'.rooms == st.rooms && st'.outbox == st.outbox)
            && (q != [] ==>
                  var f := MatchOutcome(q, u, rng).found;
                  && f.Some? && f.value in q && f.value.socketId != s
                  && multiset(QueueFor(st', mode)) == multiset(q) - multiset{f.value}
                  && st'.rooms == st.rooms + [Room(rid, mode, [u, f.value])]
                  && st'.outbox == st.outbox + [Emit(s, Matched(rid, f.value.id, f.value.name)),
                                                Emit(f.value.socketId, Matched(rid, userId, userName))])
  {
    var u := User(userId, userName, s, mode);
    AbsentRemoveConn(st.textQueue, s);
    AbsentRemoveConn(st.videoQueue, s);
    assert RemoveFromQueues(st, s) == st;
    AbsentRemoveConn(QueueFor(st, mode), s);
    MatchmakeOutcome(st, u, rng, rid);
  }

  // ---------------------------------------------------------------------
  // Relays and call gating

  /** Every relay changes only the outbox, and only by emits of `e` to the
      other occupants of the first room selected for `s`; with no such room
      it changes nothing. */
  lemma RelayOnlyToRoom(st: State, s: ConnId, videoOnly: bool, e: Event)
    ensures var st' := Relay(st, s, videoOnly, e);
            var k := FirstRoom(st.rooms, s, videoOnly);
            && st'.textQueue == st.textQueue && st'.videoQueue == st.videoQueue && st'.rooms == st.rooms
            && st.outbox <= st'.outbox
            && (k < 0 ==> st' == st)
            && (k >= 0 ==> forall em :: em in st'.outbox[|st.outbox|..] ==>
                             em.event == e && em.to != s && em.to in Sids(st.rooms[k].users))
  {
    var k := FirstRoom(st.rooms, s, videoOnly);
    if k >= 0 {
      var es := ToOthers(st.rooms[k].users, s, [e]);
      ToOthersTargets(st.rooms[k].users, s, [e]);
      assert (st.outbox + es)[|st.outbox|..] == es;
    }
  }

  /** In a valid state a relay from a seated connection reaches exactly its
      one peer, once. */
  lemma RelayToPeer(st: State, s: ConnId, videoOnly: bool, e: Event)
    requires Wf(st) && FirstRoom(st.rooms, s, videoOnly) >= 0
    ensures var room := st.rooms[FirstRoom(st.rooms, s, videoOnly)];
            && PeerOf(room, s).Some?
            && Relay(st, s, videoOnly, e).outbox == st.outbox + [Emit(PeerOf(room, s).value.socketId, e)]
  {
    var k := FirstRoom(st.rooms, s, videoOnly);
    SeatsDistinct(st, k);
    PairRelay(st.rooms[k], s, e);
  }

  /** In a room of two different connections, one of them hosting `s`, a
      relayed event reaches exactly the other seat. */
  lemma PairRelay(room: Room, s: ConnId, e: Event)
    requires |room.users| == 2 && room.users[0].socketId != room.users[1].socketId
    requires Hosts(room, s)
    ensures PeerOf(room, s).Some?
    ensures ToOthers(room.users, s, [e]) == [Emit(PeerOf(room, s).value.socketId, e)]
  {
    var a := room.users[0];
    var b := room.users[1];
    assert room.users == [a, b];
    assert Sids(room.users) == [a.socketId, b.socketId];
    ToOthersPair(a, b, [e]);
  }

  /** `send-message` relays the text with the sender's name to the other
      occupants of the sender's first room, and does nothing else. */
  lemma SendMessageOnlyToRoom(st: State, s: ConnId, text: Payload)
    ensures var st' := OnSendMessage(st, s, text);
            var k := FirstRoom(st.rooms, s, false);
            && st'.textQueue == st.textQueue && st'.videoQueue == st.videoQueue && st'.rooms == st.rooms
            && (k < 0 ==> st' == st)
            && (k >= 0 ==>
                  && st'.outbox == st.outbox + ToOthers(st.rooms[k].users, s, [Message(text, OccupantOf(st.rooms[k], s).name)])
                  && forall em :: em in st'.outbox[|st.outbox|..] ==>
                             em.to != s && em.to in Sids(st.rooms[k].users)
                             && em.event == Message(text, OccupantOf(st.rooms[k], s).name))
  {
    var k := FirstRoom(st.rooms, s, false);
    if k >= 0 {
      var m := Message(text, OccupantOf(st.rooms[k], s).name);
      var es := ToOthers(st.rooms[k].users, s, [m]);
      ToOthersTargets(st.rooms[k].users, s, [m]);
      assert (st.outbox + es)[|st.outbox|..] == es;
    }
  }

  /** `call-offer` and `call-answer` do nothing unless a room of mode
      "video" seats the sender. */
  lemma CallNeedsVideoRoom(st: State, s: ConnId, p: Payload)
    requires forall j :: 0 <= j < |st.rooms| && Hosts(st.rooms[j], s) ==> st.rooms[j].mode != Video
    ensures OnCallOffer(st, s, p) == st && OnCallAnswer(st, s, p) == st
  {
  }

  /** The unchecked mode: a user who asks for a mode other than "text" or
      "video" is paired from the video queue, possibly with a "video" user,
      yet their room's mode is that other value, so `typing` is relayed while
      `call-offer` is dropped. */
  lemma OtherModeGap(rng: Rng)
    ensures var v := User("1", "V", "v", Video);
            var st := State([], [v], [], []);
            var st1 := OnJoinQueue(st, "o", "2", "O", Other, rng, "r");
            && st1.rooms == [Room("r", Other, [User("2", "O", "o", Other), v])]
            && OnTyping(st1, "v").outbox == st1.outbox + [Emit("o", Typing)]
            && OnCallOffer(st1, "v", "sdp") == st1
  {
    var v := User("1", "V", "v", Video);
    var o := User("2", "O", "o", Other);
    var st := State([], [v], [], []);
    var room := Room("r", Other, [o, v]);
    var st1 := OnJoinQueue(st, "o", "2", "O", Other, rng, "r");
    assert "v"[0] != "o"[0];
    assert st1.rooms == [room] by {
      assert RemoveConn([v], "o") == [v];
      assert RemoveFromQueues(st, "o") == st;
      assert Shuffled([v], rng) == [v];
      assert MatchOutcome([v], o, rng) == MatchResult([], Some(v));
      MatchmakeShape(st, o, rng, "r");
    }
    assert Sids([o, v]) == ["o", "v"];
    assert FirstRoom(st1.rooms, "v", false) == 0;
    assert FirstRoom(st1.rooms, "v", true) == -1;
    assert ToOthers([o, v], "v", [Typing]) == [Emit("o", Typing)] by {
      ToOthersPair(o, v, [Typing]);
      assert Deliver("o", [Typing]) == [Emit("o", Typing)];
    }
  }

  // ---------------------------------------------------------------------
  // find-new

  /** `find-new` from a seated connection changes no queue and no room; it
      only prompts the peer of the sender's first room with
      `peer-wants-find-new`. */
  lemma FindNewFromRoom(st: State, s: ConnId, rng: Rng, rid: RoomId)
    requires DistinctIds(st.rooms) && FirstRoom(st.rooms, s, false) >= 0
    ensures var room := st.rooms[FirstRoom(st.rooms, s, false)];
            var p := PeerOf(room, s);
            OnFindNew(st, s, rng, rid) == if p.Some? then Send(st, [Emit(p.value.socketId, PeerWantsFindNew)]) else st
  {
    FirstRoomFinds(st.rooms, s);
    KeyIndexOfDistinct(st.rooms, FirstRoom(st.rooms, s, false));
  }

  /** `find-new` from a connection in no room: for a queued connection it is
      the matchmaking block for its queued entry (text queue first), and
      otherwise it does nothing. */
  lemma FindNewFromQueue(st: State, s: ConnId, rng: Rng, rid: RoomId)
    requires s !in RoomSids(st.rooms)
    ensures var r := UserFromQueue(st, s);
            && (r.None? ==> OnFindNew(st, s, rng, rid) == st)
            && (r.Some? ==> OnFindNew(st, s, rng, rid) == Matchmake(st, r.value, rng, rid)
                            && r.value.socketId == s
                            && (r.value in st.textQueue || r.value in st.videoQueue))
  {
    FirstRoomFinds(st.rooms, s);
    UserFromQueueFinds(st, s);
  }

  /** In a valid state, `find-new` from a queued connection leaves it where
      `MatchmakeOutcome` says: matched with another waiting user of its own
      queue, or alone in that queue. */
  lemma FindNewQueuedWf(st: State, s: ConnId, rng: Rng, rid: RoomId)
    requires Wf(st) && s !in RoomSids(st.rooms) && UserFromQueue(st, s).Some?
    ensures var u := UserFromQueue(st, s).value;
            && u in QueueFor(st, u.mode)
            && Count(QueueFor(st, u.mode), s) == 1
            && OnFindNew(st, s, rng, rid) == Matchmake(st, u, rng, rid)
  {
    var u := UserFromQueue(st, s).value;
    FindNewFromQueue(st, s, rng, rid);
    SidOfMember(if u in st.textQueue then st.textQueue else st.videoQueue, u);
    assert Placed(st)[s] <= 1;
  }

  // ---------------------------------------------------------------------
  // Rooms in a valid state

  /** The occupant of the other seat. */
  function OtherSeat(room: Room, s: ConnId): (peer: User)
    requires |room.users| == 2
  {
    if room.users[0].socketId == s then room.users[1] else room.users[0]
  }

  /** In a valid state, the first room seating `s` has `s` and one peer,
      neither of them queued nor seated elsewhere. */
  lemma SeatedPair(st: State, s: ConnId)
    requires Wf(st) && FirstRoom(st.rooms, s, false) >= 0
    ensures |st.rooms[FirstRoom(st.rooms, s, false)].users| == 2
    ensures var k := FirstRoom(st.rooms, s, false);
            var room := st.rooms[k];
            var p := OtherSeat(room, s);
            && p.socketId != s
            && PeerOf(room, s) == Some(p)
            && (forall es :: ToOthers(room.users, s, es) == Deliver(p.socketId, es))
            && s !in Sids(st.textQueue) && s !in Sids(st.videoQueue)
            && p.socketId !in Sids(st.textQueue) && p.socketId !in Sids(st.videoQueue)
            && s !in RoomSids(RemoveAt(st.rooms, k))
            && p.socketId !in RoomSids(RemoveAt(st.rooms, k))
  {
    var k := FirstRoom(st.rooms, s, false);
    var room := st.rooms[k];
    SeatsDistinct(st, k);
    var a := room.users[0];
    var b := room.users[1];
    assert room.users == [a, b];
    assert Sids(room.users) == [a.socketId, b.socketId];
    forall es ensures ToOthers(room.users, s, es) == Deliver(OtherSeat(room, s).socketId, es) {
      ToOthersPair(a, b, es);
    }
    assert room.users[1..] == [b];
    SeatedOnlyThere(st, k, a.socketId);
    SeatedOnlyThere(st, k, b.socketId);
  }

  // ---------------------------------------------------------------------
  // end-call, peer-confirm-find-new, disconnect

  /** The first room seating `s` has two seats held by different
      connections, neither of them waiting in the queue of the room's mode;
      room ids are distinct. */
  predicate PairReady(st: State, s: ConnId)
  {
    && DistinctIds(st.rooms)
    && FirstRoom(st.rooms, s, false) >= 0
    && var room := st.rooms[FirstRoom(st.rooms, s, false)];
       && |room.users| == 2 && room.users[0].socketId != room.users[1].socketId
       && room.users[0].socketId !in Sids(QueueFor(st, room.mode))
       && room.users[1].socketId !in Sids(QueueFor(st, room.mode))
  }

  lemma WfPairReady(st: State, s: ConnId)
    requires Wf(st) && FirstRoom(st.rooms, s, false) >= 0
    ensures PairReady(st, s)
  {
    var k := FirstRoom(st.rooms, s, false);
    SeatsDistinct(st, k);
    var room := st.rooms[k];
    assert Sids(room.users) == [room.users[0].socketId, room.users[1].socketId];
    SeatedOnlyThere(st, k, room.users[0].socketId);
    SeatedOnlyThere(st, k, room.users[1].socketId);
  }

  /** In a two-seat room of different connections, "every occupant but
      `s`" is the other seat. */
  lemma PairNotice(room: Room, s: ConnId, es: seq<Event>)
    requires |room.users| == 2 && room.users[0].socketId != room.users[1].socketId
    requires s in Sids(room.users)
    ensures ToOthers(room.users, s, es) == Deliver(OtherSeat(room, s).socketId, es)
  {
    var a := room.users[0];
    var b := room.users[1];
    assert room.users == [a, b];
    assert Sids(room.users) == [a.socketId, b.socketId];
    ToOthersPair(a, b, es);
  }

  /** The three pieces of `leaveRoom` for a two-seat room of different
      connections, neither of them in `q`: the key's deletion removes the
      entry, the requeue appends both seats, and the notices reach the peer. */
  lemma PairTeardown(rooms: seq<Room>, s: ConnId, q: seq<User>)
    requires DistinctIds(rooms) && FirstRoom(rooms, s, false) >= 0
    requires var room := rooms[FirstRoom(rooms, s, false)];
             && |room.users| == 2 && room.users[0].socketId != room.users[1].socketId
             && room.users[0].socketId !in Sids(q) && room.users[1].socketId !in Sids(q)
    ensures var k := FirstRoom(rooms, s, false);
            var room := rooms[k];
            var p := OtherSeat(room, s).socketId;
            && Delete(rooms, room.id) == RemoveAt(rooms, k)
            && AddAbsent(q, room.users) == q + room.users
            && ToOthers(room.users, s, [UserDisconnected, PeerDisconnected]) == [Emit(p, UserDisconnected), Emit(p, PeerDisconnected)]
  {
    var k := FirstRoom(rooms, s, false);
    var room := rooms[k];
    var p := OtherSeat(room, s).socketId;
    DeleteAt(rooms, k);
    assert room.users == [room.users[0], room.users[1]];
    AddAbsentPair(q, room.users[0], room.users[1]);
    PairNotice(room, s, [UserDisconnected, PeerDisconnected]);
    assert Deliver(p, [UserDisconnected, PeerDisconnected]) == [Emit(p, UserDisconnected), Emit(p, PeerDisconnected)];
  }

  /** `leaveRoom` with requeue from a two-seat room whose occupants are
      different connections, neither of them in the queue of the room's mode:
      the peer gets the two notices, the room goes, and both occupants are
      appended in seat order. */
  lemma LeaveRoomPair(st: State, s: ConnId)
    requires PairReady(st, s)
    ensures var k := FirstRoom(st.rooms, s, false);
            var room := st.rooms[k];
            var p := OtherSeat(room, s).socketId;
            var st' := LeaveRoom(st, s, true);
            && st'.outbox == st.outbox + [Emit(p, UserDisconnected), Emit(p, PeerDisconnected)]
            && st'.rooms == RemoveAt(st.rooms, k)
            && QueueFor(st', room.mode) == QueueFor(st, room.mode) + room.users
            && QueueFor(st', Opposite(room.mode)) == QueueFor(st, Opposite(room.mode))
  {
    var room := st.rooms[FirstRoom(st.rooms, s, false)];
    LeaveRoomShape(st, s, true);
    PairTeardown(st.rooms, s, QueueFor(st, room.mode));
  }

  /** `end-call` from a two-seat room whose occupants are different
      connections, neither of them in the queue of the room's mode. */
  lemma EndCallPair(st: State, s: ConnId)
    requires PairReady(st, s)
    ensures var k := FirstRoom(st.rooms, s, false);
            var room := st.rooms[k];
            var p := OtherSeat(room, s).socketId;
            var st' := OnEndCall(st, s);
            && st'.outbox == st.outbox + [Emit(p, CallEnded), Emit(p, UserDisconnected), Emit(p, PeerDisconnected)]
            && st'.rooms == RemoveAt(st.rooms, k)
            && QueueFor(st', room.mode) == QueueFor(st, room.mode) + room.users
            && QueueFor(st', Opposite(room.mode)) == QueueFor(st, Opposite(room.mode))
  {
    var k := FirstRoom(st.rooms, s, false);
    var room := st.rooms[k];
    var p := OtherSeat(room, s).socketId;
    PairNotice(room, s, [CallEnded]);
    assert Deliver(p, [CallEnded]) == [Emit(p, CallEnded)];
    var st1 := Send(st, [Emit(p, CallEnded)]);
    assert OnEndCall(st, s) == LeaveRoom(st1, s, true);
    assert st1.rooms == st.rooms && QueueFor(st1, room.mode) == QueueFor(st, room.mode);
    assert PairReady(st1, s);
    LeaveRoomPair(st1, s);
  }

  /** `end-call` in a valid state from a seated connection: the peer gets
      `call-ended`, `user-disconnected`, `peer-disconnected`, in that order;
      the room is removed; and both occupants are appended to the queue of
      the room's mode, in seat order. */
  lemma EndCallEffect(st: State, s: ConnId)
    requires Wf(st) && FirstRoom(st.rooms, s, false) >= 0
    ensures |st.rooms[FirstRoom(st.rooms, s, false)].users| == 2
    ensures var k := FirstRoom(st.rooms, s, false);
            var room := st.rooms[k];
            var p := OtherSeat(room, s).socketId;
            var st' := OnEndCall(st, s);
            && st'.outbox == st.outbox + [Emit(p, CallEnded), Emit(p, UserDisconnected), Emit(p, PeerDisconnected)]
            && st'.rooms == RemoveAt(st.rooms, k)
            && QueueFor(st', room.mode) == QueueFor(st, room.mode) + room.users
            && QueueFor(st', Opposite(room.mode)) == QueueFor(st, Opposite(room.mode))
  {
    WfPairReady(st, s);
    EndCallPair(st, s);
  }

  /** `peer-confirm-find-new` in a valid state from a seated connection
      matches nobody: the room is removed, both occupants are appended to the
      queue of its mode in seat order, and the only emits are
      `user-disconnected` and `peer-disconnected` to the peer. */
  lemma PeerConfirmFindNewEffect(st: State, s: ConnId, rng1: Rng, rid1: RoomId, rng2: Rng, rid2: RoomId)
    requires Wf(st) && FirstRoom(st.rooms, s, false) >= 0
    ensures |st.rooms[FirstRoom(st.rooms, s, false)].users| == 2
    ensures var k := FirstRoom(st.rooms, s, false);
            var room := st.rooms[k];
            var p := OtherSeat(room, s).socketId;
            var st' := OnPeerConfirmFindNew(st, s, rng1, rid1, rng2, rid2);
            && st'.outbox == st.outbox + [Emit(p, UserDisconnected), Emit(p, PeerDisconnected)]
            && st'.rooms == RemoveAt(st.rooms, k)
            && QueueFor(st', room.mode) == QueueFor(st, room.mode) + room.users
            && QueueFor(st', Opposite(room.mode)) == QueueFor(st, Opposite(room.mode))
  {
    var k := FirstRoom(st.rooms, s, false);
    var room := st.rooms[k];
    SeatedPair(st, s);
    var peer := OtherSeat(room, s);
    var p := peer.socketId;
    KeyIndexOfDistinct(st.rooms, k);
    assert PeerInRoom(st, room.id, s) == Some(peer);
    var st1 := LeaveRoom(st, s, true);
    LeaveRoomPair(st, s);
    LeaveRoomAbsent(st1, p, true);
    FirstRoomFinds(st1.rooms, s);
    FirstRoomFinds(st1.rooms, p);
    assert ProceedToFindNew(st1, s, rng1, rid1) == st1;
    assert ProceedToFindNew(st1, p, rng2, rid2) == st1;
  }

  /** Connection `a` seated twice: `a` and `b` are paired in `r1`, `c`
      waits, then `a` sends `join-queue` again and is paired with `c` in
      `r2`, since `join-queue` does not take `a` out of `r1`. */
  function SeatedTwice(): (st': State)
  {
    State([], [], [Room("r1", Text, [User("2", "B", "b", Text), User("1", "A", "a", Text)]),
                   Room("r2", Text, [User("1", "A", "a", Text), User("3", "C", "c", Text)])], [])
  }

  /** `SeatedTwice` is reachable from the empty engine by four `join-queue`
      events, whatever the draws (every shuffle on the way is of at most one
      entry). */
  lemma SeatedTwiceReachable(rng: Rng)
    ensures var st0 := State([], [], [], []);
            var st1 := OnJoinQueue(st0, "a", "1", "A", Text, rng, "r0");
            var st2 := OnJoinQueue(st1, "b", "2", "B", Text, rng, "r1");
            var st3 := OnJoinQueue(st2, "c", "3", "C", Text, rng, "r9");
            var st4 := OnJoinQueue(st3, "a", "1", "A", Text, rng, "r2");
            st4.(outbox := []) == SeatedTwice()
  {
    var a := User("1", "A", "a", Text);
    var b := User("2", "B", "b", Text);
    var c := User("3", "C", "c", Text);
    var st0 := State([], [], [], []);
    assert RemoveFromQueues(st0, "a") == st0;
    var st1 := OnJoinQueue(st0, "a", "1", "A", Text, rng, "r0");
    assert st1 == st0.(textQueue := [a]);
    assert IndexOf([a], "b") == -1;
    assert RemoveFromQueues(st1, "b") == st1;
    assert Shuffled([a], rng) == [a];
    var st2 := OnJoinQueue(st1, "b", "2", "B", Text, rng, "r1");
    assert st2 == State([], [], [Room("r1", Text, [b, a])], MatchedPair("r1", b, a));
    assert RemoveFromQueues(st2, "c") == st2;
    var st3 := OnJoinQueue(st2, "c", "3", "C", Text, rng, "r9");
    assert st3 == st2.(textQueue := [c]);
    assert IndexOf([c], "a") == -1;
    assert RemoveFromQueues(st3, "a") == st3;
    assert Shuffled([c], rng) == [c];
    assert KeyIndex(st3.rooms, "r2") == -1;
    var st4 := OnJoinQueue(st3, "a", "1", "A", Text, rng, "r2");
    assert st4 == State([], [], [Room("r1", Text, [b, a]), Room("r2", Text, [a, c])], st3.outbox + MatchedPair("r2", a, c));
  }

  /** The first teardown `peer-confirm-find-new` performs from `SeatedTwice`:
      `r1` goes, `b` is told, and both of its occupants are queued. */
  lemma SeatedTwiceFirstTeardown()
    ensures var a := User("1", "A", "a", Text);
            var b := User("2", "B", "b", Text);
            var c := User("3", "C", "c", Text);
            LeaveRoom(SeatedTwice(), "a", true)
              == State([b, a], [], [Room("r2", Text, [a, c])], Deliver("b", [UserDisconnected, PeerDisconnected]))
  {
    var a := User("1", "A", "a", Text);
    var b := User("2", "B", "b", Text);
    var c := User("3", "C", "c", Text);
    var es := [UserDisconnected, PeerDisconnected];
    var st := SeatedTwice();
    assert Sids([b, a]) == ["b", "a"];
    assert FirstRoom(st.rooms, "a", false) == 0;
    ToOthersPair(b, a, es);
    AddAbsentPair([], b, a);
    assert Delete(st.rooms, "r1") == [Room("r2", Text, [a, c])] by {
      assert KeyIndex(st.rooms, "r1") == 0;
    }
    LeaveRoomShape(st, "a", true);
  }

  /** The second teardown, inside `proceedToFindNew(a)`: `r2` goes and `c`
      joins the queue behind `b` and `a`. */
  lemma SeatedTwiceSecondTeardown()
    ensures var a := User("1", "A", "a", Text);
            var b := User("2", "B", "b", Text);
            var c := User("3", "C", "c", Text);
            var st2 := LeaveRoom(State([b, a], [], [Room("r2", Text, [a, c])], Deliver("b", [UserDisconnected, PeerDisconnected])), "a", true);
            st2.textQueue == [b, a, c] && st2.videoQueue == [] && st2.rooms == []
  {
    var a := User("1", "A", "a", Text);
    var b := User("2", "B", "b", Text);
    var c := User("3", "C", "c", Text);
    var st1 := State([b, a], [], [Room("r2", Text, [a, c])], Deliver("b", [UserDisconnected, PeerDisconnected]));
    assert Sids([a, c]) == ["a", "c"];
    assert FirstRoom(st1.rooms, "a", false) == 0;
    LeaveRoomEffect(st1, "a", true);
    assert [a, c][..1] == [a] && [a][..0] == [];
    assert AddAbsent([b, a], [a]) == [b, a] by {
      assert Sids([b, a]) == ["b", "a"];
    }
    assert "c" !in Sids([b, a]) by {
      assert Sids([b, a]) == ["b", "a"];
    }
  }

  /** The matchmaking of `proceedToFindNew(a)` after both teardowns: with
      the draws all 0, the shuffle of `[b, c]` puts `c` first, so `a` and `c`
      get room `r3` and `b` keeps waiting. */
  lemma SeatedTwiceRematch(st: State)
    requires st.textQueue == [User("2", "B", "b", Text), User("1", "A", "a", Text), User("3", "C", "c", Text)]
    requires st.rooms == []
    ensures var a := User("1", "A", "a", Text);
            var c := User("3", "C", "c", Text);
            var st' := Matchmake(st, a, (i: nat) => 0, "r3");
            && st'.textQueue == [User("2", "B", "b", Text)]
            && st'.rooms == [Room("r3", Text, [a, c])]
            && st'.outbox == st.outbox + MatchedPair("r3", a, c)
  {
    var zero: Rng := (i: nat) => 0;
    var a := User("1", "A", "a", Text);
    var b := User("2", "B", "b", Text);
    var c := User("3", "C", "c", Text);
    assert IndexOf([b, a, c], "a") == 1;
    assert RemoveConn([b, a, c], "a") == [b, c];
    assert Shuffled([b, c], zero) == [c, b];
    MatchmakeShape(st, a, zero, "r3");
  }

  /** The lookups `peer-confirm-find-new` makes from `SeatedTwice`: `a` is
      found in `r1` with peer `b`; after `r1` is gone, `b` is seated nowhere
      and `a` is found again, in `r2`. */
  lemma SeatedTwiceLookups()
    ensures var a := User("1", "A", "a", Text);
            var b := User("2", "B", "b", Text);
            var c := User("3", "C", "c", Text);
            var st1 := State([b, a], [], [Room("r2", Text, [a, c])], Deliver("b", [UserDisconnected, PeerDisconnected]));
            && UserBySocketId(SeatedTwice(), "a") == Some(Located(a, "r1"))
            && PeerInRoom(SeatedTwice(), "r1", "a") == Some(b)
            && LeaveRoom(st1, "b", true) == st1
            && UserBySocketId(st1, "a") == Some(Located(a, "r2"))
  {
    var a := User("1", "A", "a", Text);
    var b := User("2", "B", "b", Text);
    var c := User("3", "C", "c", Text);
    var st1 := State([b, a], [], [Room("r2", Text, [a, c])], Deliver("b", [UserDisconnected, PeerDisconnected]));
    assert Sids([b, a]) == ["b", "a"];
    assert Sids([a, c]) == ["a", "c"];
    assert FirstRoom(SeatedTwice().rooms, "a", false) == 0;
    assert FirstRoom(st1.rooms, "b", false) == -1;
    assert FirstRoom(st1.rooms, "a", false) == 0;
  }

  /** Outside the invariant, `peer-confirm-find-new` does re-match: from
      `SeatedTwice`, `a`'s request tears down `r1`, but `proceedToFindNew(a)`
      then finds `r2`, leaves it and pairs `a` with `c` in a new room `r3`. */
  lemma PeerConfirmFindNewSeatedTwice()
    ensures var zero: Rng := (i: nat) => 0;
            Emit("a", Matched("r3", "3", "C")) in OnPeerConfirmFindNew(SeatedTwice(), "a", zero, "r3", zero, "r4").outbox
  {
    var zero: Rng := (i: nat) => 0;
    var a := User("1", "A", "a", Text);
    var b := User("2", "B", "b", Text);
    var c := User("3", "C", "c", Text);
    var st1 := State([b, a], [], [Room("r2", Text, [a, c])], Deliver("b", [UserDisconnected, PeerDisconnected]));
    SeatedTwiceFirstTeardown();
    SeatedTwiceSecondTeardown();
    SeatedTwiceLookups();
    var st2 := LeaveRoom(st1, "a", true);
    SeatedTwiceRematch(st2);
    var st3 := ProceedToFindNew(st1, "a", zero, "r3");
    assert st3 == Matchmake(st2, a, zero, "r3");
    assert FirstRoom(st3.rooms, "b", false) == -1 by {
      assert Sids([a, c]) == ["a", "c"];
    }
    assert ProceedToFindNew(st3, "b", zero, "r4") == st3;
    assert OnPeerConfirmFindNew(SeatedTwice(), "a", zero, "r3", zero, "r4") == st3;
    assert st3.outbox[|st2.outbox|] == Emit("a", Matched("r3", "3", "C"));
  }

  /** `disconnect` in a valid state leaves its connection in no room and in
      neither queue. */
  lemma DisconnectLeavesNothing(st: State, s: ConnId)
    requires Wf(st)
    ensures var st' := OnDisconnect(st, s);
            Count(st'.textQueue, s) == 0 && Count(st'.videoQueue, s) == 0 && s !in RoomSids(st'.rooms)
  {
    var st1 := LeaveRoom(st, s, true);
    LeaveRoomWf(st, s, true);
    RemoveFromQueuesWf(st1, s);
    FirstRoomFinds(st.rooms, s);
    if s in RoomSids(st.rooms) {
      SeatedPair(st, s);
      LeaveRoomEffect(st, s, true);
    } else {
      LeaveRoomAbsent(st, s, true);
    }
  }

  /** Removing the first room that hosts `s`, when no later room hosts it
      too, leaves `s` seated nowhere. */
  lemma RemoveFirstHost(rooms: seq<Room>, s: ConnId)
    requires FirstRoom(rooms, s, false) >= 0
    requires forall i, j :: 0 <= i < j < |rooms| && Hosts(rooms[i], s) ==> !Hosts(rooms[j], s)
    ensures s !in RoomSids(RemoveAt(rooms, FirstRoom(rooms, s, false)))
  {
    var k := FirstRoom(rooms, s, false);
    var rest := RemoveAt(rooms, k);
    forall j | 0 <= j < |rest|
      ensures !Hosts(rest[j], s)
    {
      if j < k {
        assert rest[j] == rooms[j];
      } else {
        assert rest[j] == rooms[j + 1];
      }
    }
    RoomSidsNone(rest, s);
  }

  /** `disconnect` leaves its connection in no room and in neither queue
      whenever it sat in at most one room and was queued at most once per
      queue; no other part of the invariant is needed. This covers the
      states that `join-queue` from a seat produces, where the connection is
      both seated and queued. */
  lemma DisconnectClears(st: State, s: ConnId)
    requires DistinctIds(st.rooms) && Count(st.textQueue, s) <= 1 && Count(st.videoQueue, s) <= 1
    requires forall i, j :: 0 <= i < j < |st.rooms| && Hosts(st.rooms[i], s) ==> !Hosts(st.rooms[j], s)
    ensures var st' := OnDisconnect(st, s);
            Count(st'.textQueue, s) == 0 && Count(st'.videoQueue, s) == 0 && s !in RoomSids(st'.rooms)
  {
    var k := FirstRoom(st.rooms, s, false);
    var st1 := LeaveRoom(st, s, true);
    if k < 0 {
      FirstRoomFinds(st.rooms, s);
      assert st1 == st;
    } else {
      var room := st.rooms[k];
      LeaveRoomEffect(st, s, true);
      AddAbsentCounts(QueueFor(st, room.mode), room.users);
      assert Count(QueueFor(st1, room.mode), s) <= 1;
      assert Count(QueueFor(st1, Opposite(room.mode)), s) <= 1;
      assert Count(st1.textQueue, s) <= 1 && Count(st1.videoQueue, s) <= 1 by {
        if room.mode == Text {
          assert QueueFor(st1, room.mode) == st1.textQueue;
        } else {
          assert QueueFor(st1, room.mode) == st1.videoQueue;
        }
      }
      RemoveFirstHost(st.rooms, s);
    }
    RemoveConnClears(st1.textQueue, s);
    RemoveConnClears(st1.videoQueue, s);
  }

  /** `disconnect` from a two-seat room whose occupants are different
      connections, neither of them in the queue of the room's mode. The
      leaving connection may also wait in the other queue, as after a
      `join-queue` from its seat; its entry there is removed. */
  lemma DisconnectPair(st: State, s: ConnId)
    requires PairReady(st, s)
    ensures var k := FirstRoom(st.rooms, s, false);
            var room := st.rooms[k];
            var peer := OtherSeat(room, s);
            var st' := OnDisconnect(st, s);
            && st'.outbox == st.outbox + [Emit(peer.socketId, UserDisconnected), Emit(peer.socketId, PeerDisconnected)]
            && st'.rooms == RemoveAt(st.rooms, k)
            && QueueFor(st', room.mode) == QueueFor(st, room.mode) + [peer]
            && Count(QueueFor(st', room.mode), peer.socketId) == 1
            && QueueFor(st', Opposite(room.mode)) == RemoveConn(QueueFor(st, Opposite(room.mode)), s)
  {
    var k := FirstRoom(st.rooms, s, false);
    var room := st.rooms[k];
    var q := QueueFor(st, room.mode);
    var peer := OtherSeat(room, s);
    var st1 := LeaveRoom(st, s, true);
    assert s in Sids(room.users) by { FirstRoomFinds(st.rooms, s); }
    LeaveRoomPair(st, s);
    assert RemoveConn(q + room.users, s) == q + [peer] && Count(q + [peer], peer.socketId) == 1 by {
      PairRemoveConn(q, room.users, s);
    }
  }

  /** Removing one seat of a pair appended behind a queue leaves the queue
      followed by the other seat, which then appears once. */
  lemma PairRemoveConn(q: seq<User>, users: seq<User>, s: ConnId)
    requires |users| == 2 && users[0].socketId != users[1].socketId
    requires s == users[0].socketId || s == users[1].socketId
    requires s !in Sids(q)
    requires (if users[0].socketId == s then users[1] else users[0]).socketId !in Sids(q)
    ensures var peer := if users[0].socketId == s then users[1] else users[0];
            && RemoveConn(q + users, s) == q + [peer]
            && Count(q + [peer], peer.socketId) == 1
  {
    var a := users[0];
    var b := users[1];
    var peer := if a.socketId == s then b else a;
    assert users == [a, b];
    RemoveConnAppend(q, [a, b], s);
    if a.socketId == s {
      assert IndexOf([a, b], s) == 0;
    } else {
      assert [a, b][1..] == [b];
      assert IndexOf([a, b], s) == 1;
    }
    SidsConcat(q, [peer]);
    assert Sids([peer]) == [peer.socketId];
    assert Count(q, peer.socketId) == 0;
  }

  /** `disconnect` in a valid state from a seated connection: the peer gets
      `user-disconnected` then `peer-disconnected`, and nothing else is
      emitted; the room is removed; and the peer, alone, is appended to the
      queue of the room's mode, so it is queued exactly once. */
  lemma DisconnectNotifiesPeer(st: State, s: ConnId)
    requires Wf(st) && FirstRoom(st.rooms, s, false) >= 0
    ensures |st.rooms[FirstRoom(st.rooms, s, false)].users| == 2
    ensures var k := FirstRoom(st.rooms, s, false);
            var room := st.rooms[k];
            var peer := OtherSeat(room, s);
            var st' := OnDisconnect(st, s);
            && st'.outbox == st.outbox + [Emit(peer.socketId, UserDisconnected), Emit(peer.socketId, PeerDisconnected)]
            && st'.rooms == RemoveAt(st.rooms, k)
            && QueueFor(st', room.mode) == QueueFor(st, room.mode) + [peer]
            && Count(QueueFor(st', room.mode), peer.socketId) == 1
  {
    var k := FirstRoom(st.rooms, s, false);
    assert Hosts(st.rooms[k], s) by { FirstRoomFinds(st.rooms, s); }
    SeatedOnlyThere(st, k, s);
    WfPairReady(st, s);
    DisconnectPair(st, s);
  }
}

/** The placement invariant: every connection occupies at most one place
    (one entry in one queue, or one seat in one room), queues and rooms hold
    users of the right mode, every room has two seats, and room ids are
    distinct. Every handler keeps it, except `join-queue` sent from a
    connection that is already in a room. */
module Invariant {
  import opened Model
  import opened Queues
  import opened Rooms
  import opened Protocol

  /** The connection ids of every place: both queues and every room seat. */
  function Placed(st: State): (placed: multiset<ConnId>)
  {
    multiset(Sids(st.textQueue)) + multiset(Sids(st.videoQueue)) + multiset(RoomSids(st.rooms))
  }

  ghost predicate AtMostOnce(ms: multiset<ConnId>)
  {
    forall c :: ms[c] <= 1
  }

  /** A room has two seats whose users asked for a mode on the same side of
      "text" as the room's own mode. */
  predicate RoomOk(r: Room)
  {
    |r.users| == 2 && forall u :: u in r.users ==> (u.mode == Text <==> r.mode == Text)
  }

  ghost predicate Wf(st: State)
  {
    && AtMostOnce(Placed(st))
    && (forall u :: u in st.textQueue ==> u.mode == Text)
    && (forall u :: u in st.videoQueue ==> u.mode != Text)
    && (forall r :: r in st.rooms ==> RoomOk(r))
    && DistinctIds(st.rooms)
  }

  lemma PlacedByMode(st: State, m: Mode)
    ensures Placed(st) == multiset(Sids(QueueFor(st, m))) + multiset(Sids(QueueFor(st, Opposite(m)))) + multiset(RoomSids(st.rooms))
  {
  }

  /** In a valid state both seats of a room are different connections. */
  lemma {:induction false} SeatsDistinct(st: State, k: nat)
    requires Wf(st) && k < |st.rooms|
    ensures |st.rooms[k].users| == 2
    ensures st.rooms[k].users[0].socketId != st.rooms[k].users[1].socketId
  {
    var users := st.rooms[k].users;
    assert st.rooms[k] in st.rooms;
    RoomSidsHas(st.rooms, k);
    assert Sids(users) == [users[0].socketId, users[1].socketId];
    assert Placed(st)[users[0].socketId] <= 1;
  }

  /** A connection seated in room `k` is in no queue and no other room. */
  lemma {:induction false} SeatedOnlyThere(st: State, k: nat, s: ConnId)
    requires Wf(st) && k < |st.rooms| && Hosts(st.rooms[k], s)
    ensures Count(st.textQueue, s) == 0 && Count(st.videoQueue, s) == 0
    ensures multiset(RoomSids(RemoveAt(st.rooms, k)))[s] == 0
    ensures forall j :: 0 <= j < |st.rooms| && j != k ==> !Hosts(st.rooms[j], s)
  {
    RoomSidsRemoveAt(st.rooms, k);
    assert Placed(st)[s] <= 1;
    var rest := RemoveAt(st.rooms, k);
    forall j | 0 <= j < |st.rooms| && j != k ensures !Hosts(st.rooms[j], s) {
      var j' := if j < k then j else j - 1;
      assert rest[j'] == st.rooms[j];
      RoomSidsHas(rest, j');
    }
  }

  // ---------------------------------------------------------------------
  // The helpers keep the invariant

  lemma SendKeepsWf(st: State, es: seq<Emit>)
    requires Wf(st)
    ensures Wf(Send(st, es))
  {
    assert Placed(Send(st, es)) == Placed(st);
  }

  lemma RemoveFromQueuesWf(st: State, s: ConnId)
    requires Wf(st)
    ensures Wf(RemoveFromQueues(st, s))
    ensures Count(RemoveFromQueues(st, s).textQueue, s) == 0
    ensures Count(RemoveFromQueues(st, s).videoQueue, s) == 0
  {
    var st' := RemoveFromQueues(st, s);
    RemoveConnCounts(st.textQueue, s);
    RemoveConnCounts(st.videoQueue, s);
    assert Placed(st') <= Placed(st);
    assert Placed(st)[s] <= 1;
    forall u | u in st'.textQueue ensures u.mode == Text {
      assert u in multiset(st'.textQueue);
    }
    forall u | u in st'.videoQueue ensures u.mode != Text {
      assert u in multiset(st'.videoQueue);
    }
  }

  /** `leaveRoom` keeps the invariant, with or without requeue: the room's
      seats are freed and at most refilled by queue entries of the same
      connections. */
  lemma LeaveRoomWf(st: State, s: ConnId, requeue: bool)
    requires Wf(st)
    ensures Wf(LeaveRoom(st, s, requeue))
  {
    var k := FirstRoom(st.rooms, s, false);
    if k >= 0 {
      var room := st.rooms[k];
      var st' := LeaveRoom(st, s, requeue);
      var q := QueueFor(st, room.mode);
      DeleteAt(st.rooms, k);
      DeleteKeepsDistinct(st.rooms, room.id);
      DeleteMembers(st.rooms, room.id);
      RoomSidsRemoveAt(st.rooms, k);
      PlacedByMode(st, room.mode);
      PlacedByMode(st', room.mode);
      assert room in st.rooms;
      if requeue {
        AddAbsentCounts(q, room.users);
        AddAbsentMembers(q, room.users);
        assert QueueFor(st', room.mode) == AddAbsent(q, room.users);
      } else {
        assert QueueFor(st', room.mode) == q;
      }
      assert Placed(st') <= Placed(st);
    }
  }

  /** Counting for a user who waits: its own entry replaces the old ones. */
  lemma CountsAfterWaiting(qs: multiset<ConnId>, os: multiset<ConnId>, rs: multiset<ConnId>, s: ConnId)
    requires AtMostOnce(qs + os + rs) && os[s] == 0 && rs[s] == 0
    ensures AtMostOnce(multiset{s} + os + rs)
  {
    forall c ensures (multiset{s} + os + rs)[c] <= 1 {
      assert (qs + os + rs)[c] <= 1;
    }
  }

  /** Counting for a match: both entries leave the queue and take the two
      seats of a room that may replace an older one. */
  lemma CountsAfterMatch(qs: multiset<ConnId>, os: multiset<ConnId>, rs: multiset<ConnId>, rs': multiset<ConnId>, s: ConnId, m: ConnId)
    requires AtMostOnce(qs + os + rs) && os[s] == 0 && rs[s] == 0
    requires m in qs && m != s
    requires rs' <= rs + multiset{s, m}
    ensures AtMostOnce(qs - multiset{s} - multiset{m} + os + rs')
  {
    forall c ensures (qs - multiset{s} - multiset{m} + os + rs')[c] <= 1 {
      assert (qs + os + rs)[c] <= 1;
    }
  }

  /** The matchmaking block keeps the invariant for a user whose connection
      is in no room and not in the queue of the other mode. */
  lemma MatchmakeWf(st: State, u: User, rng: Rng, rid: RoomId)
    requires Wf(st)
    requires multiset(RoomSids(st.rooms))[u.socketId] == 0
    requires Count(QueueFor(st, Opposite(u.mode)), u.socketId) == 0
    ensures Wf(Matchmake(st, u, rng, rid))
  {
    if RemoveConn(QueueFor(st, u.mode), u.socketId) == [] {
      MatchmakeWaitingWf(st, u, rng, rid);
    } else {
      MatchmakeFoundWf(st, u, rng, rid);
    }
  }

  lemma MatchmakeWaitingWf(st: State, u: User, rng: Rng, rid: RoomId)
    requires Wf(st)
    requires multiset(RoomSids(st.rooms))[u.socketId] == 0
    requires Count(QueueFor(st, Opposite(u.mode)), u.socketId) == 0
    requires RemoveConn(QueueFor(st, u.mode), u.socketId) == []
    ensures Wf(Matchmake(st, u, rng, rid))
  {
    var q := QueueFor(st, u.mode);
    var st' := Matchmake(st, u, rng, rid);
    MatchOutcomeEmpty(q, u, rng);
    assert st' == WithQueue(st, u.mode, [u]);
    PlacedByMode(st, u.mode);
    PlacedByMode(st', u.mode);
    assert Sids([u]) == [u.socketId];
    CountsAfterWaiting(multiset(Sids(q)), multiset(Sids(QueueFor(st, Opposite(u.mode)))), multiset(RoomSids(st.rooms)), u.socketId);
  }

  lemma MatchmakeFoundWf(st: State, u: User, rng: Rng, rid: RoomId)
    requires Wf(st)
    requires multiset(RoomSids(st.rooms))[u.socketId] == 0
    requires Count(QueueFor(st, Opposite(u.mode)), u.socketId) == 0
    requires RemoveConn(QueueFor(st, u.mode), u.socketId) != []
    ensures Wf(Matchmake(st, u, rng, rid))
  {
    MatchmakeFoundPlaced(st, u, rng, rid);
    MatchmakeFoundShapes(st, u, rng, rid);
  }

  lemma MatchmakeFoundPlaced(st: State, u: User, rng: Rng, rid: RoomId)
    requires AtMostOnce(Placed(st))
    requires multiset(RoomSids(st.rooms))[u.socketId] == 0
    requires Count(QueueFor(st, Opposite(u.mode)), u.socketId) == 0
    requires RemoveConn(QueueFor(st, u.mode), u.socketId) != []
    ensures AtMostOnce(Placed(Matchmake(st, u, rng, rid)))
  {
    var q := QueueFor(st, u.mode);
    QueuedAtMostOnce(st, u.mode, u.socketId);
    MatchmakeFoundSeats(st, u, rng, rid);
    MatchmakeFoundQueues(st, u, rng, rid);
    PlacedByMode(st, u.mode);
    CountsAfterMatch(multiset(Sids(q)), multiset(Sids(QueueFor(st, Opposite(u.mode)))), multiset(RoomSids(st.rooms)),
      multiset(RoomSids(Matchmake(st, u, rng, rid).rooms)), u.socketId, MatchOutcome(q, u, rng).found.value.socketId);
  }

  lemma QueuedAtMostOnce(st: State, m: Mode, s: ConnId)
    requires AtMostOnce(Placed(st))
    ensures Count(QueueFor(st, m), s) <= 1
  {
    PlacedByMode(st, m);
    assert Placed(st)[s] <= 1;
  }

  /** The seats a match adds: the two matched connections, the caller's
      entry leaving its queue and the match never being the caller. */
  lemma MatchmakeFoundSeats(st: State, u: User, rng: Rng, rid: RoomId)
    requires Count(QueueFor(st, u.mode), u.socketId) <= 1
    requires RemoveConn(QueueFor(st, u.mode), u.socketId) != []
    ensures MatchOutcome(QueueFor(st, u.mode), u, rng).found.Some?
    ensures var m := MatchOutcome(QueueFor(st, u.mode), u, rng).found.value;
            && m.socketId in multiset(Sids(QueueFor(st, u.mode))) && m.socketId != u.socketId
            && Matchmake(st, u, rng, rid).rooms == Put(st.rooms, Room(rid, u.mode, [u, m]))
            && multiset(RoomSids(Matchmake(st, u, rng, rid).rooms))
               <= multiset(RoomSids(st.rooms)) + multiset{u.socketId, m.socketId}
  {
    var q := QueueFor(st, u.mode);
    assert MatchOutcome(q, u, rng).found.Some? by { MatchOutcomeFound(q, u, rng); }
    var m := MatchOutcome(q, u, rng).found.value;
    assert m.socketId in multiset(Sids(q)) && m.socketId != u.socketId by {
      MatchOutcomeFound(q, u, rng);
      MatchOutcomeNotSelf(q, u, rng);
      SidOfMember(q, m);
    }
    var room := Room(rid, u.mode, [u, m]);
    assert Matchmake(st, u, rng, rid).rooms == Put(st.rooms, room) by {
      MatchmakeShape(st, u, rng, rid);
    }
    assert multiset(RoomSids(Put(st.rooms, room))) <= multiset(RoomSids(st.rooms)) + multiset{u.socketId, m.socketId} by {
      RoomSidsPut(st.rooms, room);
      assert Sids([u, m]) == [u.socketId, m.socketId];
    }
  }

  /** Where the queued places go when the matchmaking block finds a match. */
  lemma MatchmakeFoundQueues(st: State, u: User, rng: Rng, rid: RoomId)
    requires RemoveConn(QueueFor(st, u.mode), u.socketId) != []
    ensures MatchOutcome(QueueFor(st, u.mode), u, rng).found.Some?
    ensures var q := QueueFor(st, u.mode);
            var m := MatchOutcome(q, u, rng).found.value;
            var st' := Matchmake(st, u, rng, rid);
            Placed(st') == multiset(Sids(q)) - multiset{u.socketId} - multiset{m.socketId}
                           + multiset(Sids(QueueFor(st, Opposite(u.mode)))) + multiset(RoomSids(st'.rooms))
  {
    var q := QueueFor(st, u.mode);
    MatchOutcomeFound(q, u, rng);
    MatchmakeShape(st, u, rng, rid);
    PlacedByMode(Matchmake(st, u, rng, rid), u.mode);
  }

  lemma MatchmakeFoundShapes(st: State, u: User, rng: Rng, rid: RoomId)
    requires Wf(st)
    requires RemoveConn(QueueFor(st, u.mode), u.socketId) != []
    ensures var st' := Matchmake(st, u, rng, rid);
            && (forall x :: x in st'.textQueue ==> x.mode == Text)
            && (forall x :: x in st'.videoQueue ==> x.mode != Text)
            && (forall x :: x in st'.rooms ==> RoomOk(x))
            && DistinctIds(st'.rooms)
  {
    var q := QueueFor(st, u.mode);
    var r := MatchOutcome(q, u, rng);
    var st' := Matchmake(st, u, rng, rid);
    assert r.found.Some? && r.found.value in q && forall x :: x in r.queue ==> x in q by {
      MatchOutcomeFound(q, u, rng);
      RemoveConnCounts(q, u.socketId);
      forall x | x in r.queue ensures x in q {
        assert x in multiset(r.queue);
      }
    }
    var room := Room(rid, u.mode, [u, r.found.value]);
    assert st'.rooms == Put(st.rooms, room) && QueueFor(st', u.mode) == r.queue
        && QueueFor(st', Opposite(u.mode)) == QueueFor(st, Opposite(u.mode)) by {
      MatchmakeShape(st, u, rng, rid);
    }
    assert forall x :: x in q ==> (x.mode == Text <==> u.mode == Text);
    assert RoomOk(room);
    PutKeepsDistinct(st.rooms, room);
    PutMembers(st.rooms, room);
  }

  // ---------------------------------------------------------------------
  // Every handler keeps the invariant

  /** `join-queue` keeps the invariant when its sender is in no room. */
  lemma OnJoinQueueWf(st: State, s: ConnId, userId: string, userName: string, mode: Mode, rng: Rng, rid: RoomId)
    requires Wf(st)
    requires s !in RoomSids(st.rooms)
    ensures Wf(OnJoinQueue(st, s, userId, userName, mode, rng, rid))
  {
    var st1 := RemoveFromQueues(st, s);
    RemoveFromQueuesWf(st, s);
    assert st1.rooms == st.rooms;
    MatchmakeWf(st1, User(userId, userName, s, mode), rng, rid);
  }

  lemma RelayWf(st: State, s: ConnId, videoOnly: bool, e: Event)
    requires Wf(st)
    ensures Wf(Relay(st, s, videoOnly, e))
  {
    var k := FirstRoom(st.rooms, s, videoOnly);
    if k >= 0 {
      SendKeepsWf(st, ToOthers(st.rooms[k].users, s, [e]));
    }
  }

  /** `send-message`, `typing`, `call-offer`, `call-answer` and
      `ice-candidate` keep the invariant. */
  lemma RelayHandlersWf(st: State, s: ConnId, p: Payload)
    requires Wf(st)
    ensures Wf(OnSendMessage(st, s, p))
    ensures Wf(OnTyping(st, s))
    ensures Wf(OnCallOffer(st, s, p))
    ensures Wf(OnCallAnswer(st, s, p))
    ensures Wf(OnIceCandidate(st, s, p))
  {
    var k := FirstRoom(st.rooms, s, false);
    if k >= 0 {
      SendKeepsWf(st, ToOthers(st.rooms[k].users, s, [Message(p, OccupantOf(st.rooms[k], s).name)]));
    }
    RelayWf(st, s, false, Typing);
    RelayWf(st, s, true, CallOffer(s, p));
    RelayWf(st, s, true, CallAnswer(s, p));
    RelayWf(st, s, false, IceCandidate(s, p));
  }

  /** After `leaveRoom` with requeue, the leaver's occupant record sits in
      no room and not in the queue of the other mode. */
  lemma LeaveRoomFrees(st: State, s: ConnId)
    requires Wf(st) && FirstRoom(st.rooms, s, false) >= 0
    ensures var room := st.rooms[FirstRoom(st.rooms, s, false)];
            var u := OccupantOf(room, s);
            var st1 := LeaveRoom(st, s, true);
            && multiset(RoomSids(st1.rooms))[u.socketId] == 0
            && Count(QueueFor(st1, Opposite(u.mode)), u.socketId) == 0
  {
    var k := FirstRoom(st.rooms, s, false);
    var room := st.rooms[k];
    var u := OccupantOf(room, s);
    SeatedOnlyThere(st, k, s);
    DeleteAt(st.rooms, k);
    LeaveRoomShape(st, s, true);
    assert room in st.rooms;
    assert Opposite(u.mode) == Opposite(room.mode);
  }

  lemma ProceedToFindNewWf(st: State, s: ConnId, rng: Rng, rid: RoomId)
    requires Wf(st)
    ensures Wf(ProceedToFindNew(st, s, rng, rid))
  {
    var k := FirstRoom(st.rooms, s, false);
    if k >= 0 {
      LeaveRoomWf(st, s, true);
      LeaveRoomFrees(st, s);
      MatchmakeWf(LeaveRoom(st, s, true), OccupantOf(st.rooms[k], s), rng, rid);
    }
  }

  lemma OnPeerConfirmFindNewWf(st: State, s: ConnId, rng1: Rng, rid1: RoomId, rng2: Rng, rid2: RoomId)
    requires Wf(st)
    ensures Wf(OnPeerConfirmFindNew(st, s, rng1, rid1, rng2, rid2))
  {
    match UserBySocketId(st, s)
    case None =>
    case Some(loc) =>
      var other := PeerInRoom(st, loc.roomId, s);
      var st1 := LeaveRoom(st, s, true);
      LeaveRoomWf(st, s, true);
      var st2 := if other.Some? then LeaveRoom(st1, other.value.socketId, true) else st1;
      if other.Some? {
        LeaveRoomWf(st1, other.value.socketId, true);
      }
      var st3 := ProceedToFindNew(st2, s, rng1, rid1);
      ProceedToFindNewWf(st2, s, rng1, rid1);
      if other.Some? {
        ProceedToFindNewWf(st3, other.value.socketId, rng2, rid2);
      }
  }

  /** The queue branch of find-new: matchmaking for a queued, unseated record. */
  lemma FindNewQueuedKeepsWf(st: State, s: ConnId, rng: Rng, rid: RoomId)
    requires Wf(st)
    requires FirstRoom(st.rooms, s, false) < 0
    requires UserFromQueue(st, s).Some?
    ensures Wf(Matchmake(st, UserFromQueue(st, s).value, rng, rid))
  {
    var qu := UserFromQueue(st, s).value;
    assert qu.socketId == s && multiset(RoomSids(st.rooms))[s] == 0 by {
      FirstRoomFinds(st.rooms, s);
    }
    var i := IndexOf(st.textQueue, s);
    if i >= 0 {
      assert qu.mode == Text;
      assert Count(QueueFor(st, Opposite(qu.mode)), s) == 0 by {
        assert Sids(st.textQueue)[i] == s;
        assert multiset(Sids(st.textQueue))[s] >= 1;
        assert Placed(st)[s] <= 1;
      }
    } else {
      assert qu.mode != Text;
      assert s !in Sids(st.textQueue);
    }
    MatchmakeWf(st, qu, rng, rid);
  }

  lemma OnFindNewWf(st: State, s: ConnId, rng: Rng, rid: RoomId)
    requires Wf(st)
    ensures Wf(OnFindNew(st, s, rng, rid))
  {
    match UserBySocketId(st, s)
    case None =>
      if UserFromQueue(st, s).Some? {
        FindNewQueuedKeepsWf(st, s, rng, rid);
      }
    case Some(loc) =>
      var other := PeerInRoom(st, loc.roomId, s);
      if other.Some? {
        SendKeepsWf(st, [Emit(other.value.socketId, PeerWantsFindNew)]);
      }
  }

  lemma OnEndCallWf(st: State, s: ConnId)
    requires Wf(st)
    ensures Wf(OnEndCall(st, s))
  {
    var k := FirstRoom(st.rooms, s, false);
    var st1 := if k < 0 then st else Send(st, ToOthers(st.rooms[k].users, s, [CallEnded]));
    if k >= 0 {
      SendKeepsWf(st, ToOthers(st.rooms[k].users, s, [CallEnded]));
    }
    LeaveRoomWf(st1, s, true);
  }

  lemma OnDisconnectWf(st: State, s: ConnId)
    requires Wf(st)
    ensures Wf(OnDisconnect(st, s))
  {
    LeaveRoomWf(st, s, true);
    RemoveFromQueuesWf(LeaveRoom(st, s, true), s);
  }

  // ---------------------------------------------------------------------
  // The precondition of OnJoinQueueWf cannot be dropped

  /** Two connections sharing a text room, nothing queued. */
  function SharedTextRoom(): (st': State)
  {
    State([], [], [Room("r1", Text, [User("1", "A", "a", Text), User("2", "B", "b", Text)])], [])
  }

  lemma SharedTextRoomWf()
    ensures Wf(SharedTextRoom())
    ensures multiset(RoomSids(SharedTextRoom().rooms)) == multiset{"a", "b"}
  {
    var st := SharedTextRoom();
    var room := st.rooms[0];
    RoomSidsCons(room, []);
    assert [room] + [] == [room];
    assert Sids(room.users) == ["a", "b"];
    assert Placed(st) == multiset{"a", "b"};
    assert "a"[0] != "b"[0];
    forall c ensures multiset{"a", "b"}[c] <= 1 {
    }
    assert RoomOk(room);
  }

  /** `join-queue` does not take its sender out of the room it sits in: from
      a valid state where `a` shares a text room with `b`, a `join-queue` of
      `a` for video leaves `a` both seated and queued. */
  lemma JoinQueueFromRoomBreaksWf(rng: Rng)
    ensures Wf(SharedTextRoom())
    ensures var st' := OnJoinQueue(SharedTextRoom(), "a", "1", "A", Video, rng, "r2");
            && st'.videoQueue == [User("1", "A", "a", Video)]
            && st'.rooms == SharedTextRoom().rooms
            && !Wf(st')
  {
    var st := SharedTextRoom();
    SharedTextRoomWf();
    var a' := User("1", "A", "a", Video);
    assert RemoveFromQueues(st, "a") == st;
    MatchOutcomeEmpty([], a', rng);
    MatchmakeShape(st, a', rng, "r2");
    var st' := OnJoinQueue(st, "a", "1", "A", Video, rng, "r2");
    assert st'.videoQueue == [a'] && st'.textQueue == [] && st'.rooms == st.rooms;
    assert Sids([a']) == ["a"];
    assert Placed(st') == multiset{"a"} + multiset{"a", "b"};
    assert Placed(st')["a"] == 2;
  }
}

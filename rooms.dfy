/** The room registry (`activeRooms`, a JavaScript Map kept as its entries in
    insertion order, key = room id) and the per-room helpers: which room a
    scan over the registry stops at, who the other occupant is, the events a
    `forEach` over the occupants delivers, and the duplicate-free requeue. */
module Rooms {
  import opened Model
  import opened Queues

  /** `room.users.some(u => u.socketId === s)`. */
  predicate Hosts(r: Room, s: ConnId)
  {
    s in Sids(r.users)
  }

  /** The test of a registry scan: the room hosts `s` and, for the call
      signalling handlers, its mode is exactly "video". */
  predicate Selects(r: Room, s: ConnId, videoOnly: bool)
  {
    Hosts(r, s) && (videoOnly ==> r.mode == Video)
  }

  /** The entry a `for…of` over the registry breaks at: the first room that
      `Selects`, or -1 when the scan runs to the end. */
  function FirstRoom(rooms: seq<Room>, s: ConnId, videoOnly: bool): (k: int)
    ensures -1 <= k < |rooms|
    ensures 0 <= k ==> Selects(rooms[k], s, videoOnly)
    ensures forall j :: 0 <= j < |rooms| && (k < 0 || j < k) ==> !Selects(rooms[j], s, videoOnly)
  {
    if |rooms| == 0 then -1
    else if Selects(rooms[0], s, videoOnly) then 0
    else
      var k := FirstRoom(rooms[1..], s, videoOnly);
      if k < 0 then -1 else k + 1
  }

  /** The index of the entry with key `id`, or -1. */
  function KeyIndex(rooms: seq<Room>, id: RoomId): (k: int)
    ensures -1 <= k < |rooms|
    ensures 0 <= k ==> rooms[k].id == id
    ensures forall j :: 0 <= j < |rooms| && (k < 0 || j < k) ==> rooms[j].id != id
  {
    if |rooms| == 0 then -1
    else if rooms[0].id == id then 0
    else
      var k := KeyIndex(rooms[1..], id);
      if k < 0 then -1 else k + 1
  }

  /** Room ids are distinct: the entries form a Map. */
  predicate DistinctIds(rooms: seq<Room>)
  {
    forall i, j :: 0 <= i < j < |rooms| ==> rooms[i].id != rooms[j].id
  }

  /** `activeRooms.set(r.id, r)`: an existing key keeps its place and gets
      the new value; a new key is appended. */
  function Put(rooms: seq<Room>, r: Room): (rooms': seq<Room>)
  {
    var k := KeyIndex(rooms, r.id);
    if k < 0 then rooms + [r] else rooms[k := r]
  }

  /** `activeRooms.delete(id)`. */
  function Delete(rooms: seq<Room>, id: RoomId): (rooms': seq<Room>)
  {
    var k := KeyIndex(rooms, id);
    if k < 0 then rooms else RemoveAt(rooms, k)
  }

  /** The first occupant of `r` on connection `s` (`users.find`). */
  function OccupantOf(r: Room, s: ConnId): (u: User)
    requires Hosts(r, s)
    ensures u in r.users && u.socketId == s
  {
    HostsIndexOf(r.users, s);
    r.users[IndexOf(r.users, s)]
  }

  /** An id present among the occupants is found by `findIndex`. */
  lemma HostsIndexOf(users: seq<User>, s: ConnId)
    ensures s in Sids(users) ==> IndexOf(users, s) >= 0
  {
    if s in Sids(users) {
      var j :| 0 <= j < |users| && Sids(users)[j] == s;
      assert users[j].socketId == s;
    }
  }

  /** The first occupant of `r` on another connection than `s`
      (`users.find(u => u.socketId !== s)`), if any. */
  function PeerOf(r: Room, s: ConnId): (p: Option<User>)
    ensures p.Some? ==> p.value in r.users && p.value.socketId != s
    ensures p.None? ==> forall u :: u in r.users ==> u.socketId == s
  {
    PeerIn(r.users, s)
  }

  function PeerIn(users: seq<User>, s: ConnId): (p: Option<User>)
    ensures p.Some? ==> p.value in users && p.value.socketId != s
    ensures p.None? ==> forall u :: u in users ==> u.socketId == s
  {
    if users == [] then None
    else if users[0].socketId != s then Some(users[0])
    else PeerIn(users[1..], s)
  }

  /** Each event of `es`, delivered to connection `c`, in order. */
  function Deliver(c: ConnId, es: seq<Event>): (out: seq<Emit>)
  {
    seq(|es|, i requires 0 <= i < |es| => Emit(c, es[i]))
  }

  /** `users.forEach(u => { if (u.socketId !== s) emit each of es to u })`,
      built from the last occupant back, the way the loop appends. */
  function ToOthers(users: seq<User>, s: ConnId, es: seq<Event>): (out: seq<Emit>)
  {
    if users == [] then []
    else
      var u := users[|users| - 1];
      ToOthers(users[..|users| - 1], s, es) + (if u.socketId != s then Deliver(u.socketId, es) else [])
  }

  /** The requeue `forEach`: each occupant is pushed unless the queue, as it
      stands at that moment, already has an entry for its connection. */
  function AddAbsent(q: seq<User>, users: seq<User>): (q': seq<User>)
  {
    if users == [] then q
    else
      var q' := AddAbsent(q, users[..|users| - 1]);
      var u := users[|users| - 1];
      if u.socketId in Sids(q') then q' else q' + [u]
  }

  /** The connection ids of every occupant of every room, room by room. */
  function RoomSids(rooms: seq<Room>): (ids: seq<ConnId>)
  {
    if rooms == [] then [] else Sids(rooms[0].users) + RoomSids(rooms[1..])
  }

  // ---------------------------------------------------------------------
  // The registry scan

  /** The `for…of` loop over `activeRooms` that breaks at the first room
      selected for `s`; -1 when none is. */
  method ScanRooms(rooms: seq<Room>, s: ConnId, videoOnly: bool) returns (k: int)
    ensures -1 <= k < |rooms|
    ensures 0 <= k ==> Selects(rooms[k], s, videoOnly)
    ensures forall j :: 0 <= j < |rooms| && (k < 0 || j < k) ==> !Selects(rooms[j], s, videoOnly)
    ensures k == FirstRoom(rooms, s, videoOnly)
  {
    k := -1;
    var i := 0;
    while i < |rooms|
      invariant 0 <= i <= |rooms| && k == -1
      invariant forall j :: 0 <= j < i ==> !Selects(rooms[j], s, videoOnly)
    {
      if Selects(rooms[i], s, videoOnly) {
        k := i;
        break;
      }
      i := i + 1;
    }
  }

  // ---------------------------------------------------------------------
  // Facts about the registry and its helpers

  /** The index of a room in a Map is found by its key. */
  lemma KeyIndexOfDistinct(rooms: seq<Room>, k: nat)
    requires DistinctIds(rooms) && k < |rooms|
    ensures KeyIndex(rooms, rooms[k].id) == k
  {
  }

  /** With distinct keys, deleting the key of entry `k` removes exactly that
      entry and keeps every other entry in order. */
  lemma DeleteAt(rooms: seq<Room>, k: nat)
    requires DistinctIds(rooms) && k < |rooms|
    ensures Delete(rooms, rooms[k].id) == RemoveAt(rooms, k)
  {
    KeyIndexOfDistinct(rooms, k);
  }

  /** A fresh key is appended; a Map stays a Map under `set` and `delete`. */
  lemma PutFresh(rooms: seq<Room>, r: Room)
    requires forall j :: 0 <= j < |rooms| ==> rooms[j].id != r.id
    ensures Put(rooms, r) == rooms + [r]
  {
  }

  lemma PutKeepsDistinct(rooms: seq<Room>, r: Room)
    requires DistinctIds(rooms)
    ensures DistinctIds(Put(rooms, r))
  {
  }

  lemma DeleteKeepsDistinct(rooms: seq<Room>, id: RoomId)
    requires DistinctIds(rooms)
    ensures DistinctIds(Delete(rooms, id))
  {
    var k := KeyIndex(rooms, id);
    if k >= 0 {
      var r := RemoveAt(rooms, k);
      forall i, j | 0 <= i < j < |r| ensures r[i].id != r[j].id {
        var i' := if i < k then i else i + 1;
        var j' := if j < k then j else j + 1;
        assert r[i] == rooms[i'] && r[j] == rooms[j'];
      }
    }
  }

  lemma {:induction false} RoomSidsConcat(a: seq<Room>, b: seq<Room>)
    ensures RoomSids(a + b) == RoomSids(a) + RoomSids(b)
  {
    if a == [] {
      assert a + b == b;
    } else {
      assert (a + b)[0] == a[0];
      assert (a + b)[1..] == a[1..] + b;
      RoomSidsConcat(a[1..], b);
    }
  }

  lemma RoomSidsCons(x: Room, b: seq<Room>)
    ensures RoomSids([x] + b) == Sids(x.users) + RoomSids(b)
  {
    assert ([x] + b)[0] == x;
    assert ([x] + b)[1..] == b;
  }

  lemma RoomSidsSplit(rooms: seq<Room>, k: nat)
    requires k < |rooms|
    ensures RoomSids(rooms) == RoomSids(rooms[..k]) + Sids(rooms[k].users) + RoomSids(rooms[k + 1..])
    ensures RoomSids(RemoveAt(rooms, k)) == RoomSids(rooms[..k]) + RoomSids(rooms[k + 1..])
  {
    var a, b := rooms[..k], rooms[k + 1..];
    var x := rooms[k];
    assert rooms == a + ([x] + b);
    RoomSidsConcat(a, [x] + b);
    RoomSidsCons(x, b);
    var ra, rx, rb := RoomSids(a), Sids(x.users), RoomSids(b);
    assert ra + (rx + rb) == ra + rx + rb;
    RoomSidsConcat(a, b);
  }

  /** Removing an entry removes exactly its occupants' ids. */
  lemma RoomSidsRemoveAt(rooms: seq<Room>, k: nat)
    requires k < |rooms|
    ensures multiset(RoomSids(rooms)) == multiset(RoomSids(RemoveAt(rooms, k))) + multiset(Sids(rooms[k].users))
  {
    RoomSidsSplit(rooms, k);
    var a, m, b := RoomSids(rooms[..k]), Sids(rooms[k].users), RoomSids(rooms[k + 1..]);
    assert multiset(a + m + b) == multiset(a) + multiset(m) + multiset(b);
    assert multiset(a + b) == multiset(a) + multiset(b);
  }

  /** `set` with a fresh key adds exactly the new room's occupants. */
  lemma RoomSidsAppend(rooms: seq<Room>, r: Room)
    ensures multiset(RoomSids(rooms + [r])) == multiset(RoomSids(rooms)) + multiset(Sids(r.users))
  {
    RoomSidsConcat(rooms, [r]);
    assert RoomSids([r]) == Sids(r.users) by {
      RoomSidsCons(r, []);
      assert [r] + [] == [r];
    }
  }

  /** Overwriting entry `k` drops exactly its occupants and adds the new room's. */
  lemma RoomSidsReplace(rooms: seq<Room>, k: nat, r: Room)
    requires k < |rooms|
    ensures multiset(RoomSids(rooms[k := r])) + multiset(Sids(rooms[k].users))
            == multiset(RoomSids(rooms)) + multiset(Sids(r.users))
  {
    RoomSidsRemoveAt(rooms, k);
    RoomSidsRemoveAt(rooms[k := r], k);
    assert RemoveAt(rooms[k := r], k) == RemoveAt(rooms, k);
  }

  /** `set` adds exactly the new room's occupants and drops exactly those of
      the room it overwrites, if any. */
  lemma RoomSidsPut(rooms: seq<Room>, r: Room)
    ensures KeyIndex(rooms, r.id) < 0 ==>
              multiset(RoomSids(Put(rooms, r))) == multiset(RoomSids(rooms)) + multiset(Sids(r.users))
    ensures var k := KeyIndex(rooms, r.id);
            k >= 0 ==>
              multiset(RoomSids(Put(rooms, r))) + multiset(Sids(rooms[k].users))
              == multiset(RoomSids(rooms)) + multiset(Sids(r.users))
    ensures multiset(RoomSids(Put(rooms, r))) <= multiset(RoomSids(rooms)) + multiset(Sids(r.users))
  {
    var k := KeyIndex(rooms, r.id);
    if k < 0 {
      RoomSidsAppend(rooms, r);
    } else {
      RoomSidsReplace(rooms, k, r);
    }
  }

  /** A room's occupants are among the registry's ids. */
  lemma {:induction false} RoomSidsHas(rooms: seq<Room>, k: nat)
    requires k < |rooms|
    ensures multiset(Sids(rooms[k].users)) <= multiset(RoomSids(rooms))
  {
    RoomSidsRemoveAt(rooms, k);
  }

  /** A scan finds `s` exactly when some room hosts it. */
  lemma FirstRoomFinds(rooms: seq<Room>, s: ConnId)
    ensures FirstRoom(rooms, s, false) >= 0 <==> s in RoomSids(rooms)
  {
    var k := FirstRoom(rooms, s, false);
    if k >= 0 {
      RoomSidsHas(rooms, k);
      assert s in multiset(Sids(rooms[k].users));
    } else {
      RoomSidsNone(rooms, s);
    }
  }

  lemma {:induction false} RoomSidsNone(rooms: seq<Room>, s: ConnId)
    requires forall j :: 0 <= j < |rooms| ==> !Hosts(rooms[j], s)
    ensures s !in RoomSids(rooms)
  {
    if rooms != [] {
      assert !Hosts(rooms[0], s);
      RoomSidsNone(rooms[1..], s);
    }
  }

  // ---------------------------------------------------------------------
  // Facts about the occupant loops

  lemma ToOthersStep(users: seq<User>, i: nat, s: ConnId, es: seq<Event>)
    requires i < |users|
    ensures ToOthers(users[..i + 1], s, es)
         == ToOthers(users[..i], s, es) + (if users[i].socketId != s then Deliver(users[i].socketId, es) else [])
  {
    assert users[..i + 1][..i] == users[..i];
  }

  /** The events for the other occupants never go to `s` itself, and each
      goes to an occupant of the room. */
  lemma {:induction false} ToOthersTargets(users: seq<User>, s: ConnId, es: seq<Event>)
    ensures forall e :: e in ToOthers(users, s, es) ==> e.to != s && e.to in Sids(users) && e.event in es
  {
    if users != [] {
      var init := users[..|users| - 1];
      var last := users[|users| - 1];
      ToOthersTargets(init, s, es);
      assert Sids(users) == Sids(init) + [last.socketId] by {
        assert users == init + [last];
        SidsConcat(init, [last]);
      }
      forall e | e in ToOthers(users, s, es)
        ensures e.to != s && e.to in Sids(users) && e.event in es
      {
        if e !in ToOthers(init, s, es) {
          var i :| 0 <= i < |es| && e == Deliver(last.socketId, es)[i];
        }
      }
    }
  }

  /** Conversely, every occupant on another connection than `s` receives
      each of the events. */
  lemma {:induction false} ToOthersReaches(users: seq<User>, s: ConnId, es: seq<Event>, u: User, e: Event)
    requires u in users && u.socketId != s && e in es
    ensures Emit(u.socketId, e) in ToOthers(users, s, es)
  {
    var init := users[..|users| - 1];
    var last := users[|users| - 1];
    if u == last {
      var i :| 0 <= i < |es| && es[i] == e;
      assert Deliver(u.socketId, es)[i] == Emit(u.socketId, e);
    } else {
      assert users == init + [last];
      assert u in init;
      ToOthersReaches(init, s, es, u, e);
    }
  }

  /** In a two-person room `[a, b]`, the others of `a` are just `b`. */
  lemma ToOthersPair(a: User, b: User, es: seq<Event>)
    requires a.socketId != b.socketId
    ensures ToOthers([a, b], a.socketId, es) == Deliver(b.socketId, es)
    ensures ToOthers([a, b], b.socketId, es) == Deliver(a.socketId, es)
  {
    assert [a, b][..1] == [a];
    assert [a][..0] == [];
    assert ToOthers([a], a.socketId, es) == [];
    assert ToOthers([a], b.socketId, es) == Deliver(a.socketId, es);
  }

  /** The requeue adds nothing but occupants. */
  lemma {:induction false} AddAbsentMembers(q: seq<User>, users: seq<User>)
    ensures forall u :: u in AddAbsent(q, users) ==> u in q || u in users
  {
    if users != [] {
      AddAbsentMembers(q, users[..|users| - 1]);
      forall u | u in users[..|users| - 1] ensures u in users {
      }
    }
  }

  /** `set` keeps every other entry and adds only the new room. */
  lemma PutMembers(rooms: seq<Room>, r: Room)
    ensures forall x :: x in Put(rooms, r) ==> x in rooms || x == r
  {
  }

  /** `delete` only removes entries. */
  lemma DeleteMembers(rooms: seq<Room>, id: RoomId)
    ensures forall x :: x in Delete(rooms, id) ==> x in rooms
  {
  }

  lemma AddAbsentStep(q: seq<User>, users: seq<User>, i: nat)
    requires i < |users|
    ensures AddAbsent(q, users[..i + 1])
         == (var q' := AddAbsent(q, users[..i]);
             if users[i].socketId in Sids(q') then q' else q' + [users[i]])
  {
    assert users[..i + 1][..i] == users[..i];
  }

  /** The requeue only appends: the old queue is a prefix, every occupant's
      connection ends up in the queue, and each new entry is an occupant
      whose connection was absent. */
  lemma {:induction false} AddAbsentSpec(q: seq<User>, users: seq<User>)
    ensures var r := AddAbsent(q, users);
            && q <= r
            && (forall u :: u in users ==> u.socketId in Sids(r))
            && (forall i :: |q| <= i < |r| ==> r[i] in users && r[i].socketId !in Sids(q))
  {
    if users != [] {
      var init := users[..|users| - 1];
      var u := users[|users| - 1];
      AddAbsentSpec(q, init);
      var q' := AddAbsent(q, init);
      var r := AddAbsent(q, users);
      assert users == init + [u];
      if u.socketId !in Sids(q') {
        SidsConcat(q', [u]);
        forall i | |q| <= i < |r| ensures r[i] in users && r[i].socketId !in Sids(q) {
          if i == |r| - 1 {
            assert Sids(q')[..|q|] == Sids(q);
          }
        }
        forall v | v in users ensures v.socketId in Sids(r) {
          if v != u {
            assert v in init;
          } else {
            assert Sids(r)[|r| - 1] == u.socketId;
          }
        }
      } else {
        forall v | v in users ensures v.socketId in Sids(r) {
          if v != u {
            assert v in init;
          }
        }
      }
    }
  }

  /** The requeue never duplicates a connection: one that appeared at most
      once still appears at most once, and every added id is an occupant's. */
  lemma {:induction false} AddAbsentCounts(q: seq<User>, users: seq<User>)
    ensures var r := AddAbsent(q, users);
            && (forall c :: Count(q, c) <= 1 ==> Count(r, c) <= 1)
            && multiset(Sids(r)) <= multiset(Sids(q)) + multiset(Sids(users))
  {
    if users != [] {
      var init := users[..|users| - 1];
      var u := users[|users| - 1];
      AddAbsentCounts(q, init);
      var q' := AddAbsent(q, init);
      var r := AddAbsent(q, users);
      assert users == init + [u];
      SidsConcat(init, [u]);
      if u.socketId !in Sids(q') {
        SidsConcat(q', [u]);
        forall c | Count(q, c) <= 1 ensures Count(r, c) <= 1 {
          assert Count(r, c) == Count(q', c) + (if c == u.socketId then 1 else 0);
        }
      }
    }
  }
}

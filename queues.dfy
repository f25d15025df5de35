/** The two waiting queues: lookup and removal by connection, the in-place
    Fisher–Yates shuffle, and `findMatch`, which pairs a user with a random
    waiting entry or enqueues it. */
module Queues {
  import opened Model

  /** The connection ids of a queue, in queue order. */
  function Sids(q: seq<User>): (ids: seq<ConnId>)
  {
    seq(|q|, i requires 0 <= i < |q| => q[i].socketId)
  }

  /** The number of entries of `q` that belong to connection `s`. */
  function Count(q: seq<User>, s: ConnId): (n: nat)
  {
    multiset(Sids(q))[s]
  }

  /** `findIndex` by connection: the first index holding `s`, or -1. */
  function IndexOf(q: seq<User>, s: ConnId): (k: int)
    ensures -1 <= k < |q|
    ensures 0 <= k ==> q[k].socketId == s
    ensures forall j :: 0 <= j < |q| && (k < 0 || j < k) ==> q[j].socketId != s
  {
    if |q| == 0 then -1
    else if q[0].socketId == s then 0
    else
      var k := IndexOf(q[1..], s);
      if k < 0 then -1 else k + 1
  }

  /** `splice(k, 1)`: the sequence without its element at `k`. */
  function RemoveAt<T>(q: seq<T>, k: nat): (b: seq<T>)
    requires k < |q|
  {
    q[..k] + q[k + 1..]
  }

  /** `findIndex` followed by `splice`: drops the first entry of connection `s`, if any. */
  function RemoveConn(q: seq<User>, s: ConnId): (q': seq<User>)
  {
    var k := IndexOf(q, s);
    if k < 0 then q else RemoveAt(q, k)
  }

  /** The entries of `q` that do not belong to `s`, in their original order. */
  function Without(q: seq<User>, s: ConnId): (q': seq<User>)
  {
    if q == [] then []
    else (if q[0].socketId == s then [] else [q[0]]) + Without(q[1..], s)
  }

  /** Exchanges the elements at `i` and `j` (the destructuring swap). */
  function Swap<T>(a: seq<T>, i: nat, j: nat): (b: seq<T>)
    requires i < |a| && j < |a|
  {
    a[i := a[j]][j := a[i]]
  }

  /** The Fisher–Yates shuffle from index `i` down to 1: step `i` swaps
      `i` with the drawn index `rng(i) % (i + 1)`. */
  function ShuffleFrom<T>(a: seq<T>, i: int, rng: Rng): (b: seq<T>)
    requires i < |a|
    decreases i
  {
    if i <= 0 then a else ShuffleFrom(Swap(a, i, rng(i) % (i + 1)), i - 1, rng)
  }

  /** `shuffleArray(a)` for the draws given by `rng`. */
  function Shuffled<T>(a: seq<T>, rng: Rng): (b: seq<T>)
  {
    ShuffleFrom(a, |a| - 1, rng)
  }

  /** What `findMatch` leaves in the queue and what it returns. */
  datatype MatchResult = MatchResult(queue: seq<User>, found: Option<User>)

  /** `findMatch(queue, user)`: remove the user's entry, shuffle, then take
      the head as the match, or enqueue the user if nobody is left. */
  function MatchOutcome(q: seq<User>, u: User, rng: Rng): (res: MatchResult)
  {
    var rest := Shuffled(RemoveConn(q, u.socketId), rng);
    if |rest| > 0 then MatchResult(rest[1..], Some(rest[0]))
    else MatchResult(rest + [u], None)
  }

  // ---------------------------------------------------------------------
  // Facts about sequences of connection ids

  lemma SidsConcat(a: seq<User>, b: seq<User>)
    ensures Sids(a + b) == Sids(a) + Sids(b)
  {
  }

  lemma MultisetRemoveAt<T>(a: seq<T>, k: nat)
    requires k < |a|
    ensures multiset(RemoveAt(a, k)) == multiset(a) - multiset{a[k]}
  {
    assert a == a[..k] + [a[k]] + a[k + 1..];
  }

  lemma SidsRemoveAt(q: seq<User>, k: nat)
    requires k < |q|
    ensures Sids(RemoveAt(q, k)) == RemoveAt(Sids(q), k)
  {
  }

  /** Removal by connection takes exactly one `s` out of the id multiset
      (none when there is none), and adds no entry. */
  lemma RemoveConnCounts(q: seq<User>, s: ConnId)
    ensures multiset(Sids(RemoveConn(q, s))) == multiset(Sids(q)) - multiset{s}
    ensures multiset(RemoveConn(q, s)) <= multiset(q)
  {
    var k := IndexOf(q, s);
    if k < 0 {
      assert s !in Sids(q);
    } else {
      SidsRemoveAt(q, k);
      MultisetRemoveAt(Sids(q), k);
      MultisetRemoveAt(q, k);
    }
  }

  lemma SidsTail(q: seq<User>)
    requires q != []
    ensures Sids(q) == [q[0].socketId] + Sids(q[1..])
  {
  }

  lemma {:induction false} WithoutAbsent(q: seq<User>, s: ConnId)
    requires Count(q, s) == 0
    ensures Without(q, s) == q
  {
    if q != [] {
      SidsTail(q);
      WithoutAbsent(q[1..], s);
    }
  }

  lemma RemoveConnCons(q: seq<User>, s: ConnId)
    requires q != [] && q[0].socketId != s
    ensures RemoveConn(q, s) == [q[0]] + RemoveConn(q[1..], s)
  {
    var t := q[1..];
    var k := IndexOf(t, s);
    assert IndexOf(q, s) == if k < 0 then -1 else k + 1;
    if k >= 0 {
      assert q[..k + 1] == [q[0]] + t[..k];
      assert q[k + 2..] == t[k + 1..];
    }
  }

  /** When the queue holds `s` at most once, removal by connection keeps
      every other entry, in its original order. */
  lemma {:induction false} RemoveConnIsWithout(q: seq<User>, s: ConnId)
    requires Count(q, s) <= 1
    ensures RemoveConn(q, s) == Without(q, s)
  {
    if q != [] {
      SidsTail(q);
      assert Count(q, s) == (if q[0].socketId == s then 1 else 0) + Count(q[1..], s);
      if q[0].socketId == s {
        assert RemoveConn(q, s) == q[1..];
        WithoutAbsent(q[1..], s);
      } else {
        RemoveConnIsWithout(q[1..], s);
        RemoveConnCons(q, s);
      }
    }
  }

  /** When the queue holds `s` at most once, no entry of `s` is left after removal. */
  lemma RemoveConnClears(q: seq<User>, s: ConnId)
    requires Count(q, s) <= 1
    ensures Count(RemoveConn(q, s), s) == 0
  {
    RemoveConnCounts(q, s);
  }

  /** Removing `s` twice is the same as removing it once, when the queue
      held it at most once. */
  lemma RemoveConnIdempotent(q: seq<User>, s: ConnId)
    requires Count(q, s) <= 1
    ensures RemoveConn(RemoveConn(q, s), s) == RemoveConn(q, s)
  {
    RemoveConnClears(q, s);
    FoundIsCounted(RemoveConn(q, s), s);
  }

  lemma SidOfMember(q: seq<User>, x: User)
    requires x in q
    ensures x.socketId in multiset(Sids(q))
  {
    var i :| 0 <= i < |q| && q[i] == x;
    assert Sids(q)[i] == x.socketId;
  }

  lemma FoundIsCounted(q: seq<User>, s: ConnId)
    ensures 0 <= IndexOf(q, s) ==> Count(q, s) > 0
  {
    var k := IndexOf(q, s);
    if k >= 0 {
      assert Sids(q)[k] == s;
    }
  }

  // ---------------------------------------------------------------------
  // The shuffle is a permutation

  lemma SwapPermutes<T>(a: seq<T>, i: nat, j: nat)
    requires i < |a| && j < |a|
    ensures |Swap(a, i, j)| == |a|
    ensures multiset(Swap(a, i, j)) == multiset(a)
  {
  }

  /** Every suffix of the shuffle only exchanges elements: same length, same multiset. */
  lemma {:induction false} ShuffleFromPermutes<T>(a: seq<T>, i: int, rng: Rng)
    requires i < |a|
    ensures |ShuffleFrom(a, i, rng)| == |a|
    ensures multiset(ShuffleFrom(a, i, rng)) == multiset(a)
    decreases i
  {
    if i > 0 {
      var j := rng(i) % (i + 1);
      SwapPermutes(a, i, j);
      ShuffleFromPermutes(Swap(a, i, j), i - 1, rng);
    }
  }

  /** For any draws, the shuffled queue is a permutation of the input. */
  lemma ShuffledPermutes<T>(a: seq<T>, rng: Rng)
    ensures |Shuffled(a, rng)| == |a|
    ensures multiset(Shuffled(a, rng)) == multiset(a)
  {
    ShuffleFromPermutes(a, |a| - 1, rng);
  }

  lemma {:induction false} ShuffleFromSids(q: seq<User>, i: int, rng: Rng)
    requires i < |q|
    ensures Sids(ShuffleFrom(q, i, rng)) == ShuffleFrom(Sids(q), i, rng)
    decreases i
  {
    if i > 0 {
      var j := rng(i) % (i + 1);
      assert Sids(Swap(q, i, j)) == Swap(Sids(q), i, j);
      ShuffleFromSids(Swap(q, i, j), i - 1, rng);
    }
  }

  /** Shuffling keeps the multiset of connection ids. */
  lemma ShuffledSids(q: seq<User>, rng: Rng)
    ensures multiset(Sids(Shuffled(q, rng))) == multiset(Sids(q))
  {
    ShuffleFromSids(q, |q| - 1, rng);
    ShuffleFromPermutes(Sids(q), |q| - 1, rng);
  }

  /** `shuffleArray(a)`: the descending loop of in-place swaps, one draw per
      step; the array ends as `Shuffled` of its old contents, a permutation. */
  method ShuffleArray<T>(a: array<T>, rng: Rng)
    modifies a
    ensures a[..] == Shuffled(old(a[..]), rng)
    ensures multiset(a[..]) == multiset(old(a[..]))
  {
    var i := a.Length - 1;
    while i > 0
      invariant -1 <= i < a.Length
      invariant ShuffleFrom(a[..], i, rng) == Shuffled(old(a[..]), rng)
      invariant multiset(a[..]) == multiset(old(a[..]))
    {
      var j := rng(i) % (i + 1);
      ghost var before := a[..];
      SwapPermutes(before, i, j);
      a[i], a[j] := a[j], a[i];
      assert a[..] == Swap(before, i, j);
      i := i - 1;
    }
  }

  /** `shuffleArray(queue)` on the array that holds the queue's entries. */
  method ShuffleQueue(q: seq<User>, rng: Rng) returns (r: seq<User>)
    ensures r == Shuffled(q, rng)
  {
    var arr := new User[|q|](k requires 0 <= k < |q| => q[k]);
    assert arr[..] == q;
    ShuffleArray(arr, rng);
    r := arr[..];
  }

  // ---------------------------------------------------------------------
  // findMatch

  /** `findMatch` when somebody is left after the caller's entry is removed:
      one of them is returned and taken out of the queue, and the caller is
      not enqueued. */
  lemma MatchOutcomeFound(q: seq<User>, u: User, rng: Rng)
    requires RemoveConn(q, u.socketId) != []
    ensures MatchOutcome(q, u, rng).found.Some?
    ensures var r := MatchOutcome(q, u, rng);
            && r.found.value in RemoveConn(q, u.socketId)
            && r.found.value in q
            && multiset(r.queue) == multiset(RemoveConn(q, u.socketId)) - multiset{r.found.value}
            && multiset(Sids(r.queue)) == multiset(Sids(q)) - multiset{u.socketId} - multiset{r.found.value.socketId}
  {
    var rest := RemoveConn(q, u.socketId);
    var sh := Shuffled(rest, rng);
    ShuffledPermutes(rest, rng);
    assert MatchOutcome(q, u, rng) == MatchResult(sh[1..], Some(sh[0]));
    assert sh == [sh[0]] + sh[1..];
    assert multiset(sh) == multiset{sh[0]} + multiset(sh[1..]);
    assert sh[0] in multiset(rest);
    RemoveConnCounts(q, u.socketId);
    ShuffledSids(rest, rng);
    SidsTail(sh);
    var ids := multiset(Sids(sh[1..]));
    assert multiset(Sids(sh)) == multiset{sh[0].socketId} + ids;
  }

  /** The match is never the caller itself when the caller was queued at most once. */
  lemma MatchOutcomeNotSelf(q: seq<User>, u: User, rng: Rng)
    requires Count(q, u.socketId) <= 1
    ensures var r := MatchOutcome(q, u, rng);
            r.found.Some? ==> r.found.value.socketId != u.socketId
  {
    var rest := RemoveConn(q, u.socketId);
    var sh := Shuffled(rest, rng);
    RemoveConnCounts(q, u.socketId);
    ShuffledSids(rest, rng);
    if |sh| > 0 {
      assert Sids(sh)[0] == sh[0].socketId;
      assert sh[0].socketId in multiset(Sids(sh));
    }
  }

  /** `findMatch` when nobody is left: no match, and the queue is exactly `[u]`. */
  lemma MatchOutcomeEmpty(q: seq<User>, u: User, rng: Rng)
    requires RemoveConn(q, u.socketId) == []
    ensures MatchOutcome(q, u, rng) == MatchResult([u], None)
  {
  }

  /** `findMatch(queue, currentUser)`; returns the new queue and the match. */
  method FindMatch(queue: seq<User>, currentUser: User, rng: Rng) returns (q: seq<User>, found: Option<User>)
    ensures MatchResult(q, found) == MatchOutcome(queue, currentUser, rng)
    ensures found.Some? ==> found.value in queue && multiset(q) + multiset{found.value} == multiset(RemoveConn(queue, currentUser.socketId))
    ensures found.None? ==> q == [currentUser]
  {
    ghost var rest := RemoveConn(queue, currentUser.socketId);
    q := queue;
    var userIndex := IndexOf(q, currentUser.socketId);
    if userIndex != -1 {
      q := RemoveAt(q, userIndex);
    }
    assert q == rest;
    q := ShuffleQueue(q, rng);
    if |q| > 0 {
      MatchOutcomeFound(queue, currentUser, rng);
      found := Some(q[0]);
      q := q[1..];
      assert found.value in multiset(rest);
    } else {
      q := q + [currentUser];
      found := None;
    }
  }
}

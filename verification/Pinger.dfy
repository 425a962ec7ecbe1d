/** Concurrent pings into a shared map (internal/unbound/proxy/ping.go). */
module Pinger {

  /** The goroutines in the order in which they took the mutex. */
  ghost predicate IsOrder(order: seq<int>, n: nat) {
    InRange(order, n) && NoRepeats(order) && forall i :: 0 <= i < n ==> i in order
  }

  ghost predicate NoRepeats(order: seq<int>) {
    forall i, j :: 0 <= i < j < |order| ==> order[i] != order[j]
  }

  ghost predicate InRange(order: seq<int>, n: nat) {
    forall k :: 0 <= k < |order| ==> 0 <= order[k] < n
  }

  /** The shared map after goroutines finished in this order, starting from `m`. */
  ghost function Completed(m: map<string, int>, addrs: seq<string>, rtts: seq<int>, order: seq<int>): map<string, int>
    requires |addrs| == |rtts| && InRange(order, |addrs|)
  {
    if order == [] then m
    else
      var i := order[|order| - 1];
      Completed(m, addrs, rtts, order[..|order| - 1])[addrs[i] := rtts[i]]
  }

  /** The smallest positive round trip, or 0 when every ping failed. */
  ghost predicate IsBest(rtts: seq<int>, best: int) {
    if exists i :: 0 <= i < |rtts| && rtts[i] > 0 then
      best > 0 && best in rtts && forall i :: 0 <= i < |rtts| && rtts[i] > 0 ==> best <= rtts[i]
    else best == 0
  }

  lemma BestIsUnique(rtts: seq<int>, a: int, b: int)
    requires IsBest(rtts, a) && IsBest(rtts, b)
    ensures a == b
  {
    if a > 0 {
      var i :| 0 <= i < |rtts| && rtts[i] == a;
      assert b > 0;
      var j :| 0 <= j < |rtts| && rtts[j] == b;
      assert a <= rtts[j] && b <= rtts[i];
    }
  }

  /** The running minimum over the goroutines that are done. */
  ghost predicate RunningBest(rtts: seq<int>, done: seq<int>, best: int)
    requires InRange(done, |rtts|)
  {
    (best == -1 || best > 0)
    && (best == -1 ==> forall i :: i in done ==> rtts[i] <= 0)
    && (best > 0 ==> (exists i :: i in done && rtts[i] == best)
                     && forall i :: i in done && rtts[i] > 0 ==> best <= rtts[i])
  }

  /** Pings every address; which goroutine gets the mutex next is arbitrary. The
      minimum does not depend on it. */
  method ConcurrentPinger(addrs: seq<string>, rtts: seq<int>)
    returns (res: map<string, int>, best: int, ghost order: seq<int>)
    requires |addrs| == |rtts|
    ensures IsOrder(order, |addrs|)
    ensures res == Completed(map[], addrs, rtts, order)
    ensures IsBest(rtts, best)
  {
    res, best, order := map[], -1, [];
    var pending: set<int> := {};
    for i := 0 to |addrs|
      invariant forall k :: k in pending <==> 0 <= k < i
    {
      pending := pending + {i};
    }
    while pending != {}
      invariant forall i :: 0 <= i < |addrs| ==> (i in pending <==> i !in order)
      invariant forall i :: i in pending ==> 0 <= i < |addrs|
      invariant InRange(order, |addrs|) && NoRepeats(order)
      invariant res == Completed(map[], addrs, rtts, order)
      invariant RunningBest(rtts, order, best)
      decreases pending
    {
      var i :| i in pending;
      var rtt := rtts[i];
      res := res[addrs[i] := rtt];
      assert (order + [i])[..|order|] == order;
      ghost var before := order;
      order := order + [i];
      assert forall k :: k in order <==> k in before || k == i;
      if rtt > 0 && (best < 0 || rtt < best) {
        best := rtt;
      }
      pending := pending - {i};
    }
    if best < 0 {
      best := 0;
    }
    assert forall i :: 0 <= i < |addrs| ==> i in order;
  }

  /** Every address ends with one of its own pings among those that finished. */
  lemma {:induction false} CompletedValue(
      m: map<string, int>, addrs: seq<string>, rtts: seq<int>, order: seq<int>, a: string)
    requires |addrs| == |rtts| && InRange(order, |addrs|)
    ensures var r := Completed(m, addrs, rtts, order);
            if exists i :: i in order && addrs[i] == a
            then a in r && exists i :: i in order && addrs[i] == a && rtts[i] == r[a]
            else (a in r <==> a in m) && (a in m ==> r[a] == m[a])
  {
    if order != [] {
      var k := |order| - 1;
      assert forall i :: i in order <==> i in order[..k] || i == order[k];
      CompletedValue(m, addrs, rtts, order[..k], a);
    }
  }

  /** The best is the least positive round trip, and none is positive exactly when it is 0. */
  lemma BestIsLeast(rtts: seq<int>, best: int)
    ensures IsBest(rtts, best) <==>
            && (best == 0 <==> forall i :: 0 <= i < |rtts| ==> rtts[i] <= 0)
            && (best != 0 ==> best > 0 && (exists i :: 0 <= i < |rtts| && rtts[i] == best)
                              && forall i :: 0 <= i < |rtts| && rtts[i] > 0 ==> rtts[i] >= best)
  {
  }

  /** Whoever takes the mutex last for an address decides its entry. */
  lemma {:induction false} LastWriterStays(
      m: map<string, int>, addrs: seq<string>, rtts: seq<int>, order: seq<int>, k: nat)
    requires |addrs| == |rtts| && InRange(order, |addrs|) && k < |order|
    requires forall j :: k < j < |order| ==> addrs[order[j]] != addrs[order[k]]
    ensures var r := Completed(m, addrs, rtts, order);
            addrs[order[k]] in r && r[addrs[order[k]]] == rtts[order[k]]
  {
    if k < |order| - 1 {
      LastWriterStays(m, addrs, rtts, order[..|order| - 1], k);
    }
  }

  ghost predicate DistinctAddrs(addrs: seq<string>) {
    forall i, j :: 0 <= i < j < |addrs| ==> addrs[i] != addrs[j]
  }

  /** With distinct addresses the completion order leaves no trace. */
  lemma DistinctOrderIrrelevant(addrs: seq<string>, rtts: seq<int>, order: seq<int>, i: int)
    requires |addrs| == |rtts| && IsOrder(order, |addrs|) && DistinctAddrs(addrs) && 0 <= i < |addrs|
    ensures var r := Completed(map[], addrs, rtts, order); addrs[i] in r && r[addrs[i]] == rtts[i]
  {
    CompletedValue(map[], addrs, rtts, order, addrs[i]);
    assert i in order;
    var r := Completed(map[], addrs, rtts, order);
    var j :| j in order && addrs[j] == addrs[i] && rtts[j] == r[addrs[i]];
    assert i == j;
  }

  // ----- repeated addresses

  /** In this order some address ends at the best round trip. */
  ghost predicate KeepsSome(addrs: seq<string>, rtts: seq<int>, best: int, order: seq<int>)
    requires |addrs| == |rtts| && InRange(order, |addrs|)
  {
    var r := Completed(map[], addrs, rtts, order);
    exists i :: 0 <= i < |addrs| && addrs[i] in r && r[addrs[i]] == best
  }

  /** Every ping of the address took exactly the best time. */
  ghost predicate AlwaysBest(addrs: seq<string>, rtts: seq<int>, best: int, i: int)
    requires |addrs| == |rtts| && 0 <= i < |addrs|
  {
    forall j :: 0 <= j < |addrs| && addrs[j] == addrs[i] ==> rtts[j] == best
  }

  function Indices(rtts: seq<int>, best: int, equal: bool, n: nat): seq<int>
    requires n <= |rtts|
  {
    if n == 0 then []
    else Indices(rtts, best, equal, n - 1) + (if (rtts[n - 1] == best) == equal then [n - 1] else [])
  }

  lemma {:induction false} IndicesMembers(rtts: seq<int>, best: int, equal: bool, n: nat)
    requires n <= |rtts|
    ensures forall i :: i in Indices(rtts, best, equal, n) <==> 0 <= i < n && (rtts[i] == best) == equal
    ensures NoRepeats(Indices(rtts, best, equal, n))
  {
    if n > 0 {
      IndicesMembers(rtts, best, equal, n - 1);
      var s := Indices(rtts, best, equal, n - 1);
      assert forall i :: 0 <= i < |s| ==> s[i] in s;
    }
  }

  lemma {:induction false} CompletedConcat(
      m: map<string, int>, addrs: seq<string>, rtts: seq<int>, a: seq<int>, b: seq<int>)
    requires |addrs| == |rtts| && InRange(a, |addrs|) && InRange(b, |addrs|)
    ensures InRange(a + b, |addrs|)
    ensures Completed(m, addrs, rtts, a + b) == Completed(Completed(m, addrs, rtts, a), addrs, rtts, b)
  {
    if b == [] {
      assert a + b == a;
    } else {
      var n := |b| - 1;
      assert (a + b)[..|a| + n] == a + b[..n];
      CompletedConcat(m, addrs, rtts, a, b[..n]);
    }
  }

  function BestFirst(rtts: seq<int>, best: int): seq<int> {
    Indices(rtts, best, true, |rtts|) + Indices(rtts, best, false, |rtts|)
  }

  lemma BestFirstIsOrder(rtts: seq<int>, best: int)
    ensures IsOrder(BestFirst(rtts, best), |rtts|)
    ensures InRange(Indices(rtts, best, true, |rtts|), |rtts|)
    ensures InRange(Indices(rtts, best, false, |rtts|), |rtts|)
  {
    var good, bad := Indices(rtts, best, true, |rtts|), Indices(rtts, best, false, |rtts|);
    IndicesMembers(rtts, best, true, |rtts|);
    IndicesMembers(rtts, best, false, |rtts|);
    forall k | 0 <= k < |good| ensures 0 <= good[k] < |rtts| && rtts[good[k]] == best { assert good[k] in good; }
    forall k | 0 <= k < |bad| ensures 0 <= bad[k] < |rtts| && rtts[bad[k]] != best { assert bad[k] in bad; }
    forall i | 0 <= i < |rtts| ensures i in good + bad { assert i in good || i in bad; }
  }

  /** Best pings first, the others after: a worst case for the shared map. */
  lemma WorstOrder(addrs: seq<string>, rtts: seq<int>, best: int)
    requires |addrs| == |rtts|
    requires forall i :: 0 <= i < |addrs| ==> !AlwaysBest(addrs, rtts, best, i)
    ensures IsOrder(BestFirst(rtts, best), |addrs|) && !KeepsSome(addrs, rtts, best, BestFirst(rtts, best))
  {
    var good, bad := Indices(rtts, best, true, |rtts|), Indices(rtts, best, false, |rtts|);
    BestFirstIsOrder(rtts, best);
    IndicesMembers(rtts, best, false, |rtts|);
    CompletedConcat(map[], addrs, rtts, good, bad);
    var m := Completed(map[], addrs, rtts, good);
    var r := Completed(map[], addrs, rtts, good + bad);
    forall i | 0 <= i < |addrs| && addrs[i] in r ensures r[addrs[i]] != best {
      assert !AlwaysBest(addrs, rtts, best, i);
      var j :| 0 <= j < |addrs| && addrs[j] == addrs[i] && rtts[j] != best;
      assert j in bad;
      CompletedValue(m, addrs, rtts, bad, addrs[i]);
    }
  }

  /** When one address is pinged more than once a slower reply may overwrite the
      best one. Some address survives in every completion order exactly when all
      pings of some address took the best time. */
  lemma SurvivesEveryOrder(addrs: seq<string>, rtts: seq<int>, best: int)
    requires |addrs| == |rtts|
    ensures (forall order :: IsOrder(order, |addrs|) ==> KeepsSome(addrs, rtts, best, order))
       <==> exists i :: 0 <= i < |addrs| && AlwaysBest(addrs, rtts, best, i)
  {
    if i :| 0 <= i < |addrs| && AlwaysBest(addrs, rtts, best, i) {
      forall order | IsOrder(order, |addrs|) ensures KeepsSome(addrs, rtts, best, order) {
        assert i in order;
        CompletedValue(map[], addrs, rtts, order, addrs[i]);
      }
    } else {
      WorstOrder(addrs, rtts, best);
    }
  }
}

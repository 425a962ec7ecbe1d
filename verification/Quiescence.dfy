/** Syncing comes to rest, and at rest the replicas agree
    (internal/sync/sync.go). */
module Quiescence {
  import opened Config
  import opened Merge
  import opened Convergence
  import opened Exchange

  /** Within a universe of versions, key and stamp determine the version. */
  ghost predicate Determined(universe: set<Item>) {
    forall x, y :: x in universe && y in universe && Key(x) == Key(y) && SameStamp(x, y) ==> x == y
  }

  ghost predicate Within(items: seq<Item>, universe: set<Item>) {
    forall x :: x in items ==> x in universe
  }

  /** The slice holds a version of `u`'s key that is at least as new. */
  ghost predicate Reached(items: seq<Item>, u: Item) {
    var c := Lookup(items, Key(u));
    c.Some? && !Older(c.value, u)
  }

  ghost function ReachedSet(items: seq<Item>, universe: set<Item>): set<Item> {
    set u | u in universe && Reached(items, u)
  }

  ghost function Score(items: seq<Item>, universe: set<Item>): nat {
    |ReachedSet(items, universe)|
  }

  lemma SmallerSet<T>(a: set<T>, b: set<T>)
    requires a <= b
    ensures |a| <= |b|
    ensures a != b ==> |a| < |b|
  {
    assert b == a + (b - a);
    if a != b {
      var x :| x in b - a;
    }
  }

  /** Folding a version in never loses ground, and gains some if it does anything. */
  lemma PutGains(items: seq<Item>, x: Item, universe: set<Item>)
    requires Determined(universe) && Within(items, universe) && x in universe
    ensures Within(Put(items, x), universe)
    ensures ReachedSet(items, universe) <= ReachedSet(Put(items, x), universe)
    ensures Put(items, x) != items ==> ReachedSet(items, universe) != ReachedSet(Put(items, x), universe)
  {
    var after := Put(items, x);
    var old', new' := ReachedSet(items, universe), ReachedSet(after, universe);
    forall u | u in old' ensures u in new' {
      LookupPut(items, x, Key(u));
    }
    if after != items {
      LookupPut(items, x, Key(x));
      var c := Lookup(items, Key(x));
      assert c.Some? ==> c.value in items;
      assert x in new' && x !in old';
    }
  }

  lemma {:induction false} MergeGains(items: seq<Item>, xs: seq<Item>, universe: set<Item>)
    requires Determined(universe) && Within(items, universe) && Within(xs, universe)
    ensures Within(PutAll(items, xs), universe)
    ensures ReachedSet(items, universe) <= ReachedSet(PutAll(items, xs), universe)
    ensures PutAll(items, xs) != items ==> ReachedSet(items, universe) != ReachedSet(PutAll(items, xs), universe)
  {
    if xs != [] {
      var before, x := xs[..|xs| - 1], xs[|xs| - 1];
      assert x in xs;
      MergeGains(items, before, universe);
      PutGains(PutAll(items, before), x, universe);
    }
  }

  function MergeBatches(items: seq<Item>, batches: seq<seq<Item>>): seq<Item> {
    if batches == [] then items
    else PutAll(MergeBatches(items, batches[..|batches| - 1]), batches[|batches| - 1])
  }

  /** How many of the batches changed anything. */
  function Changes(items: seq<Item>, batches: seq<seq<Item>>): nat {
    if batches == [] then 0
    else
      var before := MergeBatches(items, batches[..|batches| - 1]);
      Changes(items, batches[..|batches| - 1]) + if PutAll(before, batches[|batches| - 1]) == before then 0 else 1
  }

  /** However many envelopes a node receives, in whatever order and with whatever
      repeats, no more of them change it than there are versions in the mesh. */
  lemma {:induction false} ChangesAreBounded(items: seq<Item>, batches: seq<seq<Item>>, universe: set<Item>)
    requires Determined(universe) && Within(items, universe)
    requires forall i :: 0 <= i < |batches| ==> Within(batches[i], universe)
    ensures Within(MergeBatches(items, batches), universe)
    ensures Changes(items, batches) + Score(items, universe) <= Score(MergeBatches(items, batches), universe)
    ensures Changes(items, batches) <= |universe|
  {
    if batches != [] {
      var n := |batches| - 1;
      ChangesAreBounded(items, batches[..n], universe);
      var before := MergeBatches(items, batches[..n]);
      MergeGains(before, batches[n], universe);
      SmallerSet(ReachedSet(before, universe), ReachedSet(PutAll(before, batches[n]), universe));
    }
    SmallerSet(ReachedSet(MergeBatches(items, batches), universe), universe);
  }

  /** At rest: neither of two nodes learns anything from the other's full state. Then
      their live views agree for every key, save those that are stuck. */
  lemma AtRestLiveViewsAgree(a: seq<Item>, b: seq<Item>)
    requires Distinct(a) && Distinct(b)
    requires PutAll(a, b) == a && PutAll(b, a) == b
    ensures (forall k :: LiveOf(Lookup(a, k)) == LiveOf(Lookup(b, k))) <==> NoneStuck(a, b)
  {
    forall k
      ensures LiveOf(Lookup(a, k)) == LiveOf(Lookup(b, k)) <==>
              !(Lookup(a, k).Some? && Lookup(b, k).Some? && Stuck(Lookup(a, k).value, Lookup(b, k).value))
    {
      LookupMergeDistinct(a, b, k);
      LookupMergeDistinct(b, a, k);
    }
    StuckByLookup(a, b);
  }

  /** A whole mesh at rest, every node having heard every other under the name that
      node goes by: all live views are one. */
  lemma MeshAtRestAgrees(nodes: seq<File>, names: seq<string>, kind: Kind, sent: Time, now: Time, skew: int)
    requires |names| == |nodes|
    requires forall i :: 0 <= i < |nodes| ==> Distinct(Slice(nodes[i], kind))
    requires forall i, j :: 0 <= i < |nodes| && 0 <= j < |nodes| ==>
               Shareable(Slice(nodes[j], kind), names[i], now, skew)
               && Slice(Heard(nodes[i], nodes[j], names[j], names[i], sent, now, skew), kind) == Slice(nodes[i], kind)
               && NoneStuck(Slice(nodes[i], kind), Slice(nodes[j], kind))
    ensures forall i, j, k :: 0 <= i < |nodes| && 0 <= j < |nodes| ==>
              LiveOf(Lookup(Slice(nodes[i], kind), k)) == LiveOf(Lookup(Slice(nodes[j], kind), k))
  {
    forall i, j, k | 0 <= i < |nodes| && 0 <= j < |nodes|
      ensures LiveOf(Lookup(Slice(nodes[i], kind), k)) == LiveOf(Lookup(Slice(nodes[j], kind), k))
    {
      HeardSlice(nodes[i], nodes[j], names[j], names[i], sent, now, skew, kind);
      HeardSlice(nodes[j], nodes[i], names[i], names[j], sent, now, skew, kind);
      AtRestLiveViewsAgree(Slice(nodes[i], kind), Slice(nodes[j], kind));
    }
  }
}

/** Nodes that send before either receives, and equally stamped versions
    (internal/sync/sync.go). */
module Ties {
  import opened Text
  import opened Config
  import opened Merge
  import opened Convergence

  /** Shared keys with equally stamped live versions hold one version. */
  ghost predicate TiesAgree(a: seq<Item>, b: seq<Item>) {
    forall x, y :: x in a && y in b && Key(x) == Key(y) && SameStamp(x, y) && !x.meta.deleted ==> x == y
  }

  ghost predicate TiedApart(a: Option<Item>, b: Option<Item>) {
    a.Some? && b.Some? && SameStamp(a.value, b.value) && !a.value.meta.deleted && a != b
  }

  ghost predicate NoneTiedApart(a: seq<Item>, b: seq<Item>) {
    forall k :: !TiedApart(Lookup(a, k), Lookup(b, k))
  }

  ghost predicate SameLiveViews(a: seq<Item>, b: seq<Item>) {
    forall k :: LiveOf(Lookup(a, k)) == LiveOf(Lookup(b, k))
  }

  lemma SimultaneousOneKey(a: Option<Item>, b: Option<Item>)
    ensures LiveOf(JoinOpt(a, b)) == LiveOf(JoinOpt(b, a)) <==> !TiedApart(a, b)
  {
  }

  lemma TiesAgreeByLookup(a: seq<Item>, b: seq<Item>)
    requires Distinct(a) && Distinct(b)
    ensures TiesAgree(a, b) <==> NoneTiedApart(a, b)
  {
    if TiesAgree(a, b) {
      forall k ensures !TiedApart(Lookup(a, k), Lookup(b, k)) {
        LookupIsMember(a, k);
        LookupIsMember(b, k);
      }
    } else {
      var x, y :| x in a && y in b && Key(x) == Key(y) && SameStamp(x, y) && !x.meta.deleted && x != y;
      LookupMember(a, x);
      LookupMember(b, y);
    }
  }

  lemma SimultaneousKey(a: seq<Item>, b: seq<Item>, k: string)
    requires Distinct(a) && Distinct(b)
    ensures LiveOf(Lookup(PutAll(a, b), k)) == LiveOf(Lookup(PutAll(b, a), k))
            <==> !TiedApart(Lookup(a, k), Lookup(b, k))
  {
    LookupMergeDistinct(a, b, k);
    LookupMergeDistinct(b, a, k);
    SimultaneousOneKey(Lookup(a, k), Lookup(b, k));
  }

  /** When both send first, the live views agree exactly when no shared key was tied
      between two different live versions: here the tie rule for defaults, which
      lets a one-way exchange settle, makes them trade places instead. */
  lemma SimultaneousSlices(a: seq<Item>, b: seq<Item>)
    requires Distinct(a) && Distinct(b)
    ensures SameLiveViews(PutAll(a, b), PutAll(b, a)) <==> TiesAgree(a, b)
  {
    var a', b' := PutAll(a, b), PutAll(b, a);
    forall k ensures LiveOf(Lookup(a', k)) == LiveOf(Lookup(b', k)) <==> !TiedApart(Lookup(a, k), Lookup(b, k)) {
      SimultaneousKey(a, b, k);
    }
    TiesAgreeByLookup(a, b);
  }

  /** What two nodes hold. */
  datatype Pair = Pair(a: seq<Item>, b: seq<Item>)

  /** One round in which each side sends before either receives. */
  function Round(p: Pair): Pair {
    Pair(PutAll(p.a, p.b), PutAll(p.b, p.a))
  }

  /** A run of such rounds, from its first state on. */
  ghost predicate Rounds(ps: seq<Pair>) {
    forall i :: 0 < i < |ps| ==> ps[i] == Round(ps[i - 1])
  }

  /** Both hold the key, one as `x` and the other as `y`. */
  ghost predicate HeldAs(p: Pair, k: string, x: Item, y: Item) {
    Distinct(p.a) && Distinct(p.b) && Lookup(p.a, k) == Some(x) && Lookup(p.b, k) == Some(y)
  }

  lemma TiedRound(p: Pair, k: string, x: Item, y: Item)
    requires HeldAs(p, k, x, y) && SameStamp(x, y)
    ensures HeldAs(Round(p), k, if TieKeeps(x, y) then x else y, if TieKeeps(x, y) then y else x)
  {
    MergeKeepsPositions(p.a, p.b);
    MergeKeepsPositions(p.b, p.a);
    LookupMergeDistinct(p.a, p.b, k);
    LookupMergeDistinct(p.b, p.a, k);
  }

  /** A round from `p` to `q` keeps or swaps the pair `x`, `y`, by the tie rule. */
  ghost predicate Carries(p: Pair, q: Pair, k: string, x: Item, y: Item) {
    HeldAs(p, k, x, y) ==> if TieKeeps(x, y) then HeldAs(q, k, x, y) else HeldAs(q, k, y, x)
  }

  lemma RoundCarries(p: Pair, k: string, x: Item, y: Item)
    requires SameStamp(x, y)
    ensures Carries(p, Round(p), k, x, y)
  {
    if HeldAs(p, k, x, y) {
      TiedRound(p, k, x, y);
    }
  }

  /** The versions of the two nodes after `n` rounds. */
  ghost predicate HeldAfter(p: Pair, n: nat, k: string, x: Item, y: Item) {
    if !TieKeeps(x, y) && n % 2 == 1 then HeldAs(p, k, y, x) else HeldAs(p, k, x, y)
  }

  lemma HeldAfterNext(p: Pair, q: Pair, n: nat, k: string, x: Item, y: Item)
    requires HeldAfter(p, n, k, x, y) && Carries(p, q, k, x, y) && Carries(p, q, k, y, x)
    ensures HeldAfter(q, n + 1, k, x, y)
  {
  }

  /** Two versions tied at one key, over any number of rounds: kept apart by the tie
      rule they stay where they are, otherwise they trade places in every round. */
  lemma {:induction false} TiedRounds(ps: seq<Pair>, k: string, x: Item, y: Item, n: nat)
    requires Rounds(ps) && n < |ps| && HeldAs(ps[0], k, x, y) && SameStamp(x, y)
    ensures HeldAfter(ps[n], n, k, x, y)
  {
    if n > 0 {
      TiedRounds(ps, k, x, y, n - 1);
      RoundCarries(ps[n - 1], k, x, y);
      RoundCarries(ps[n - 1], k, y, x);
      HeldAfterNext(ps[n - 1], ps[n], n - 1, k, x, y);
    }
  }
}

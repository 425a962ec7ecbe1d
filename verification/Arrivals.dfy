/** The absent key over lists of envelopes, however arranged
    (internal/sync/sync.go). */
module Arrivals {
  import opened Text
  import opened Config
  import opened Merge
  import opened Convergence

  predicate OfKind(x: Item, kind: Kind) {
    match kind
    case Defaults => x.UpstreamDefault?
    case Zones => x.ForwardZone?
    case Records => x.StaticRecord?
  }

  /** An envelope with one item, always in window. */
  function Single(x: Item): Delivery {
    Delivery(Envelope("", 0, 0,
                      if x.UpstreamDefault? then [x] else [],
                      if x.ForwardZone? then [x] else [],
                      if x.StaticRecord? then [x] else [], None), 0, 0)
  }

  /** A version of the key that a merge may let in. */
  predicate Fits(x: Item, kind: Kind, k: string) {
    OfKind(x, kind) && !x.meta.doNotSync && Key(x) == k
  }

  lemma SingleCopies(x: Item, kind: Kind)
    requires OfKind(x, kind) && !x.meta.doNotSync
    ensures Copies(Admitted(EnvSlice(Single(x).env, kind), 0, 0), Key(x)) == [x]
  {
    assert EnvSlice(Single(x).env, kind) == [x];
    FilterAll([x], y => Admits(y, 0, 0));
    FilterAll([x], y => Key(y) == Key(x));
  }

  lemma AdmittedCopiesSnoc(ds: seq<Delivery>, d: Delivery, kind: Kind, k: string)
    ensures AdmittedCopies(ds + [d], kind, k)
         == AdmittedCopies(ds, kind, k) + Copies(Admitted(EnvSlice(d.env, kind), d.now, d.skew), k)
  {
    assert (ds + [d])[..|ds|] == ds;
  }

  lemma ArrangeNext(earlier: seq<Delivery>, x: Item, kind: Kind, k: string) returns (ds: seq<Delivery>)
    requires Fits(x, kind, k)
    ensures AdmittedCopies(ds, kind, k) == AdmittedCopies(earlier, kind, k) + [x]
  {
    SingleCopies(x, kind);
    AdmittedCopiesSnoc(earlier, Single(x), kind, k);
    ds := earlier + [Single(x)];
  }

  /** Any order of admissible copies is the order of some list of envelopes. */
  lemma {:induction false} Arrange(xs: seq<Item>, kind: Kind, k: string) returns (ds: seq<Delivery>)
    requires forall x :: x in xs ==> Fits(x, kind, k)
    ensures AdmittedCopies(ds, kind, k) == xs
  {
    ds := [];
    if xs != [] {
      var before, x := xs[..|xs| - 1], xs[|xs| - 1];
      assert x in xs;
      var earlier := Arrange(before, kind, k);
      ds := ArrangeNext(earlier, x, kind, k);
      assert xs == before + [x];
    }
  }

  lemma {:induction false} AdmittedCopiesAreAdmissible(ds: seq<Delivery>, kind: Kind, k: string)
    ensures forall x :: x in AdmittedCopies(ds, kind, k) ==> Fits(x, kind, k)
  {
    if ds != [] {
      var d := ds[|ds| - 1];
      AdmittedCopiesAreAdmissible(ds[..|ds| - 1], kind, k);
      var xs := EnvSlice(d.env, kind);
      FilterMembers(xs, x => Admits(x, d.now, d.skew));
      FilterMembers(Admitted(xs, d.now, d.skew), x => Key(x) == k);
      forall x | x in xs ensures OfKind(x, kind) {
        var i :| 0 <= i < |xs| && xs[i] == x;
        match kind case Defaults => case Zones => case Records =>
      }
    }
  }

  /** What a file without the key shows after a list of envelopes. */
  ghost function LiveAfter(f: File, ds: seq<Delivery>, kind: Kind, k: string): Option<Item> {
    LiveOf(Lookup(Slice(MergeMany(f, ds), kind), k))
  }

  /** All lists of envelopes that bring the same admitted copies, however arranged,
      have the same live outcome. */
  ghost predicate DeliveryOrderIrrelevant(f: File, ds: seq<Delivery>, kind: Kind, k: string) {
    forall es, gs ::
      (multiset(AdmittedCopies(es, kind, k)) == multiset(AdmittedCopies(ds, kind, k))
       && multiset(AdmittedCopies(gs, kind, k)) == multiset(AdmittedCopies(ds, kind, k)))
      ==> LiveAfter(f, es, kind, k) == LiveAfter(f, gs, kind, k)
  }

  lemma ArrangedAs(f: File, ds: seq<Delivery>, kind: Kind, k: string, p: seq<Item>) returns (es: seq<Delivery>)
    requires Lookup(Slice(f, kind), k).None?
    requires multiset(p) == multiset(AdmittedCopies(ds, kind, k))
    ensures AdmittedCopies(es, kind, k) == p
    ensures LiveAfter(f, es, kind, k) == LiveOf(Resolve(None, p))
  {
    AdmittedCopiesAreAdmissible(ds, kind, k);
    SameMembers(p, AdmittedCopies(ds, kind, k));
    es := Arrange(p, kind, k);
    MergeManyRefinesJoin(f, es, kind, k);
  }

  /** For a key the file does not hold, the arrangement of envelopes is irrelevant to
      the live outcome exactly when no tombstone is as new as the newest live copy. */
  lemma AbsentKeyDeliveries(f: File, ds: seq<Delivery>, kind: Kind, k: string)
    requires Lookup(Slice(f, kind), k).None? && StampsDetermine(AdmittedCopies(ds, kind, k))
    ensures DeliveryOrderIrrelevant(f, ds, kind, k) <==> LiveVersionWins(AdmittedCopies(ds, kind, k))
  {
    var xs := AdmittedCopies(ds, kind, k);
    if LiveVersionWins(xs) {
      forall es, gs | multiset(AdmittedCopies(es, kind, k)) == multiset(xs)
                      && multiset(AdmittedCopies(gs, kind, k)) == multiset(xs)
        ensures LiveAfter(f, es, kind, k) == LiveAfter(f, gs, kind, k)
      {
        MergeManyRefinesJoin(f, es, kind, k);
        MergeManyRefinesJoin(f, gs, kind, k);
        LiveWinnerAnyOrder(xs, AdmittedCopies(es, kind, k), AdmittedCopies(gs, kind, k));
      }
    } else {
      var p, q := TombstoneWinsSomeOrder(xs);
      var es := ArrangedAs(f, ds, kind, k, p);
      var gs := ArrangedAs(f, ds, kind, k, q);
      assert LiveAfter(f, es, kind, k) != LiveAfter(f, gs, kind, k);
    }
  }
}

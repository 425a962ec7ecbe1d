/** What merging means key by key, and when replicas agree
    (internal/sync/sync.go). */
module Convergence {
  import opened Text
  import opened Config
  import opened Merge

  // ----- the per-key meaning of a slice

  /** The version a slice holds for a key: the one at its last position. */
  function Lookup(items: seq<Item>, k: string): Option<Item> {
    var i := LastIndex(items, k);
    if i < 0 then None else Some(items[i])
  }

  /** Joining one incoming version: a tombstone for an absent key is dropped. */
  function Join(cur: Option<Item>, x: Item): Option<Item> {
    match cur
    case None => if x.meta.deleted then None else Some(x)
    case Some(c) => Some(if Wins(x, c) then x else c)
  }

  function Resolve(cur: Option<Item>, xs: seq<Item>): Option<Item> {
    if xs == [] then cur else Join(Resolve(cur, xs[..|xs| - 1]), xs[|xs| - 1])
  }

  /** The versions of one key, in order. */
  function Copies(xs: seq<Item>, k: string): seq<Item> {
    Filter(xs, x => Key(x) == k)
  }

  function LiveOf(o: Option<Item>): Option<Item> {
    if o.Some? && !o.value.meta.deleted then o else None
  }

  lemma LookupPut(items: seq<Item>, x: Item, k: string)
    ensures Lookup(Put(items, x), k) == if Key(x) == k then Join(Lookup(items, k), x) else Lookup(items, k)
  {
    var i := LastIndex(items, Key(x));
    if i < 0 {
      LastIndexSnoc(items, x, k);
    } else {
      LastIndexUpdate(items, i, x, k);
    }
  }

  /** The slice-and-index merge refines the per-key join. */
  lemma {:induction false} SliceMergeRefinesJoin(items: seq<Item>, xs: seq<Item>, k: string)
    ensures Lookup(PutAll(items, xs), k) == Resolve(Lookup(items, k), Copies(xs, k))
  {
    if xs != [] {
      var n := |xs| - 1;
      SliceMergeRefinesJoin(items, xs[..n], k);
      LookupPut(PutAll(items, xs[..n]), xs[n], k);
      FilterSnoc(xs[..n], xs[n], x => Key(x) == k);
      assert xs == xs[..n] + [xs[n]];
      var c := Copies(xs[..n], k);
      assert (c + [xs[n]])[..|c|] == c;
    }
  }

  // ----- what a merge does to positions

  ghost predicate Distinct(items: seq<Item>) {
    forall i, j :: 0 <= i < j < |items| ==> Key(items[i]) != Key(items[j])
  }

  /** `after` extends `before`: the old positions keep their keys. */
  ghost predicate ExtendsKeys(before: seq<Item>, after: seq<Item>) {
    |before| <= |after| && forall i :: 0 <= i < |before| ==> Key(after[i]) == Key(before[i])
  }

  /** From position `n` on, every key is new. */
  ghost predicate NewFrom(items: seq<Item>, n: nat) {
    forall i, j :: 0 <= i < j < |items| && n <= j ==> Key(items[i]) != Key(items[j])
  }

  lemma PutKeepsPositions(items: seq<Item>, x: Item)
    ensures ExtendsKeys(items, Put(items, x)) && |Put(items, x)| <= |items| + 1
    ensures |Put(items, x)| > |items| ==>
            forall i :: 0 <= i < |items| ==> Key(Put(items, x)[i]) != Key(Put(items, x)[|items|])
  {
  }

  /** Merging never moves or re-keys a position, appends only keys that are new,
      and so keeps distinct keys distinct whatever the envelope repeats. */
  lemma {:induction false} MergeKeepsPositions(items: seq<Item>, xs: seq<Item>)
    ensures ExtendsKeys(items, PutAll(items, xs))
    ensures NewFrom(PutAll(items, xs), |items|)
    ensures Distinct(items) ==> Distinct(PutAll(items, xs))
  {
    if xs != [] {
      var before, after := PutAll(items, xs[..|xs| - 1]), PutAll(items, xs);
      MergeKeepsPositions(items, xs[..|xs| - 1]);
      PutKeepsPositions(before, xs[|xs| - 1]);
      forall i, j | 0 <= i < j < |after| && (|items| <= j || Distinct(items))
        ensures Key(after[i]) != Key(after[j])
      {
        if j < |before| {
          assert Key(before[i]) != Key(before[j]);
          assert Key(after[i]) == Key(before[i]) && Key(after[j]) == Key(before[j]);
        } else {
          assert j == |before|;
          assert after == Put(before, xs[|xs| - 1]);
        }
      }
    }
  }

  // ----- order and repetition

  lemma {:induction false} ResolveConcat(cur: Option<Item>, a: seq<Item>, b: seq<Item>)
    ensures Resolve(cur, a + b) == Resolve(Resolve(cur, a), b)
  {
    if b == [] {
      assert a + b == a;
    } else {
      var n := |b| - 1;
      assert (a + b)[..|a| + n] == a + b[..n];
      ResolveConcat(cur, a, b[..n]);
    }
  }

  /** A held key ends at a newest version among its own and the incoming ones. */
  lemma {:induction false} ResolveHeld(c: Item, xs: seq<Item>)
    ensures var r := Resolve(Some(c), xs);
            r.Some? && (r.value == c || r.value in xs)
            && !Older(r.value, c) && forall x :: x in xs ==> !Older(r.value, x)
  {
    if xs != [] {
      var n := |xs| - 1;
      ResolveHeld(c, xs[..n]);
      assert forall x :: x in xs ==> x in xs[..n] || x == xs[n];
    }
  }

  /** An absent key stays absent exactly while no live version comes in, and then
      is at least as new as every live one. */
  lemma {:induction false} ResolveAbsent(xs: seq<Item>)
    ensures Resolve(None, xs).None? <==> forall x :: x in xs ==> x.meta.deleted
    ensures var r := Resolve(None, xs);
            r.Some? ==> r.value in xs && forall x :: x in xs && !x.meta.deleted ==> !Older(r.value, x)
  {
    if xs != [] {
      var n := |xs| - 1;
      ResolveAbsent(xs[..n]);
      assert xs[n] in xs;
      assert forall x :: x in xs <==> x in xs[..n] || x == xs[n];
    }
  }

  datatype Delivery = Delivery(env: Envelope, now: Time, skew: int)

  function MergeMany(f: File, ds: seq<Delivery>): File {
    if ds == [] then f
    else
      var d := ds[|ds| - 1];
      MergedFile(MergeMany(f, ds[..|ds| - 1]), d.env, d.now, d.skew)
  }

  /** Every admitted version of a key, in delivery order. */
  function AdmittedCopies(ds: seq<Delivery>, kind: Kind, k: string): seq<Item> {
    if ds == [] then []
    else
      var d := ds[|ds| - 1];
      AdmittedCopies(ds[..|ds| - 1], kind, k) + Copies(Admitted(EnvSlice(d.env, kind), d.now, d.skew), k)
  }

  lemma {:induction false} MergeManyRefinesJoin(f: File, ds: seq<Delivery>, kind: Kind, k: string)
    ensures Lookup(Slice(MergeMany(f, ds), kind), k)
         == Resolve(Lookup(Slice(f, kind), k), AdmittedCopies(ds, kind, k))
  {
    if ds != [] {
      var d, before := ds[|ds| - 1], ds[..|ds| - 1];
      var g := MergeMany(f, before);
      MergeManyRefinesJoin(f, before, kind, k);
      MergedFileSlice(g, d.env, d.now, d.skew, kind);
      var xs := Admitted(EnvSlice(d.env, kind), d.now, d.skew);
      SliceMergeRefinesJoin(Slice(g, kind), xs, k);
      ResolveConcat(Lookup(Slice(f, kind), k), AdmittedCopies(before, kind, k), Copies(xs, k));
    }
  }

  /** Equal stamps mean equal versions. */
  ghost predicate StampsDetermine(xs: seq<Item>) {
    forall x, y :: x in xs && y in xs && SameStamp(x, y) ==> x == y
  }

  /** Any finite list of envelopes leaves a held key at the newest version. */
  lemma HeldKeyTakesNewest(f: File, ds: seq<Delivery>, kind: Kind, k: string)
    requires Lookup(Slice(f, kind), k).Some?
    ensures var c := Lookup(Slice(f, kind), k).value;
            var r := Lookup(Slice(MergeMany(f, ds), kind), k);
            r.Some? && (r.value == c || r.value in AdmittedCopies(ds, kind, k))
            && !Older(r.value, c) && forall x :: x in AdmittedCopies(ds, kind, k) ==> !Older(r.value, x)
  {
    MergeManyRefinesJoin(f, ds, kind, k);
    ResolveHeld(Lookup(Slice(f, kind), k).value, AdmittedCopies(ds, kind, k));
  }

  /** For a held key neither order nor repetition of deliveries matters. */
  lemma OrderAndRepetitionDoNotMatter(f: File, ds: seq<Delivery>, es: seq<Delivery>, kind: Kind, k: string)
    requires Lookup(Slice(f, kind), k).Some?
    requires forall x :: x in AdmittedCopies(ds, kind, k) <==> x in AdmittedCopies(es, kind, k)
    requires StampsDetermine([Lookup(Slice(f, kind), k).value] + AdmittedCopies(ds, kind, k))
    ensures Lookup(Slice(MergeMany(f, ds), kind), k) == Lookup(Slice(MergeMany(f, es), kind), k)
  {
    HeldKeyTakesNewest(f, ds, kind, k);
    HeldKeyTakesNewest(f, es, kind, k);
    var r, s := Lookup(Slice(MergeMany(f, ds), kind), k).value, Lookup(Slice(MergeMany(f, es), kind), k).value;
    assert SameStamp(r, s);
    var all := [Lookup(Slice(f, kind), k).value] + AdmittedCopies(ds, kind, k);
    assert all[0] in all;
    assert r in all && s in all;
  }

  // ----- the absent key, where order can matter

  /** Some live version is newer than every tombstone, or there is no live one. */
  ghost predicate LiveVersionWins(xs: seq<Item>) {
    (forall x :: x in xs ==> x.meta.deleted)
    || exists x :: x in xs && !x.meta.deleted && forall t :: t in xs && t.meta.deleted ==> Older(t, x)
  }

  ghost predicate OrderIrrelevant(xs: seq<Item>) {
    forall p, q :: multiset(p) == multiset(xs) && multiset(q) == multiset(xs) ==>
      LiveOf(Resolve(None, p)) == LiveOf(Resolve(None, q))
  }

  lemma SameMembers(p: seq<Item>, q: seq<Item>)
    requires multiset(p) == multiset(q)
    ensures forall x :: x in p <==> x in q
  {
    forall x ensures x in p <==> x in q {
      assert x in p <==> x in multiset(p);
      assert x in q <==> x in multiset(q);
    }
  }

  lemma LiveWinnerAnyOrder(xs: seq<Item>, p: seq<Item>, q: seq<Item>)
    requires StampsDetermine(xs) && LiveVersionWins(xs)
    requires multiset(p) == multiset(xs) && multiset(q) == multiset(xs)
    ensures LiveOf(Resolve(None, p)) == LiveOf(Resolve(None, q))
  {
    SameMembers(p, xs);
    SameMembers(q, xs);
    ResolveAbsent(p);
    ResolveAbsent(q);
    if exists x :: x in xs && !x.meta.deleted {
      var r, s := Resolve(None, p).value, Resolve(None, q).value;
      assert !r.meta.deleted && !s.meta.deleted;
      assert SameStamp(r, s);
    }
  }

  function Filtered(xs: seq<Item>, deleted: bool): seq<Item> {
    Filter(xs, (x: Item) => x.meta.deleted == deleted)
  }

  lemma {:induction false} FilteredSplits(xs: seq<Item>)
    ensures multiset(Filtered(xs, true)) + multiset(Filtered(xs, false)) == multiset(xs)
  {
    if xs != [] {
      var n := |xs| - 1;
      FilteredSplits(xs[..n]);
      assert multiset(xs) == multiset(xs[..n]) + multiset{xs[n]} by {
        assert xs == xs[..n] + [xs[n]];
      }
      forall d ensures multiset(Filtered(xs, d))
        == multiset(Filtered(xs[..n], d)) + (if xs[n].meta.deleted == d then multiset{xs[n]} else multiset{}) {
      }
    }
  }

  /** Tombstones first: they are dropped, and a live version remains. */
  lemma TombstonesFirst(tombs: seq<Item>, lives: seq<Item>)
    requires forall x :: x in tombs ==> x.meta.deleted
    requires lives != [] && forall x :: x in lives ==> !x.meta.deleted
    ensures LiveOf(Resolve(None, tombs + lives)).Some?
  {
    ResolveConcat(None, tombs, lives);
    ResolveAbsent(tombs);
    ResolveAbsent(lives);
    assert lives[0] in lives;
  }

  /** Tombstones last: one of them wins, unless some live version beats them all. */
  lemma TombstonesLast(tombs: seq<Item>, lives: seq<Item>)
    requires forall x :: x in tombs ==> x.meta.deleted
    requires lives != [] && forall x :: x in lives ==> !x.meta.deleted
    requires forall x :: x in lives ==> exists t :: t in tombs && !Older(t, x)
    ensures LiveOf(Resolve(None, lives + tombs)).None?
  {
    ResolveConcat(None, lives, tombs);
    ResolveAbsent(lives);
    assert lives[0] in lives;
    var alive := Resolve(None, lives).value;
    ResolveHeld(alive, tombs);
    var last := Resolve(None, lives + tombs).value;
    var t :| t in tombs && !Older(t, alive);
  }

  lemma FilteredTombstonesWin(xs: seq<Item>)
    requires !LiveVersionWins(xs)
    ensures LiveOf(Resolve(None, Filtered(xs, true) + Filtered(xs, false))).Some?
    ensures LiveOf(Resolve(None, Filtered(xs, false) + Filtered(xs, true))).None?
  {
    var tombs, lives := Filtered(xs, true), Filtered(xs, false);
    FilterMembers(xs, (x: Item) => x.meta.deleted == true);
    FilterMembers(xs, (x: Item) => x.meta.deleted == false);
    var x :| x in xs && !x.meta.deleted;
    assert x in lives;
    TombstonesFirst(tombs, lives);
    TombstonesLast(tombs, lives);
  }

  lemma TombstoneWinsSomeOrder(xs: seq<Item>) returns (p: seq<Item>, q: seq<Item>)
    requires !LiveVersionWins(xs)
    ensures multiset(p) == multiset(xs) && multiset(q) == multiset(xs)
    ensures LiveOf(Resolve(None, p)) != LiveOf(Resolve(None, q))
  {
    FilteredTombstonesWin(xs);
    FilteredSplits(xs);
    p, q := Filtered(xs, true) + Filtered(xs, false), Filtered(xs, false) + Filtered(xs, true);
  }

  /** For a key the node does not hold, the live outcome is the same in every
      order exactly when no tombstone is as new as the newest live version. */
  lemma AbsentKeyOrder(xs: seq<Item>)
    requires StampsDetermine(xs)
    ensures OrderIrrelevant(xs) <==> LiveVersionWins(xs)
  {
    if LiveVersionWins(xs) {
      forall p, q | multiset(p) == multiset(xs) && multiset(q) == multiset(xs)
        ensures LiveOf(Resolve(None, p)) == LiveOf(Resolve(None, q))
      {
        LiveWinnerAnyOrder(xs, p, q);
      }
    } else {
      var p, q := TombstoneWinsSomeOrder(xs);
      assert LiveOf(Resolve(None, p)) != LiveOf(Resolve(None, q));
    }
  }

  // ----- when a merge changes nothing

  ghost predicate Idle(cur: Option<Item>, x: Item) {
    if cur.None? then x.meta.deleted else !Wins(x, cur.value)
  }

  lemma {:induction false} NothingToDo(items: seq<Item>, xs: seq<Item>)
    requires forall x :: x in xs ==> Idle(Lookup(items, Key(x)), x)
    ensures PutAll(items, xs) == items
  {
    if xs != [] {
      assert xs[|xs| - 1] in xs;
      NothingToDo(items, xs[..|xs| - 1]);
    }
  }

  lemma {:induction false} CopiesDistinct(xs: seq<Item>, k: string)
    requires Distinct(xs)
    ensures Copies(xs, k) == if Lookup(xs, k).Some? then [Lookup(xs, k).value] else []
  {
    if xs != [] {
      var n := |xs| - 1;
      CopiesDistinct(xs[..n], k);
      FilterSnoc(xs[..n], xs[n], x => Key(x) == k);
      assert xs == xs[..n] + [xs[n]];
    }
  }

  lemma LookupMember(xs: seq<Item>, x: Item)
    requires Distinct(xs) && x in xs
    ensures Lookup(xs, Key(x)) == Some(x)
  {
    var i :| 0 <= i < |xs| && xs[i] == x;
    var j := LastIndex(xs, Key(x));
    assert j >= i;
    assert i == j;
  }

  lemma LookupIsMember(xs: seq<Item>, k: string)
    ensures Lookup(xs, k).Some? ==> Lookup(xs, k).value in xs && Key(Lookup(xs, k).value) == k
  {
  }

  function JoinOpt(cur: Option<Item>, x: Option<Item>): Option<Item> {
    if x.None? then cur else Join(cur, x.value)
  }

  lemma LookupMergeDistinct(items: seq<Item>, xs: seq<Item>, k: string)
    requires Distinct(xs)
    ensures Lookup(PutAll(items, xs), k) == JoinOpt(Lookup(items, k), Lookup(xs, k))
  {
    SliceMergeRefinesJoin(items, xs, k);
    CopiesDistinct(xs, k);
    var o := Lookup(xs, k);
    if o.Some? {
      assert Resolve(Lookup(items, k), [o.value]) == Join(Resolve(Lookup(items, k), []), o.value);
    }
  }

  // ----- two nodes

  /** The two versions of one key that no exchange can reconcile: equally stamped,
      live, different, and held apart by the tie rule. */
  ghost predicate Stuck(a: Item, b: Item) {
    SameStamp(a, b) && !a.meta.deleted && a != b && TieKeeps(b, a)
  }

  ghost predicate NoneStuck(a: seq<Item>, b: seq<Item>) {
    forall x, y :: x in a && y in b && Key(x) == Key(y) ==> !Stuck(x, y)
  }

  /** One key's exchange: `b` hears from `a`, then `a` hears from the new `b`. */
  lemma ExchangeOneKey(a: Option<Item>, b: Option<Item>)
    ensures var b1 := JoinOpt(b, a);
            var a1 := JoinOpt(a, b1);
            && (a1.Some? ==> Idle(b1, a1.value))
            && (b1.Some? ==> Idle(a1, b1.value))
            && (LiveOf(a1) == LiveOf(b1) <==> !(a.Some? && b.Some? && Stuck(a.value, b.value)))
  {
  }

  lemma SettledSlices(items: seq<Item>, xs: seq<Item>)
    requires Distinct(xs)
    requires forall k :: Lookup(xs, k).Some? ==> Idle(Lookup(items, k), Lookup(xs, k).value)
    ensures forall x :: x in xs ==> Idle(Lookup(items, Key(x)), x)
  {
    forall x | x in xs ensures Idle(Lookup(items, Key(x)), x) {
      LookupMember(xs, x);
    }
  }

  /** After one exchange neither side has anything new for the other, and the live
      views agree exactly when no shared key was stuck. */
  lemma ExchangeSlices(a: seq<Item>, b: seq<Item>)
    requires Distinct(a) && Distinct(b)
    ensures var b1 := PutAll(b, a);
            var a1 := PutAll(a, b1);
            && (forall x :: x in a1 ==> Idle(Lookup(b1, Key(x)), x))
            && (forall x :: x in b1 ==> Idle(Lookup(a1, Key(x)), x))
            && ((forall k :: LiveOf(Lookup(a1, k)) == LiveOf(Lookup(b1, k))) <==> NoneStuck(a, b))
  {
    var b1 := PutAll(b, a);
    var a1 := PutAll(a, b1);
    MergeKeepsPositions(b, a);
    MergeKeepsPositions(a, b1);
    forall k
      ensures Lookup(a1, k).Some? ==> Idle(Lookup(b1, k), Lookup(a1, k).value)
      ensures Lookup(b1, k).Some? ==> Idle(Lookup(a1, k), Lookup(b1, k).value)
      ensures LiveOf(Lookup(a1, k)) == LiveOf(Lookup(b1, k)) <==>
              !(Lookup(a, k).Some? && Lookup(b, k).Some? && Stuck(Lookup(a, k).value, Lookup(b, k).value))
    {
      LookupMergeDistinct(b, a, k);
      LookupMergeDistinct(a, b1, k);
      ExchangeOneKey(Lookup(a, k), Lookup(b, k));
    }
    SettledSlices(b1, a1);
    SettledSlices(a1, b1);
    StuckByLookup(a, b);
  }

  lemma StuckByLookup(a: seq<Item>, b: seq<Item>)
    requires Distinct(a) && Distinct(b)
    ensures NoneStuck(a, b) <==>
            forall k :: !(Lookup(a, k).Some? && Lookup(b, k).Some? && Stuck(Lookup(a, k).value, Lookup(b, k).value))
  {
    if NoneStuck(a, b) {
      forall k
        ensures !(Lookup(a, k).Some? && Lookup(b, k).Some? && Stuck(Lookup(a, k).value, Lookup(b, k).value))
      {
        LookupIsMember(a, k);
        LookupIsMember(b, k);
      }
    } else {
      var x, y :| x in a && y in b && Key(x) == Key(y) && Stuck(x, y);
      LookupMember(a, x);
      LookupMember(b, y);
    }
  }
}

/** A deleted key that comes back: both passes of a delete run on one node, and then an
    envelope that another node had sent before (internal/server/server.go,
    internal/sync/sync.go). */
module Comeback {
  import opened Text
  import opened Config
  import opened Validation
  import opened Merge
  import opened Convergence
  import opened Exchange
  import opened Deletion
  import opened Outcomes
  import opened Mesh

  // ----- drafts whose live items all come from an accepted file

  /** A draft drawn from an accepted file, with a default that serves, is saved. */
  lemma CoveredIsSaved(f: File, g: File, u: Default, now: Time, actor: string)
    requires Accepts(f) && DistinctKeys(g) && !g.nilDefaults && u in g.defaults && Serves(u)
    requires forall kind :: CoveredBy(Slice(g, kind), Slice(f, kind))
    ensures Finish(g, now, actor).Some?
  {
    AcceptsByKind(f);
    forall kind ensures SliceOk(Slice(g, kind)) {
      assert SliceOk(Slice(f, kind)) && CoveredBy(Slice(g, kind), Slice(f, kind));
      CoveredSliceOk(Slice(g, kind), Slice(f, kind));
    }
    assert HasRoute(g);
    AcceptsByKind(g);
    SaveDecided(g, now, actor);
  }

  // ----- the two passes

  lemma TombstonedSlice(f: File, t: Target, now: Time, actor: string, kind: Kind)
    requires FirstHit(Slice(f, KindOf(t)), t) >= 0
    ensures Tombstoned(f, t, now, actor).Some?
    ensures var a := Slice(f, kind);
            Slice(Tombstoned(f, t, now, actor).value, kind)
            == if kind == KindOf(t) then a[FirstHit(a, t) := Buried(a[FirstHit(a, t)], now, actor)] else a
    ensures Tombstoned(f, t, now, actor).value.nilDefaults == f.nilDefaults
  {
  }

  lemma RemovedSlice(f: File, t: Target, kind: Kind)
    ensures Slice(Removed(f, t), kind) == if kind == KindOf(t) then RemoveSlice(Slice(f, kind), t) else Slice(f, kind)
    ensures Removed(f, t).nilDefaults == f.nilDefaults
  {
  }

  /** What makes a file safe to delete from: accepted, distinct keys, nothing left to fill
      in, and a default that serves and is not the one named. */
  ghost predicate Settled(f: File, t: Target, u: Default) {
    && Accepts(f) && DistinctKeys(f)
    && (forall kind, x :: x in Slice(f, kind) ==> Complete(x))
    && u in f.defaults && Serves(u) && !Hits(t, u)
    && FirstHit(Slice(f, KindOf(t)), t) >= 0
  }

  /** `b` is `a`, but for the item that the request names when it speaks of this slice. */
  ghost predicate SameButNamed(a: seq<Item>, b: seq<Item>, t: Target, named: bool) {
    |b| == |a|
    && forall i :: 0 <= i < |a| ==>
         if named && i == FirstHit(a, t) then Hits(t, b[i]) && Key(b[i]) == Key(a[i]) else b[i] == a[i]
  }

  ghost predicate NamedChanged(f: File, g: File, t: Target) {
    forall kind :: SameButNamed(Slice(f, kind), Slice(g, kind), t, kind == KindOf(t))
  }

  ghost predicate NamedRemoved(f: File, g: File, t: Target) {
    forall kind ::
      Slice(g, kind) == if kind == KindOf(t) then RemoveSlice(Slice(f, kind), t) else Slice(f, kind)
  }

  lemma BuriedOk(x: Item, now: Time, actor: string)
    requires ItemOk(x)
    ensures ItemOk(Buried(x, now, actor)) && Buried(x, now, actor).meta.deleted
  {
  }

  lemma BuriedKey(t: Target, x: Item, now: Time, actor: string)
    requires Hits(t, x)
    ensures Hits(t, Buried(x, now, actor)) && Key(Buried(x, now, actor)) == Key(x)
  {
  }

  lemma BuriedCovered(a: seq<Item>, h: nat, y: Item)
    requires h < |a| && Distinct(a) && Key(y) == Key(a[h]) && y.meta.deleted && ItemOk(y)
    ensures Distinct(a[h := y]) && CoveredBy(a[h := y], a)
  {
  }

  lemma FirstPassSlice(f: File, t: Target, u: Default, now: Time, actor: string, kind: Kind)
    requires Settled(f, t, u)
    ensures var g := Tombstoned(CloneOf(f), t, now, actor).value;
            Distinct(Slice(g, kind)) && CoveredBy(Slice(g, kind), Slice(f, kind))
  {
    var a := Slice(f, kind);
    assert Slice(CloneOf(f), kind) == a;
    assert Slice(CloneOf(f), KindOf(t)) == Slice(f, KindOf(t));
    TombstonedSlice(CloneOf(f), t, now, actor, kind);
    assert Distinct(a);
    if kind == KindOf(t) {
      var h := FirstHit(a, t);
      AcceptsByKind(f);
      assert SliceOk(a);
      BuriedOk(a[h], now, actor);
      BuriedKey(t, a[h], now, actor);
      BuriedCovered(a, h, Buried(a[h], now, actor));
    }
  }

  lemma SavedHits(t: Target, x: Item, now: Time, actor: string)
    requires Hits(t, x) && HasPort(x)
    ensures Hits(t, SavedItem(x, now, actor)) && Key(SavedItem(x, now, actor)) == Key(x)
  {
  }

  lemma SavedComplete(x: Item, now: Time, actor: string)
    requires Complete(x)
    ensures SavedItem(x, now, actor) == x
  {
  }

  lemma BuriedSlice(a: seq<Item>, c: seq<Item>, t: Target, now: Time, actor: string)
    requires FirstHit(a, t) >= 0 && |c| == |a| && forall x :: x in a ==> Complete(x)
    requires var h := FirstHit(a, t);
             forall i :: 0 <= i < |a| ==>
               c[i] == SavedItem(if i == h then Buried(a[h], now, actor) else a[i], now, actor)
    ensures SameButNamed(a, c, t, true)
  {
    var h := FirstHit(a, t);
    BuriedKey(t, a[h], now, actor);
    assert a[h] in a;
    SavedHits(t, Buried(a[h], now, actor), now, actor);
    forall i | 0 <= i < |a| && i != h ensures c[i] == a[i] {
      assert a[i] in a;
      SavedComplete(a[i], now, actor);
    }
  }

  lemma FirstPassNamed(f: File, t: Target, u: Default, now: Time, actor: string, draft: File)
    requires Settled(f, t, u) && Tombstoned(CloneOf(f), t, now, actor) == Some(draft)
    requires Finish(draft, now, actor).Some?
    ensures SameButNamed(Slice(f, KindOf(t)), Slice(Finish(draft, now, actor).value, KindOf(t)), t, true)
  {
    var kind := KindOf(t);
    var a, c := Slice(f, kind), Slice(Finish(draft, now, actor).value, kind);
    assert Slice(CloneOf(f), kind) == a;
    TombstonedSlice(CloneOf(f), t, now, actor, kind);
    assert forall x :: x in a ==> Complete(x);
    SavedSlices(draft, now, actor, kind);
    BuriedSlice(a, c, t, now, actor);
  }

  lemma FirstPassOther(f: File, t: Target, u: Default, now: Time, actor: string, draft: File, kind: Kind)
    requires Settled(f, t, u) && Tombstoned(CloneOf(f), t, now, actor) == Some(draft)
    requires Finish(draft, now, actor).Some? && kind != KindOf(t)
    ensures Slice(Finish(draft, now, actor).value, kind) == Slice(f, kind)
  {
    assert Slice(CloneOf(f), kind) == Slice(f, kind);
    assert Slice(CloneOf(f), KindOf(t)) == Slice(f, KindOf(t));
    TombstonedSlice(CloneOf(f), t, now, actor, kind);
    assert forall x :: x in Slice(f, kind) ==> Complete(x);
    SaveKeepsComplete(draft, now, actor, kind);
  }

  lemma RemoveKeepsUnnamed(a: seq<Item>, t: Target, u: Item)
    requires u in a && !Hits(t, u)
    ensures u in RemoveSlice(a, t)
  {
    var i :| 0 <= i < |a| && a[i] == u;
    var h := FirstHit(a, t);
    if h >= 0 {
      assert RemoveSlice(a, t)[if i < h then i else i - 1] == u;
    }
  }

  /** A default that the request does not name is still there. */
  lemma KeepsDefault(f: File, g: File, t: Target, u: Default)
    requires u in f.defaults && !Hits(t, u)
    requires NamedChanged(f, g, t) || NamedRemoved(f, g, t)
    ensures u in g.defaults
  {
    var a, b := Slice(f, Defaults), Slice(g, Defaults);
    if NamedChanged(f, g, t) {
      var i :| 0 <= i < |a| && a[i] == u;
      assert SameButNamed(a, b, t, Defaults == KindOf(t));
      assert b[i] == u;
    } else {
      assert b == if Defaults == KindOf(t) then RemoveSlice(a, t) else a;
      RemoveKeepsUnnamed(a, t, u);
    }
  }

  lemma TombstonedKeepsDefault(f: File, t: Target, u: Default, now: Time, actor: string)
    requires Settled(f, t, u)
    ensures u in Tombstoned(CloneOf(f), t, now, actor).value.defaults
  {
    var draft := Tombstoned(CloneOf(f), t, now, actor).value;
    var i :| 0 <= i < |f.defaults| && f.defaults[i] == u;
    assert Slice(CloneOf(f), KindOf(t)) == Slice(f, KindOf(t));
    TombstonedSlice(CloneOf(f), t, now, actor, Defaults);
    assert draft.defaults[i] == u;
  }

  /** The first pass is saved, and changes only the item named. */
  lemma FirstPass(f: File, t: Target, u: Default, now: Time, actor: string)
    requires Settled(f, t, u)
    ensures var d := Tombstoned(CloneOf(f), t, now, actor);
            d.Some? && Finish(d.value, now, actor).Some?
            && NamedChanged(f, Finish(d.value, now, actor).value, t)
  {
    assert Slice(CloneOf(f), KindOf(t)) == Slice(f, KindOf(t));
    TombstonedSlice(CloneOf(f), t, now, actor, Defaults);
    var draft := Tombstoned(CloneOf(f), t, now, actor).value;
    TombstonedKeepsDefault(f, t, u, now, actor);
    forall kind ensures Distinct(Slice(draft, kind)) && CoveredBy(Slice(draft, kind), Slice(f, kind)) {
      FirstPassSlice(f, t, u, now, actor, kind);
    }
    CoveredIsSaved(f, draft, u, now, actor);
    forall kind
      ensures SameButNamed(Slice(f, kind), Slice(Finish(draft, now, actor).value, kind), t, kind == KindOf(t))
    {
      if kind == KindOf(t) {
        FirstPassNamed(f, t, u, now, actor, draft);
      } else {
        FirstPassOther(f, t, u, now, actor, draft, kind);
      }
    }
  }

  lemma FirstHitIs(items: seq<Item>, t: Target, h: nat)
    requires h < |items| && Hits(t, items[h]) && forall i :: 0 <= i < h ==> !Hits(t, items[i])
    ensures FirstHit(items, t) == h
  {
  }

  lemma SpliceAlike(a: seq<Item>, b: seq<Item>, h: nat)
    requires h < |a| == |b| && forall i :: 0 <= i < |a| && i != h ==> b[i] == a[i]
    ensures SpliceOut(b, h) == SpliceOut(a, h)
  {
    assert b[..h] == a[..h];
    assert b[h + 1..] == a[h + 1..];
  }

  lemma RemoveAfterChange(a: seq<Item>, b: seq<Item>, t: Target)
    requires SameButNamed(a, b, t, true) && FirstHit(a, t) >= 0
    ensures RemoveSlice(b, t) == RemoveSlice(a, t)
  {
    var h := FirstHit(a, t);
    FirstHitIs(b, t, h);
    SpliceAlike(a, b, h);
  }

  lemma RemovedFromChanged(f: File, g: File, t: Target, u: Default)
    requires Settled(f, t, u) && NamedChanged(f, g, t)
    ensures NamedRemoved(f, Removed(CloneOf(g), t), t)
  {
    var draft := Removed(CloneOf(g), t);
    forall kind
      ensures Slice(draft, kind) == if kind == KindOf(t) then RemoveSlice(Slice(f, kind), t) else Slice(f, kind)
    {
      RemovedSlice(CloneOf(g), t, kind);
      assert Slice(CloneOf(g), kind) == Slice(g, kind);
      assert SameButNamed(Slice(f, kind), Slice(g, kind), t, kind == KindOf(t));
      if kind == KindOf(t) {
        RemoveAfterChange(Slice(f, kind), Slice(g, kind), t);
      }
    }
  }

  lemma RemoveSliceFrom(a: seq<Item>, t: Target)
    requires Distinct(a)
    ensures Distinct(RemoveSlice(a, t)) && forall i :: 0 <= i < |RemoveSlice(a, t)| ==> RemoveSlice(a, t)[i] in a
  {
    var h, b := FirstHit(a, t), RemoveSlice(a, t);
    forall i | 0 <= i < |b| ensures b[i] == a[if h < 0 || i < h then i else i + 1] {
    }
  }

  lemma RemovedCovered(f: File, g: File, t: Target, kind: Kind)
    requires DistinctKeys(f) && NamedRemoved(f, g, t)
    ensures Distinct(Slice(g, kind)) && forall i :: 0 <= i < |Slice(g, kind)| ==> Slice(g, kind)[i] in Slice(f, kind)
  {
    assert Slice(g, kind) == if kind == KindOf(t) then RemoveSlice(Slice(f, kind), t) else Slice(f, kind);
    RemoveSliceFrom(Slice(f, kind), t);
  }

  /** The second pass is saved, and leaves the item named out. */
  lemma SecondPass(f: File, g: File, t: Target, u: Default, now: Time, actor: string)
    requires Settled(f, t, u) && NamedChanged(f, g, t)
    ensures var r := Finish(Removed(CloneOf(g), t), now, actor);
            r.Some? && NamedRemoved(f, r.value, t)
  {
    var draft := Removed(CloneOf(g), t);
    RemovedFromChanged(f, g, t, u);
    KeepsDefault(f, g, t, u);
    KeepsDefault(f, draft, t, u);
    RemovedSlice(CloneOf(g), t, Defaults);
    forall kind
      ensures Distinct(Slice(draft, kind)) && CoveredBy(Slice(draft, kind), Slice(f, kind))
      ensures forall x :: x in Slice(draft, kind) ==> x in Slice(f, kind)
    {
      RemovedCovered(f, draft, t, kind);
    }
    CoveredIsSaved(f, draft, u, now, actor);
    var r := Finish(draft, now, actor).value;
    forall kind ensures Slice(r, kind) == Slice(draft, kind) {
      SaveKeepsComplete(draft, now, actor, kind);
    }
  }

  // ----- the envelope sent before

  /** Copies that were all taken from `b` leave a key where `b` has it, or absent. */
  lemma CopiesOf(b: seq<Item>, xs: seq<Item>, k: string)
    requires Distinct(b) && forall x :: x in xs ==> x in b
    ensures forall y :: y in Copies(xs, k) ==> Lookup(b, k) == Some(y)
  {
    FilterMembers(xs, y => Key(y) == k);
    forall y | y in Copies(xs, k) ensures Lookup(b, k) == Some(y) {
      LookupMember(b, y);
    }
  }

  lemma HeldStays(a: seq<Item>, b: seq<Item>, xs: seq<Item>, x: Item)
    requires Distinct(a) && Distinct(b) && x in a && x in b && forall y :: y in xs ==> y in b
    ensures x in PutAll(a, xs)
  {
    LookupMember(a, x);
    LookupMember(b, x);
    CopiesOf(b, xs, Key(x));
    SliceMergeRefinesJoin(a, xs, Key(x));
    ResolveHeld(x, Copies(xs, Key(x)));
    LookupIsMember(PutAll(a, xs), Key(x));
  }

  lemma AbsentReturns(a: seq<Item>, b: seq<Item>, xs: seq<Item>, x: Item)
    requires Distinct(b) && x in b && x in xs && !x.meta.deleted && forall y :: y in xs ==> y in b
    requires Lookup(a, Key(x)).None?
    ensures Lookup(PutAll(a, xs), Key(x)) == Some(x)
  {
    LookupMember(b, x);
    CopiesOf(b, xs, Key(x));
    FilterMembers(xs, y => Key(y) == Key(x));
    assert x in Copies(xs, Key(x));
    SliceMergeRefinesJoin(a, xs, Key(x));
    ResolveAbsent(Copies(xs, Key(x)));
  }

  /** The envelope carries items of `f` only. */
  ghost predicate TakenFrom(env: Envelope, f: File) {
    forall kind, x :: x in EnvSlice(env, kind) ==> x in Slice(f, kind)
  }

  lemma MergedFrom(f: File, g: File, t: Target, env: Envelope, now: Time, skew: int, kind: Kind)
    requires DistinctKeys(f) && NamedRemoved(f, g, t) && TakenFrom(env, f)
    ensures var r := Slice(MergedFile(CloneOf(g), env, now, skew), kind);
            Distinct(r) && forall i :: 0 <= i < |r| ==> r[i] in Slice(f, kind)
  {
    RemovedCovered(f, g, t, kind);
    assert Slice(CloneOf(g), kind) == Slice(g, kind);
    MergedFileSlice(CloneOf(g), env, now, skew, kind);
    MergedMembers(Slice(g, kind), EnvSlice(env, kind), now, skew);
    MergeKeepsPositions(Slice(g, kind), Admitted(EnvSlice(env, kind), now, skew));
  }

  lemma MergedKeepsDefault(f: File, g: File, t: Target, u: Default, env: Envelope, now: Time, skew: int)
    requires Settled(f, t, u) && NamedRemoved(f, g, t) && TakenFrom(env, f)
    ensures var r := MergedFile(CloneOf(g), env, now, skew); u in r.defaults && !r.nilDefaults
  {
    KeepsDefault(f, g, t, u);
    RemovedCovered(f, g, t, Defaults);
    FilterMembers(env.defaults, x => Admits(x, now, skew));
    assert Distinct(Slice(f, Defaults)) && Distinct(Slice(g, Defaults));
    assert forall x :: x in EnvSlice(env, Defaults) ==> x in Slice(f, Defaults);
    HeldStays(g.defaults, f.defaults, Admitted(env.defaults, now, skew), u);
  }

  /** The merge is saved, and the item named is back. */
  lemma MergeBringsBack(f: File, g: File, t: Target, u: Default, x: Item, env: Envelope,
                        now: Time, skew: int, actor: string)
    requires Settled(f, t, u) && NamedRemoved(f, g, t) && TakenFrom(env, f)
    requires Hits(t, x) && x in EnvSlice(env, KindOf(t)) && Admits(x, now, skew) && !x.meta.deleted
    ensures var r := Finish(MergedFile(CloneOf(g), env, now, skew), now, actor);
            r.Some? && Lookup(Slice(r.value, KindOf(t)), Key(x)) == Some(x)
  {
    var draft := MergedFile(CloneOf(g), env, now, skew);
    MergedKeepsDefault(f, g, t, u, env, now, skew);
    forall kind
      ensures Distinct(Slice(draft, kind)) && CoveredBy(Slice(draft, kind), Slice(f, kind))
      ensures forall y :: y in Slice(draft, kind) ==> y in Slice(f, kind)
    {
      MergedFrom(f, g, t, env, now, skew, kind);
    }
    CoveredIsSaved(f, draft, u, now, actor);
    SaveKeepsComplete(draft, now, actor, KindOf(t));
    BroughtBack(f, g, t, x, env, now, skew);
  }

  lemma BroughtBack(f: File, g: File, t: Target, x: Item, env: Envelope, now: Time, skew: int)
    requires DistinctKeys(f) && NamedRemoved(f, g, t) && TakenFrom(env, f)
    requires Hits(t, x) && x in EnvSlice(env, KindOf(t)) && Admits(x, now, skew) && !x.meta.deleted
    ensures Lookup(Slice(MergedFile(CloneOf(g), env, now, skew), KindOf(t)), Key(x)) == Some(x)
  {
    var a, b, xs := Slice(g, KindOf(t)), Slice(f, KindOf(t)), EnvSlice(env, KindOf(t));
    HitsHasKey(t, x);
    assert x in b && Distinct(b);
    assert FirstHit(b, t) >= 0;
    RemovedIsAbsentIff(b, t);
    assert Slice(CloneOf(g), KindOf(t)) == a;
    MergedFileSlice(CloneOf(g), env, now, skew, KindOf(t));
    FilterMembers(xs, y => Admits(y, now, skew));
    AbsentReturns(a, b, Admitted(xs, now, skew), x);
  }

  // ----- the run

  lemma GoneAfterPasses(f: File, g: File, t: Target, x: Item)
    requires DistinctKeys(f) && NamedRemoved(f, g, t) && x in Slice(f, KindOf(t)) && Hits(t, x)
    ensures Lookup(Slice(g, KindOf(t)), Key(x)).None?
  {
    HitsHasKey(t, x);
    assert Distinct(Slice(f, KindOf(t)));
    RemovedIsAbsentIff(Slice(f, KindOf(t)), t);
  }

  lemma SentIsTaken(h: File, f: File, m: NodeId, peer: string, sent: Time, x: Item, kind: Kind)
    requires forall kind :: Slice(h, kind) == Slice(f, kind)
    requires x in Slice(f, kind) && Eligible(x, peer)
    ensures TakenFrom(Exported(h, m, 0, peer, sent), f)
    ensures x in EnvSlice(Exported(h, m, 0, peer, sent), kind)
  {
    var env := Exported(h, m, 0, peer, sent);
    forall k ensures EnvSlice(env, k) == ExportSlice(Slice(f, k), peer) {
      ExportedSlice(h, m, 0, peer, sent, k);
    }
    forall k, y | y in EnvSlice(env, k) ensures y in Slice(f, k) {
      ExportMembers(Slice(f, k), peer);
    }
    ExportMembers(Slice(f, kind), peer);
  }

  /** The node holds `o` for the key. */
  ghost predicate NodeHas(s: Mesh, n: NodeId, kind: Kind, k: string, o: Option<Item>) {
    n in s.nodes && Lookup(Slice(s.nodes[n], kind), k) == o
  }

  ghost predicate Sent(s: Mesh, n: NodeId, f: File, env: Envelope) {
    n in s.nodes && env in s.net && s.nodes[n] == f
  }

  ghost predicate Marked(s: Mesh, n: NodeId, f: File, env: Envelope, t: Target) {
    n in s.nodes && env in s.net && NamedChanged(f, s.nodes[n], t)
  }

  ghost predicate Gone(s: Mesh, n: NodeId, f: File, env: Envelope, t: Target) {
    n in s.nodes && env in s.net && NamedRemoved(f, s.nodes[n], t)
  }

  lemma TombstoneStep(s: Mesh, n: NodeId, f: File, env: Envelope, t: Target, u: Default, now: Time, actor: string)
    requires Sent(s, n, f, env) && Settled(f, t, u)
    ensures Marked(Do(s, Tombstone(n, t, now, actor)), n, f, env, t)
  {
    FirstPass(f, t, u, now, actor);
  }

  lemma HardDeleteStep(s: Mesh, n: NodeId, f: File, env: Envelope, t: Target, u: Default, now: Time, actor: string)
    requires Marked(s, n, f, env, t) && Settled(f, t, u)
    ensures Gone(Do(s, HardDelete(n, t, now, actor)), n, f, env, t)
  {
    SecondPass(f, s.nodes[n], t, u, now, actor);
  }

  lemma DeliveredIs(s: Mesh, n: NodeId, env: Envelope, now: Time, skew: int, actor: string, r: File)
    requires n in s.nodes && env in s.net
    requires Finish(MergedFile(CloneOf(s.nodes[n]), env, now, skew), now, actor) == Some(r)
    ensures var s' := Do(s, Deliver(n, env, now, skew, actor)); n in s'.nodes && s'.nodes[n] == r
  {
  }

  lemma DeliverStep(s: Mesh, n: NodeId, f: File, env: Envelope, t: Target, u: Default, x: Item,
                    now: Time, skew: int, actor: string)
    requires Gone(s, n, f, env, t) && Settled(f, t, u) && TakenFrom(env, f)
    requires Hits(t, x) && x in EnvSlice(env, KindOf(t)) && Admits(x, now, skew) && !x.meta.deleted
    ensures NodeHas(Do(s, Deliver(n, env, now, skew, actor)), n, KindOf(t), Key(x), Some(x))
  {
    var g := s.nodes[n];
    MergeBringsBack(f, g, t, u, x, env, now, skew, actor);
    DeliveredIs(s, n, env, now, skew, actor, Finish(MergedFile(CloneOf(g), env, now, skew), now, actor).value);
  }

  lemma RunThree(s: Mesh, a: Step, b: Step, c: Step)
    ensures Run(s, [a, b, c]) == Do(Do(Do(s, a), b), c)
  {
    assert [a, b, c][..2] == [a, b];
    assert [a, b][..1] == [a];
    assert [a][..0] == [];
    assert Run(s, [a]) == Do(Run(s, []), a);
    assert Run(s, [a, b]) == Do(Run(s, [a]), b);
  }

  lemma RunSnoc(s: Mesh, steps: seq<Step>, step: Step)
    ensures Run(s, steps + [step]) == Do(Run(s, steps), step)
  {
    assert (steps + [step])[..|steps|] == steps;
  }

  /** Both passes, after the other node has sent. */
  lemma BothPasses(s: Mesh, n: NodeId, f: File, env: Envelope, t: Target, u: Default, x: Item,
                   t1: Time, a1: string, t2: Time, a2: string, s3: Mesh)
    requires Sent(s, n, f, env) && Settled(f, t, u) && x in Slice(f, KindOf(t)) && Hits(t, x)
    requires s3 == Do(Do(s, Tombstone(n, t, t1, a1)), HardDelete(n, t, t2, a2))
    ensures Gone(s3, n, f, env, t) && NodeHas(s3, n, KindOf(t), Key(x), None)
  {
    TombstoneStep(s, n, f, env, t, u, t1, a1);
    HardDeleteStep(Do(s, Tombstone(n, t, t1, a1)), n, f, env, t, u, t2, a2);
    GoneAfterPasses(f, s3.nodes[n], t, x);
  }

  /** Two nodes hold the same items. One of them sends; the other deletes an item in both
      passes, and then receives what was sent. Between the passes and the delivery the
      key is absent; afterwards it is back, live, as the version that was deleted. */
  lemma DeletedKeyComesBack(s: Mesh, n: NodeId, m: NodeId, t: Target, u: Default, x: Item, env: Envelope,
                            peer: string, sent: Time, t1: Time, a1: string, t2: Time, a2: string,
                            t3: Time, skew: int, a3: string)
    requires n in s.nodes && m in s.nodes && forall kind :: Slice(s.nodes[m], kind) == Slice(s.nodes[n], kind)
    requires Settled(s.nodes[n], t, u)
    requires x in Slice(s.nodes[n], KindOf(t)) && Hits(t, x) && !x.meta.deleted
    requires Eligible(x, peer) && Admits(x, t3, skew) && env == Exported(s.nodes[m], m, 0, peer, sent)
    ensures var steps := [Export(m, peer, sent), Tombstone(n, t, t1, a1), HardDelete(n, t, t2, a2)];
            && NodeHas(Run(s, steps), n, KindOf(t), Key(x), None)
            && NodeHas(Run(s, steps + [Deliver(n, env, t3, skew, a3)]), n, KindOf(t), Key(x), Some(x))
  {
    var f := s.nodes[n];
    var s1 := Do(s, Export(m, peer, sent));
    var s3 := Do(Do(s1, Tombstone(n, t, t1, a1)), HardDelete(n, t, t2, a2));
    RunThree(s, Export(m, peer, sent), Tombstone(n, t, t1, a1), HardDelete(n, t, t2, a2));
    RunSnoc(s, [Export(m, peer, sent), Tombstone(n, t, t1, a1), HardDelete(n, t, t2, a2)],
            Deliver(n, env, t3, skew, a3));
    assert Sent(s1, n, f, env);
    BothPasses(s1, n, f, env, t, u, x, t1, a1, t2, a2, s3);
    SentIsTaken(s.nodes[m], f, m, peer, sent, x, KindOf(t));
    DeliverStep(s3, n, f, env, t, u, x, t3, skew, a3);
  }
}

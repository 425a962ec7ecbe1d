/** Deleted keys stay deleted: over whole runs of the mesh, and on a node that
    still holds its tombstone (internal/sync/sync.go, internal/server/server.go). */
module Resurrection {
  import opened Text
  import opened Config
  import opened Validation
  import opened Merge
  import opened Convergence
  import opened Exchange
  import opened Deletion
  import opened Mesh

  // ----- saving and keys

  ghost predicate Ported(items: seq<Item>) {
    forall x :: x in items ==> HasPort(x)
  }

  lemma {:induction false} LastIndexSameKeys(a: seq<Item>, b: seq<Item>, k: string)
    requires |a| == |b| && forall i :: 0 <= i < |a| ==> Key(a[i]) == Key(b[i])
    ensures LastIndex(a, k) == LastIndex(b, k)
  {
    if a != [] {
      LastIndexSameKeys(a[..|a| - 1], b[..|b| - 1], k);
    }
  }

  lemma SavedKey(x: Item, now: Time, actor: string)
    requires HasPort(x)
    ensures Key(SavedItem(x, now, actor)) == Key(x)
  {
  }

  /** With ports in place a save keeps every key where it was. */
  lemma SaveLookup(draft: File, now: Time, actor: string, kind: Kind, k: string)
    requires Finish(draft, now, actor).Some? && Ported(Slice(draft, kind))
    ensures var f := Finish(draft, now, actor).value;
            var x := Lookup(Slice(draft, kind), k);
            Lookup(Slice(f, kind), k) == if x.None? then None else Some(SavedItem(x.value, now, actor))
  {
    var a, b := Slice(draft, kind), Slice(Finish(draft, now, actor).value, kind);
    SavedSlices(draft, now, actor, kind);
    forall i | 0 <= i < |a| ensures Key(a[i]) == Key(b[i]) {
      assert a[i] in a;
      SavedKey(a[i], now, actor);
    }
    LastIndexSameKeys(a, b, k);
  }

  // ----- no live version, ever again

  ghost predicate Dead(items: seq<Item>, k: string) {
    forall x :: x in items && Key(x) == k ==> x.meta.deleted
  }

  ghost predicate NoLive(s: Mesh, kind: Kind, k: string) {
    (forall n :: n in s.nodes ==> Dead(Slice(s.nodes[n], kind), k))
    && (forall env :: env in s.net ==> Dead(EnvSlice(env, kind), k))
  }

  lemma NodePorted(s: Mesh, n: NodeId, kind: Kind)
    requires Safe(s) && n in s.nodes
    ensures Ported(Slice(s.nodes[n], kind))
  {
    ItemsMembers(s.nodes[n]);
    forall x | x in Slice(s.nodes[n], kind) ensures HasPort(x) {
      assert NodeSafe(s.log, n, x);
    }
  }

  lemma WirePorted(s: Mesh, env: Envelope, kind: Kind)
    requires Safe(s) && env in s.net
    ensures Ported(EnvSlice(env, kind))
  {
    EnvItemsMembers(env);
    forall x | x in EnvSlice(env, kind) ensures HasPort(x) {
      assert WireSafe(s.log, x);
    }
  }

  lemma SavedStaysDead(draft: File, now: Time, actor: string, kind: Kind, k: string)
    requires Finish(draft, now, actor).Some? && Ported(Slice(draft, kind)) && Dead(Slice(draft, kind), k)
    ensures Dead(Slice(Finish(draft, now, actor).value, kind), k)
  {
    var a, b := Slice(draft, kind), Slice(Finish(draft, now, actor).value, kind);
    SavedSlices(draft, now, actor, kind);
    forall y | y in b && Key(y) == k ensures y.meta.deleted {
      var i :| 0 <= i < |b| && b[i] == y;
      assert a[i] in a;
      SavedKey(a[i], now, actor);
    }
  }

  lemma SaveStaysDead(s: Mesh, n: NodeId, draft: File, now: Time, actor: string, local: bool, kind: Kind, k: string)
    requires NoLive(s, kind, k) && n in s.nodes
    requires Ported(Slice(draft, kind)) && Dead(Slice(draft, kind), k)
    ensures NoLive(Save(s, n, draft, now, actor, local), kind, k)
  {
    if Finish(draft, now, actor).Some? {
      SavedStaysDead(draft, now, actor, kind, k);
    }
  }

  lemma MergedStaysDead(f: File, env: Envelope, now: Time, skew: int, kind: Kind, k: string)
    requires Ported(Slice(f, kind)) && Dead(Slice(f, kind), k)
    requires Ported(EnvSlice(env, kind)) && Dead(EnvSlice(env, kind), k)
    ensures var g := MergedFile(f, env, now, skew);
            Ported(Slice(g, kind)) && Dead(Slice(g, kind), k)
  {
    MergedFileSlice(f, env, now, skew, kind);
    MergedMembers(Slice(f, kind), EnvSlice(env, kind), now, skew);
  }

  lemma TombstonedStaysDead(f: File, t: Target, now: Time, actor: string, kind: Kind, k: string)
    requires Tombstoned(f, t, now, actor).Some?
    requires Ported(Slice(f, kind)) && Dead(Slice(f, kind), k)
    ensures var g := Tombstoned(f, t, now, actor).value;
            Ported(Slice(g, kind)) && Dead(Slice(g, kind), k)
  {
    var g := Tombstoned(f, t, now, actor).value;
    var a, b := Slice(f, kind), Slice(g, kind);
    if KindOf(t) == kind {
      var i := FirstHit(a, t);
      assert b == a[i := Buried(a[i], now, actor)];
      assert a[i] in a;
      forall y | y in b ensures y in a || y == Buried(a[i], now, actor) {
      }
    } else {
      assert b == a;
    }
  }

  lemma RemovedStaysDead(f: File, t: Target, kind: Kind, k: string)
    requires Ported(Slice(f, kind)) && Dead(Slice(f, kind), k)
    ensures Ported(Slice(Removed(f, t), kind)) && Dead(Slice(Removed(f, t), kind), k)
  {
    var a, b := Slice(f, kind), Slice(Removed(f, t), kind);
    assert b == if KindOf(t) == kind then RemoveSlice(a, t) else a;
    assert forall y :: y in b ==> y in a;
  }

  /** The step is no edit that would leave a live version of the key, counting the port
      that saving fills in. */
  ghost predicate WritesNoLive(step: Step, kind: Kind, k: string) {
    match step
    case Write(_, draft, now, actor) =>
      forall x :: x in Slice(draft, kind) && Key(SavedItem(x, now, actor)) == k ==> x.meta.deleted
    case _ => true
  }

  lemma WrittenStaysDead(draft: File, now: Time, actor: string, kind: Kind, k: string)
    requires Finish(draft, now, actor).Some?
    requires forall x :: x in Slice(draft, kind) && Key(SavedItem(x, now, actor)) == k ==> x.meta.deleted
    ensures Dead(Slice(Finish(draft, now, actor).value, kind), k)
  {
    var a, b := Slice(draft, kind), Slice(Finish(draft, now, actor).value, kind);
    SavedSlices(draft, now, actor, kind);
    forall y | y in b && Key(y) == k ensures y.meta.deleted {
      var i :| 0 <= i < |b| && b[i] == y;
      assert a[i] in a;
    }
  }

  lemma StepStaysDead(s: Mesh, step: Step, kind: Kind, k: string)
    requires Safe(s) && NoLive(s, kind, k) && WritesNoLive(step, kind, k)
    ensures NoLive(Do(s, step), kind, k)
  {
    match step
    case Write(n, draft, now, actor) =>
      if n in s.nodes && Finish(draft, now, actor).Some? {
        WrittenStaysDead(draft, now, actor, kind, k);
      }
    case Tombstone(n, t, now, actor) =>
      if n in s.nodes && Tombstoned(CloneOf(s.nodes[n]), t, now, actor).Some? {
        NodePorted(s, n, kind);
        assert Slice(CloneOf(s.nodes[n]), kind) == Slice(s.nodes[n], kind);
        TombstonedStaysDead(CloneOf(s.nodes[n]), t, now, actor, kind, k);
        SaveStaysDead(s, n, Tombstoned(CloneOf(s.nodes[n]), t, now, actor).value, now, actor, true, kind, k);
      }
    case HardDelete(n, t, now, actor) =>
      if n in s.nodes {
        NodePorted(s, n, kind);
        assert Slice(CloneOf(s.nodes[n]), kind) == Slice(s.nodes[n], kind);
        RemovedStaysDead(CloneOf(s.nodes[n]), t, kind, k);
        SaveStaysDead(s, n, Removed(CloneOf(s.nodes[n]), t), now, actor, false, kind, k);
      }
    case Export(n, peer, now) =>
      if n in s.nodes {
        ExportedSlice(s.nodes[n], n, 0, peer, now, kind);
        ExportMembers(Slice(s.nodes[n], kind), peer);
      }
    case Deliver(n, env, now, skew, actor) =>
      if n in s.nodes && env in s.net {
        NodePorted(s, n, kind);
        WirePorted(s, env, kind);
        assert Slice(CloneOf(s.nodes[n]), kind) == Slice(s.nodes[n], kind);
        MergedStaysDead(CloneOf(s.nodes[n]), env, now, skew, kind, k);
        SaveStaysDead(s, n, MergedFile(CloneOf(s.nodes[n]), env, now, skew), now, actor, false, kind, k);
      }
    case Drop(_) =>
  }

  /** Once no node and no envelope holds a live version of a key, no run of edits of
      other items, deletes, exports, losses, repeats and merges makes one. */
  lemma {:induction false} NoResurrection(s: Mesh, steps: seq<Step>, kind: Kind, k: string)
    requires Safe(s) && NoLive(s, kind, k)
    requires forall step :: step in steps ==> WritesNoLive(step, kind, k)
    ensures Safe(Run(s, steps)) && NoLive(Run(s, steps), kind, k)
  {
    if steps != [] {
      var before, step := Run(s, steps[..|steps| - 1]), steps[|steps| - 1];
      NoResurrection(s, steps[..|steps| - 1], kind, k);
      assert step in steps;
      StepSafe(before, step);
      StepStaysDead(before, step, kind, k);
    }
  }

  // ----- a held version never ages

  /** A version is still held, and no older one. */
  predicate KeepsUp(before: Option<Item>, after: Option<Item>) {
    before.Some? ==> after.Some? && !Older(after.value, before.value)
  }

  /** The step is no local change on this node that drops the key or dates it back: an
      edit saves no older version of it, and a delete names another key or, in its
      first pass, is not stamped before the version it buries. */
  ghost predicate Undisturbed(s: Mesh, step: Step, n: NodeId, kind: Kind, k: string)
    requires n in s.nodes
  {
    var cur := Lookup(Slice(s.nodes[n], kind), k);
    match step
    case Write(m, draft, now, actor) =>
      m != n || Finish(draft, now, actor).None?
      || KeepsUp(cur, Lookup(Slice(Finish(draft, now, actor).value, kind), k))
    case Tombstone(m, t, now, _) =>
      m != n || KindOf(t) != kind || TargetKey(t) != k || (cur.Some? && cur.value.meta.updatedAt <= now)
    case HardDelete(m, t, _, _) => m != n || KindOf(t) != kind || TargetKey(t) != k
    case _ => true
  }

  /** Node `n` holds the key at a version no older than `x`. */
  ghost predicate HoldsSince(s: Mesh, n: NodeId, kind: Kind, k: string, x: Item) {
    n in s.nodes
    && var r := Lookup(Slice(s.nodes[n], kind), k);
       r.Some? && !Older(r.value, x)
  }

  lemma SaveHolds(
      s: Mesh, n: NodeId, draft: File, now: Time, actor: string, local: bool, kind: Kind, k: string, x: Item)
    requires HoldsSince(s, n, kind, k, x) && Ported(Slice(draft, kind))
    requires Lookup(Slice(draft, kind), k).Some? && !Older(Lookup(Slice(draft, kind), k).value, x)
    ensures HoldsSince(Save(s, n, draft, now, actor, local), n, kind, k, x)
  {
    if Finish(draft, now, actor).Some? {
      SaveLookup(draft, now, actor, kind, k);
      SavedIsFilled(Lookup(Slice(draft, kind), k).value, now, actor);
    }
  }

  lemma MergeHolds(f: File, env: Envelope, now: Time, skew: int, kind: Kind, k: string, x: Item)
    requires Ported(Slice(f, kind)) && Ported(EnvSlice(env, kind))
    requires Lookup(Slice(f, kind), k).Some? && !Older(Lookup(Slice(f, kind), k).value, x)
    ensures var g := MergedFile(f, env, now, skew);
            Ported(Slice(g, kind)) && Lookup(Slice(g, kind), k).Some? && !Older(Lookup(Slice(g, kind), k).value, x)
  {
    MergedFileSlice(f, env, now, skew, kind);
    MergedMembers(Slice(f, kind), EnvSlice(env, kind), now, skew);
    var xs := Admitted(EnvSlice(env, kind), now, skew);
    SliceMergeRefinesJoin(Slice(f, kind), xs, k);
    ResolveHeld(Lookup(Slice(f, kind), k).value, Copies(xs, k));
  }

  lemma TombstoneHolds(f: File, t: Target, now: Time, actor: string, kind: Kind, k: string)
    requires Tombstoned(f, t, now, actor).Some? && (KindOf(t) != kind || TargetKey(t) != k)
    requires Ported(Slice(f, kind))
    ensures var g := Tombstoned(f, t, now, actor).value;
            Ported(Slice(g, kind)) && Lookup(Slice(g, kind), k) == Lookup(Slice(f, kind), k)
  {
    var g := Tombstoned(f, t, now, actor).value;
    var a, b := Slice(f, kind), Slice(g, kind);
    if KindOf(t) == kind {
      var i := FirstHit(a, t);
      HitsHasKey(t, a[i]);
      assert b == a[i := Buried(a[i], now, actor)];
      assert a[i] in a;
      LastIndexUpdate(a, i, Buried(a[i], now, actor), k);
      forall y | y in b ensures y in a || y == Buried(a[i], now, actor) {
      }
    } else {
      assert b == a;
    }
  }

  lemma RemoveHolds(f: File, t: Target, kind: Kind, k: string)
    requires KindOf(t) != kind || TargetKey(t) != k
    requires Ported(Slice(f, kind))
    ensures Ported(Slice(Removed(f, t), kind))
    ensures Lookup(Slice(Removed(f, t), kind), k) == Lookup(Slice(f, kind), k)
  {
    var a, b := Slice(f, kind), Slice(Removed(f, t), kind);
    assert b == if KindOf(t) == kind then RemoveSlice(a, t) else a;
    assert forall y :: y in b ==> y in a;
    if KindOf(t) == kind {
      RemoveKeepsOthers(a, t, k);
    }
  }

  /** Burying the version held, or an earlier position of its key. */
  lemma BuryHolds(f: File, t: Target, now: Time, actor: string, kind: Kind, k: string)
    requires Tombstoned(f, t, now, actor).Some? && KindOf(t) == kind && TargetKey(t) == k
    requires Ported(Slice(f, kind))
    requires Lookup(Slice(f, kind), k).Some? && Lookup(Slice(f, kind), k).value.meta.updatedAt <= now
    ensures var g := Tombstoned(f, t, now, actor).value;
            Ported(Slice(g, kind)) && KeepsUp(Lookup(Slice(f, kind), k), Lookup(Slice(g, kind), k))
  {
    var a, b := Slice(f, kind), Slice(Tombstoned(f, t, now, actor).value, kind);
    var i := FirstHit(a, t);
    HitsHasKey(t, a[i]);
    assert b == a[i := Buried(a[i], now, actor)];
    assert a[i] in a;
    LastIndexUpdate(a, i, Buried(a[i], now, actor), k);
    forall y | y in b ensures y in a || y == Buried(a[i], now, actor) {
    }
  }

  lemma StepHolds(s: Mesh, step: Step, n: NodeId, kind: Kind, k: string, x: Item)
    requires Safe(s) && HoldsSince(s, n, kind, k, x) && Undisturbed(s, step, n, kind, k)
    ensures HoldsSince(Do(s, step), n, kind, k, x)
  {
    NodePorted(s, n, kind);
    var f := CloneOf(s.nodes[n]);
    assert Slice(f, kind) == Slice(s.nodes[n], kind);
    match step
    case Write(m, draft, now, actor) =>
      assert m == n && Finish(draft, now, actor).Some? ==> HoldsSince(Do(s, step), n, kind, k, x);
    case Tombstone(m, t, now, actor) =>
      if m == n && Tombstoned(f, t, now, actor).Some? {
        if KindOf(t) == kind && TargetKey(t) == k {
          BuryHolds(f, t, now, actor, kind, k);
        } else {
          TombstoneHolds(f, t, now, actor, kind, k);
        }
        SaveHolds(s, n, Tombstoned(f, t, now, actor).value, now, actor, true, kind, k, x);
      }
    case HardDelete(m, t, now, actor) =>
      if m == n {
        RemoveHolds(f, t, kind, k);
        SaveHolds(s, n, Removed(f, t), now, actor, false, kind, k, x);
      }
    case Export(_, _, _) =>
    case Deliver(m, env, now, skew, actor) =>
      if m == n && env in s.net {
        WirePorted(s, env, kind);
        MergeHolds(f, env, now, skew, kind, k, x);
        SaveHolds(s, n, MergedFile(f, env, now, skew), now, actor, false, kind, k, x);
      }
    case Drop(_) =>
  }

  /** Whatever else the mesh does, a node that does not itself drop a key or date it back
      never moves it to an older version; so a tombstone stamped t is never replaced by
      a live version stamped t or earlier. */
  lemma {:induction false} HeldVersionNeverAges(s: Mesh, steps: seq<Step>, n: NodeId, kind: Kind, k: string, x: Item)
    requires Safe(s) && n in s.nodes && Lookup(Slice(s.nodes[n], kind), k) == Some(x)
    requires UndisturbedRun(s, steps, n, kind, k)
    ensures Safe(Run(s, steps)) && HoldsSince(Run(s, steps), n, kind, k, x)
    ensures var r := Lookup(Slice(Run(s, steps).nodes[n], kind), k).value;
            x.meta.deleted && !r.meta.deleted ==> r.meta.updatedAt > x.meta.updatedAt
  {
    if steps != [] {
      var before, step := Run(s, steps[..|steps| - 1]), steps[|steps| - 1];
      HeldVersionNeverAges(s, steps[..|steps| - 1], n, kind, k, x);
      StepSafe(before, step);
      StepHolds(before, step, n, kind, k, x);
    }
  }

  /** No step of the run disturbs the key on this node. */
  ghost predicate UndisturbedRun(s: Mesh, steps: seq<Step>, n: NodeId, kind: Kind, k: string) {
    steps == []
    || (UndisturbedRun(s, steps[..|steps| - 1], n, kind, k)
        && n in Run(s, steps[..|steps| - 1]).nodes
        && Undisturbed(Run(s, steps[..|steps| - 1]), steps[|steps| - 1], n, kind, k))
  }
}

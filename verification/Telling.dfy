/** How a delete reaches another node: only through an envelope exported while the
    tombstone was there, between the two passes (internal/server/server.go,
    internal/sync/sync.go). */
module Telling {
  import opened Config
  import opened Validation
  import opened Merge
  import opened Convergence
  import opened Exchange
  import opened Deletion
  import opened Mesh
  import opened Resurrection

  ghost predicate NoDead(items: seq<Item>, k: string) {
    forall x :: x in items && Key(x) == k ==> !x.meta.deleted
  }

  ghost predicate LiveIn(items: seq<Item>, k: string) {
    LiveOf(Lookup(items, k)).Some?
  }

  ghost predicate LiveAt(s: Mesh, n: NodeId, kind: Kind, k: string) {
    n in s.nodes && LiveIn(Slice(s.nodes[n], kind), k)
  }

  /** The step does not itself kill or drop the key on this node: no local edit or delete
      of it, and no delivery that lets a tombstone of it in. */
  ghost predicate Untold(s: Mesh, step: Step, n: NodeId, kind: Kind, k: string) {
    match step
    case Write(m, draft, now, actor) =>
      m != n || Finish(draft, now, actor).None? || LiveIn(Slice(Finish(draft, now, actor).value, kind), k)
    case Tombstone(m, t, _, _) => m != n || KindOf(t) != kind || TargetKey(t) != k
    case HardDelete(m, t, _, _) => m != n || KindOf(t) != kind || TargetKey(t) != k
    case Deliver(m, env, now, skew, _) =>
      m != n || env !in s.net || NoDead(Admitted(EnvSlice(env, kind), now, skew), k)
    case _ => true
  }

  lemma SavedStaysLive(s: Mesh, n: NodeId, draft: File, now: Time, actor: string, local: bool, kind: Kind, k: string)
    requires LiveAt(s, n, kind, k) && Ported(Slice(draft, kind)) && LiveIn(Slice(draft, kind), k)
    ensures LiveAt(Save(s, n, draft, now, actor, local), n, kind, k)
  {
    if Finish(draft, now, actor).Some? {
      SaveLookup(draft, now, actor, kind, k);
    }
  }

  lemma MergedStaysLive(f: File, env: Envelope, now: Time, skew: int, kind: Kind, k: string)
    requires Ported(Slice(f, kind)) && Ported(EnvSlice(env, kind)) && LiveIn(Slice(f, kind), k)
    requires NoDead(Admitted(EnvSlice(env, kind), now, skew), k)
    ensures var g := MergedFile(f, env, now, skew); Ported(Slice(g, kind)) && LiveIn(Slice(g, kind), k)
  {
    var xs := Admitted(EnvSlice(env, kind), now, skew);
    MergedFileSlice(f, env, now, skew, kind);
    MergedMembers(Slice(f, kind), EnvSlice(env, kind), now, skew);
    SliceMergeRefinesJoin(Slice(f, kind), xs, k);
    FilterMembers(xs, x => Key(x) == k);
    ResolveHeld(Lookup(Slice(f, kind), k).value, Copies(xs, k));
  }

  lemma StepStaysLive(s: Mesh, step: Step, n: NodeId, kind: Kind, k: string)
    requires Safe(s) && LiveAt(s, n, kind, k) && Untold(s, step, n, kind, k)
    ensures LiveAt(Do(s, step), n, kind, k)
  {
    NodePorted(s, n, kind);
    var f := CloneOf(s.nodes[n]);
    assert Slice(f, kind) == Slice(s.nodes[n], kind);
    match step
    case Write(_, _, _, _) =>
    case Tombstone(m, t, now, actor) =>
      if m == n && Tombstoned(f, t, now, actor).Some? {
        TombstoneHolds(f, t, now, actor, kind, k);
        SavedStaysLive(s, n, Tombstoned(f, t, now, actor).value, now, actor, true, kind, k);
      }
    case HardDelete(m, t, now, actor) =>
      if m == n {
        RemoveHolds(f, t, kind, k);
        SavedStaysLive(s, n, Removed(f, t), now, actor, false, kind, k);
      }
    case Export(_, _, _) =>
    case Deliver(m, env, now, skew, actor) =>
      if m == n && env in s.net {
        WirePorted(s, env, kind);
        MergedStaysLive(f, env, now, skew, kind, k);
        SavedStaysLive(s, n, MergedFile(f, env, now, skew), now, actor, false, kind, k);
      }
    case Drop(_) =>
  }

  /** No node exports while it holds a tombstone of the key. */
  ghost predicate Silent(s: Mesh, step: Step, kind: Kind, k: string) {
    step.Export? && step.n in s.nodes ==> NoDead(Slice(s.nodes[step.n], kind), k)
  }

  ghost predicate WireLive(s: Mesh, kind: Kind, k: string) {
    forall env :: env in s.net ==> NoDead(EnvSlice(env, kind), k)
  }

  lemma StepWireLive(s: Mesh, step: Step, kind: Kind, k: string)
    requires WireLive(s, kind, k) && Silent(s, step, kind, k)
    ensures WireLive(Do(s, step), kind, k)
  {
    if step.Export? && step.n in s.nodes {
      ExportedSlice(s.nodes[step.n], step.n, 0, step.peer, step.now, kind);
      ExportMembers(Slice(s.nodes[step.n], kind), step.peer);
    }
  }

  /** The node's own edits and deletes leave the key live. */
  ghost predicate OwnStepsKeep(s: Mesh, step: Step, n: NodeId, kind: Kind, k: string) {
    step.Deliver? || Untold(s, step, n, kind, k)
  }

  /** A run in which nobody exports while holding a tombstone of the key and this node
      leaves the key alone: others may delete it in both passes as often as they like. */
  ghost predicate NeverTold(s: Mesh, steps: seq<Step>, n: NodeId, kind: Kind, k: string) {
    steps == []
    || (NeverTold(s, steps[..|steps| - 1], n, kind, k)
        && Silent(Run(s, steps[..|steps| - 1]), steps[|steps| - 1], kind, k)
        && OwnStepsKeep(Run(s, steps[..|steps| - 1]), steps[|steps| - 1], n, kind, k))
  }

  lemma AdmittedNoDead(xs: seq<Item>, now: Time, skew: int, k: string)
    requires NoDead(xs, k)
    ensures NoDead(Admitted(xs, now, skew), k)
  {
    FilterMembers(xs, x => Admits(x, now, skew));
  }

  /** A delete reaches another node only through an envelope that was exported while the
      tombstone was there: in a run without such an export every node that holds the
      key live and leaves it alone keeps a live version, whatever is deleted elsewhere
      and whatever is delivered. */
  lemma {:induction false} UntoldStaysLive(s: Mesh, steps: seq<Step>, n: NodeId, kind: Kind, k: string)
    requires Safe(s) && WireLive(s, kind, k) && LiveAt(s, n, kind, k) && NeverTold(s, steps, n, kind, k)
    ensures var e := Run(s, steps); Safe(e) && WireLive(e, kind, k) && LiveAt(e, n, kind, k)
  {
    if steps != [] {
      var before, step := Run(s, steps[..|steps| - 1]), steps[|steps| - 1];
      UntoldStaysLive(s, steps[..|steps| - 1], n, kind, k);
      if step.Deliver? && step.env in before.net {
        AdmittedNoDead(EnvSlice(step.env, kind), step.now, step.skew, k);
      }
      StepSafe(before, step);
      StepWireLive(before, step, kind, k);
      StepStaysLive(before, step, n, kind, k);
    }
  }

  /** And an envelope exported in between does tell: a node that lets its tombstone in, no
      older than the version held, holds the key live no longer. */
  lemma ToldIsDead(f: File, env: Envelope, now: Time, skew: int, kind: Kind, k: string, dead: Item)
    requires LiveIn(Slice(f, kind), k)
    requires dead in EnvSlice(env, kind) && Key(dead) == k && dead.meta.deleted && Admits(dead, now, skew)
    requires forall x :: x in EnvSlice(env, kind) && Key(x) == k ==> !Older(dead, x)
    requires dead.meta.updatedAt >= Lookup(Slice(f, kind), k).value.meta.updatedAt
    ensures !LiveIn(Slice(MergedFile(f, env, now, skew), kind), k)
  {
    var xs := Admitted(EnvSlice(env, kind), now, skew);
    MergedFileSlice(f, env, now, skew, kind);
    SliceMergeRefinesJoin(Slice(f, kind), xs, k);
    FilterMembers(EnvSlice(env, kind), x => Admits(x, now, skew));
    FilterMembers(xs, x => Key(x) == k);
    ResolveHeld(Lookup(Slice(f, kind), k).value, Copies(xs, k));
    assert dead in Copies(xs, k);
  }
}

/** Runs of the mesh without local changes: boundedly many deliveries change anything,
    and a mesh at rest shows one live view (internal/sync/sync.go,
    internal/config/store.go). */
module Settling {
  import opened Text
  import opened Config
  import opened Validation
  import opened Merge
  import opened Convergence
  import opened Ties
  import opened Exchange
  import opened Quiescence
  import opened Mesh

  predicate IsSync(step: Step) {
    step.Export? || step.Deliver? || step.Drop?
  }

  /** The versions in play: key and stamp determine each, and none lacks a field that
      saving would fill in. */
  ghost predicate Versions(universe: set<Item>) {
    Determined(universe) && forall x :: x in universe ==> Complete(x)
  }

  ghost predicate NodeWithin(s: Mesh, n: NodeId, kind: Kind, universe: set<Item>) {
    n in s.nodes && Distinct(Slice(s.nodes[n], kind)) && Within(Slice(s.nodes[n], kind), universe)
  }

  ghost predicate MeshWithin(s: Mesh, kind: Kind, universe: set<Item>) {
    (forall n :: n in s.nodes ==> NodeWithin(s, n, kind, universe))
    && (forall env :: env in s.net ==> Within(EnvSlice(env, kind), universe))
  }

  /** What a delivery leaves of a slice: the merge, or nothing new if it is refused. */
  lemma DeliveredSlice(s: Mesh, n: NodeId, env: Envelope, now: Time, skew: int, actor: string,
                       kind: Kind, universe: set<Item>)
    requires Versions(universe) && NodeWithin(s, n, kind, universe)
    requires env in s.net && Within(EnvSlice(env, kind), universe)
    ensures var s' := Do(s, Deliver(n, env, now, skew, actor));
            && s'.nodes.Keys == s.nodes.Keys && s'.net == s.net
            && (forall m :: m in s.nodes && m != n ==> s'.nodes[m] == s.nodes[m])
            && Slice(s'.nodes[n], kind)
               == if Finish(MergedFile(CloneOf(s.nodes[n]), env, now, skew), now, actor).None?
                  then Slice(s.nodes[n], kind)
                  else PutAll(Slice(s.nodes[n], kind), Admitted(EnvSlice(env, kind), now, skew))
  {
    var draft := MergedFile(CloneOf(s.nodes[n]), env, now, skew);
    if Finish(draft, now, actor).Some? {
      assert Slice(CloneOf(s.nodes[n]), kind) == Slice(s.nodes[n], kind);
      MergedFileSlice(CloneOf(s.nodes[n]), env, now, skew, kind);
      MergedMembers(Slice(s.nodes[n], kind), EnvSlice(env, kind), now, skew);
      SaveKeepsComplete(draft, now, actor, kind);
    }
  }

  lemma AdmittedWithin(xs: seq<Item>, now: Time, skew: int, universe: set<Item>)
    requires Within(xs, universe)
    ensures Within(Admitted(xs, now, skew), universe)
  {
    FilterMembers(xs, x => Admits(x, now, skew));
  }

  /** One step's progress on one node. */
  ghost predicate Gains(s: Mesh, s': Mesh, n: NodeId, kind: Kind, universe: set<Item>)
    requires n in s.nodes && n in s'.nodes
  {
    var a, b := Slice(s.nodes[n], kind), Slice(s'.nodes[n], kind);
    ReachedSet(a, universe) <= ReachedSet(b, universe)
    && (a != b ==> ReachedSet(a, universe) != ReachedSet(b, universe))
  }

  lemma DeliverGains(s: Mesh, n: NodeId, env: Envelope, now: Time, skew: int, actor: string,
                     kind: Kind, universe: set<Item>)
    requires Versions(universe) && NodeWithin(s, n, kind, universe)
    requires env in s.net && Within(EnvSlice(env, kind), universe)
    ensures var s' := Do(s, Deliver(n, env, now, skew, actor));
            NodeWithin(s', n, kind, universe) && Gains(s, s', n, kind, universe)
  {
    var a, xs := Slice(s.nodes[n], kind), Admitted(EnvSlice(env, kind), now, skew);
    DeliveredSlice(s, n, env, now, skew, actor, kind, universe);
    AdmittedWithin(EnvSlice(env, kind), now, skew, universe);
    MergeGains(a, xs, universe);
    MergeKeepsPositions(a, xs);
  }

  lemma ExportWithin(s: Mesh, n: NodeId, peer: string, now: Time, kind: Kind, universe: set<Item>)
    requires MeshWithin(s, kind, universe) && n in s.nodes
    ensures MeshWithin(Do(s, Export(n, peer, now)), kind, universe)
  {
    ExportedSlice(s.nodes[n], n, 0, peer, now, kind);
    ExportMembers(Slice(s.nodes[n], kind), peer);
    assert NodeWithin(s, n, kind, universe);
    assert forall m :: m in s.nodes ==> NodeWithin(s, m, kind, universe);
  }

  lemma SyncStep(s: Mesh, step: Step, kind: Kind, universe: set<Item>)
    requires Versions(universe) && MeshWithin(s, kind, universe) && IsSync(step)
    ensures var s' := Do(s, step);
            && s'.nodes.Keys == s.nodes.Keys && MeshWithin(s', kind, universe)
            && forall n :: n in s.nodes ==> Gains(s, s', n, kind, universe)
  {
    match step
    case Export(n, peer, now) =>
      if n in s.nodes {
        ExportWithin(s, n, peer, now, kind, universe);
      }
      assert forall m :: m in s.nodes ==> Gains(s, Do(s, step), m, kind, universe);
    case Deliver(n, env, now, skew, actor) =>
      if n in s.nodes && env in s.net {
        DeliveredSlice(s, n, env, now, skew, actor, kind, universe);
        DeliverGains(s, n, env, now, skew, actor, kind, universe);
        OthersKeep(s, Do(s, step), n, kind, universe);
      } else {
        assert forall m :: m in s.nodes ==> Gains(s, Do(s, step), m, kind, universe);
      }
    case Drop(_) =>
      assert forall m :: m in s.nodes ==> Gains(s, Do(s, step), m, kind, universe);
  }

  lemma OthersKeep(s: Mesh, s': Mesh, n: NodeId, kind: Kind, universe: set<Item>)
    requires MeshWithin(s, kind, universe) && s'.nodes.Keys == s.nodes.Keys && s'.net == s.net
    requires forall m :: m in s.nodes && m != n ==> s'.nodes[m] == s.nodes[m]
    requires n in s.nodes && NodeWithin(s', n, kind, universe) && Gains(s, s', n, kind, universe)
    ensures MeshWithin(s', kind, universe) && forall m :: m in s.nodes ==> Gains(s, s', m, kind, universe)
  {
    forall m | m in s.nodes ensures NodeWithin(s', m, kind, universe) && Gains(s, s', m, kind, universe) {
      assert NodeWithin(s, m, kind, universe);
    }
  }

  // ----- the measure

  ghost function Reach(s: Mesh, kind: Kind, universe: set<Item>): set<(NodeId, Item)> {
    set n, u | n in s.nodes && u in universe && Reached(Slice(s.nodes[n], kind), u) :: (n, u)
  }

  ghost function Pairs(ns: set<NodeId>, universe: set<Item>): set<(NodeId, Item)> {
    set n, u | n in ns && u in universe :: (n, u)
  }

  lemma {:induction false} RowSize(n: NodeId, universe: set<Item>)
    ensures |Pairs({n}, universe)| == |universe|
    decreases |universe|
  {
    if universe != {} {
      var u :| u in universe;
      RowSize(n, universe - {u});
      assert Pairs({n}, universe) == Pairs({n}, universe - {u}) + {(n, u)};
    } else {
      assert Pairs({n}, universe) == {};
    }
  }

  lemma PairsSplit(ns: set<NodeId>, n: NodeId, universe: set<Item>)
    requires n in ns
    ensures |Pairs(ns, universe)| == |Pairs(ns - {n}, universe)| + |Pairs({n}, universe)|
  {
    var rest, row := Pairs(ns - {n}, universe), Pairs({n}, universe);
    assert Pairs(ns, universe) == rest + row;
    assert rest !! row;
  }

  lemma {:induction false} PairsSize(ns: set<NodeId>, universe: set<Item>)
    ensures |Pairs(ns, universe)| == |ns| * |universe|
    decreases |ns|
  {
    if ns != {} {
      var n :| n in ns;
      PairsSize(ns - {n}, universe);
      assert |ns| == |ns - {n}| + 1;
      RowSize(n, universe);
      PairsSplit(ns, n, universe);
    } else {
      assert Pairs(ns, universe) == {};
    }
  }

  /** The step changes some node's items of this kind. */
  ghost predicate ChangesItems(s: Mesh, step: Step, kind: Kind) {
    exists n :: n in s.nodes && n in Do(s, step).nodes
                && Slice(Do(s, step).nodes[n], kind) != Slice(s.nodes[n], kind)
  }

  lemma NodeReach(s: Mesh, s': Mesh, n: NodeId, kind: Kind, universe: set<Item>)
    requires n in s.nodes && n in s'.nodes && Gains(s, s', n, kind, universe)
    ensures forall u :: (n, u) in Reach(s, kind, universe) ==> (n, u) in Reach(s', kind, universe)
    ensures Slice(s'.nodes[n], kind) != Slice(s.nodes[n], kind) ==>
            exists u :: (n, u) in Reach(s', kind, universe) && (n, u) !in Reach(s, kind, universe)
  {
    var a, b := Slice(s.nodes[n], kind), Slice(s'.nodes[n], kind);
    assert forall u :: (n, u) in Reach(s, kind, universe) <==> u in ReachedSet(a, universe);
    assert forall u :: (n, u) in Reach(s', kind, universe) <==> u in ReachedSet(b, universe);
    if a != b {
      var u :| u in ReachedSet(b, universe) && u !in ReachedSet(a, universe);
    }
  }

  lemma StepReach(s: Mesh, step: Step, kind: Kind, universe: set<Item>)
    requires Versions(universe) && MeshWithin(s, kind, universe) && IsSync(step)
    ensures Reach(s, kind, universe) <= Reach(Do(s, step), kind, universe)
    ensures ChangesItems(s, step, kind) ==> Reach(s, kind, universe) != Reach(Do(s, step), kind, universe)
  {
    var s' := Do(s, step);
    SyncStep(s, step, kind, universe);
    forall n, u | (n, u) in Reach(s, kind, universe) ensures (n, u) in Reach(s', kind, universe) {
      NodeReach(s, s', n, kind, universe);
    }
    if ChangesItems(s, step, kind) {
      var n :| n in s.nodes && n in s'.nodes && Slice(s'.nodes[n], kind) != Slice(s.nodes[n], kind);
      NodeReach(s, s', n, kind, universe);
    }
  }

  /** How many steps of a run change some node's items of this kind. */
  ghost function ChangingSteps(s: Mesh, steps: seq<Step>, kind: Kind): nat {
    if steps == [] then 0
    else
      ChangingSteps(s, steps[..|steps| - 1], kind)
      + if ChangesItems(Run(s, steps[..|steps| - 1]), steps[|steps| - 1], kind) then 1 else 0
  }

  lemma {:induction false} RunReach(s: Mesh, steps: seq<Step>, kind: Kind, universe: set<Item>)
    requires Versions(universe) && MeshWithin(s, kind, universe)
    requires forall step :: step in steps ==> IsSync(step)
    ensures Run(s, steps).nodes.Keys == s.nodes.Keys && MeshWithin(Run(s, steps), kind, universe)
    ensures ChangingSteps(s, steps, kind) + |Reach(s, kind, universe)| <= |Reach(Run(s, steps), kind, universe)|
  {
    if steps != [] {
      var before, step := Run(s, steps[..|steps| - 1]), steps[|steps| - 1];
      assert step in steps;
      RunReach(s, steps[..|steps| - 1], kind, universe);
      SyncStep(before, step, kind, universe);
      StepReach(before, step, kind, universe);
      SmallerSet(Reach(before, kind, universe), Reach(Do(before, step), kind, universe));
    }
  }

  /** However long a run of exports, losses, repeats and deliveries, no more of its steps
      change an item of a kind than there are pairs of a node and a version. */
  lemma SyncChangesAreBounded(s: Mesh, steps: seq<Step>, kind: Kind, universe: set<Item>)
    requires Versions(universe) && MeshWithin(s, kind, universe)
    requires forall step :: step in steps ==> IsSync(step)
    ensures MeshWithin(Run(s, steps), kind, universe)
    ensures ChangingSteps(s, steps, kind) <= |s.nodes| * |universe|
  {
    RunReach(s, steps, kind, universe);
    var e := Run(s, steps);
    assert Reach(e, kind, universe) <= Pairs(s.nodes.Keys, universe);
    SmallerSet(Reach(e, kind, universe), Pairs(s.nodes.Keys, universe));
    PairsSize(s.nodes.Keys, universe);
    assert |s.nodes.Keys| == |s.nodes|;
  }

  // ----- at rest

  /** What `m` sends to `n` now is saved there and changes no item of the kind. */
  ghost predicate LearnsNothing(
      s: Mesh, n: NodeId, m: NodeId, kind: Kind, sent: Time, now: Time, skew: int, actor: string)
    requires n in s.nodes && m in s.nodes
  {
    var env := Exported(s.nodes[m], m, 0, n, sent);
    && Finish(MergedFile(CloneOf(s.nodes[n]), env, now, skew), now, actor).Some?
    && !ChangesItems(Do(s, Export(m, n, sent)), Deliver(n, env, now, skew, actor), kind)
  }

  lemma AllIsSent(f: File, m: NodeId, n: NodeId, kind: Kind, sent: Time, now: Time, skew: int)
    requires Shareable(Slice(f, kind), n, now, skew)
    ensures Admitted(EnvSlice(Exported(f, m, 0, n, sent), kind), now, skew) == Slice(f, kind)
  {
    ExportedSlice(f, m, 0, n, sent, kind);
    FilterAll(Slice(f, kind), x => Eligible(x, n));
    FilterAll(Slice(f, kind), x => Admits(x, now, skew));
  }

  lemma IdleDelivery(s: Mesh, n: NodeId, env: Envelope, now: Time, skew: int, actor: string,
                     kind: Kind, universe: set<Item>)
    requires Versions(universe) && MeshWithin(s, kind, universe) && n in s.nodes && env in s.net
    requires Finish(MergedFile(CloneOf(s.nodes[n]), env, now, skew), now, actor).Some?
    requires !ChangesItems(s, Deliver(n, env, now, skew, actor), kind)
    ensures PutAll(Slice(s.nodes[n], kind), Admitted(EnvSlice(env, kind), now, skew)) == Slice(s.nodes[n], kind)
  {
    assert NodeWithin(s, n, kind, universe);
    DeliveredSlice(s, n, env, now, skew, actor, kind, universe);
  }

  lemma LearnsNothingSlices(s: Mesh, n: NodeId, m: NodeId, kind: Kind, universe: set<Item>,
                            sent: Time, now: Time, skew: int, actor: string)
    requires Versions(universe) && MeshWithin(s, kind, universe) && n in s.nodes && m in s.nodes
    requires Shareable(Slice(s.nodes[m], kind), n, now, skew)
    requires LearnsNothing(s, n, m, kind, sent, now, skew, actor)
    ensures PutAll(Slice(s.nodes[n], kind), Slice(s.nodes[m], kind)) == Slice(s.nodes[n], kind)
  {
    var s1, env := Do(s, Export(m, n, sent)), Exported(s.nodes[m], m, 0, n, sent);
    ExportWithin(s, m, n, sent, kind, universe);
    IdleDelivery(s1, n, env, now, skew, actor, kind, universe);
    AllIsSent(s.nodes[m], m, n, kind, sent, now, skew);
  }

  /** Once no delivery between any two nodes changes anything, all show one live view. */
  lemma RestingMeshAgrees(s: Mesh, kind: Kind, universe: set<Item>, sent: Time, now: Time, skew: int, actor: string)
    requires Versions(universe) && MeshWithin(s, kind, universe)
    requires forall n, m :: n in s.nodes && m in s.nodes ==> Shareable(Slice(s.nodes[m], kind), n, now, skew)
    requires forall n, m :: n in s.nodes && m in s.nodes ==> LearnsNothing(s, n, m, kind, sent, now, skew, actor)
    ensures forall n, m :: n in s.nodes && m in s.nodes ==>
              SameLiveViews(Slice(s.nodes[n], kind), Slice(s.nodes[m], kind))
  {
    forall n, m | n in s.nodes && m in s.nodes
      ensures SameLiveViews(Slice(s.nodes[n], kind), Slice(s.nodes[m], kind))
    {
      assert NodeWithin(s, n, kind, universe) && NodeWithin(s, m, kind, universe);
      LearnsNothingSlices(s, n, m, kind, universe, sent, now, skew, actor);
      LearnsNothingSlices(s, m, n, kind, universe, sent, now, skew, actor);
      StampsDetermineNoneStuck(Slice(s.nodes[n], kind), Slice(s.nodes[m], kind));
      AtRestLiveViewsAgree(Slice(s.nodes[n], kind), Slice(s.nodes[m], kind));
    }
  }

  // ----- two nodes that save what they hear

  ghost predicate AllComplete(items: seq<Item>) {
    forall x :: x in items ==> Complete(x)
  }

  /** A saved merge leaves what the merge leaves. */
  lemma SavedHears(receiver: File, sender: File, id: string, peer: string, sent: Time, now: Time, skew: int,
                   at: Time, actor: string, kind: Kind, r: File)
    requires Finish(Heard(CloneOf(receiver), sender, id, peer, sent, now, skew), at, actor) == Some(r)
    requires AllComplete(Slice(receiver, kind)) && AllComplete(Slice(sender, kind))
    requires Shareable(Slice(sender, kind), peer, now, skew)
    ensures Slice(r, kind) == PutAll(Slice(receiver, kind), Slice(sender, kind)) && AllComplete(Slice(r, kind))
  {
    var draft := Heard(CloneOf(receiver), sender, id, peer, sent, now, skew);
    assert Slice(CloneOf(receiver), kind) == Slice(receiver, kind);
    HeardSlice(CloneOf(receiver), sender, id, peer, sent, now, skew, kind);
    forall x | x in Slice(draft, kind) ensures Complete(x) {
      PutAllMembers(Slice(receiver, kind), Slice(sender, kind), x);
    }
    SaveKeepsComplete(draft, at, actor, kind);
  }

  /** Hearing from the sender, saved or refused, leaves the receiver's items of this kind. */
  ghost predicate Deaf(receiver: File, sender: File, id: string, kind: Kind) {
    forall peer, sent, now, skew, at, actor ::
      var r := Finish(Heard(CloneOf(receiver), sender, id, peer, sent, now, skew), at, actor);
      r.Some? ==> Slice(r.value, kind) == Slice(receiver, kind)
  }

  lemma IdleIsDeaf(receiver: File, sender: File, id: string, kind: Kind)
    requires AllComplete(Slice(receiver, kind))
    requires forall x :: x in Slice(sender, kind) ==> Idle(Lookup(Slice(receiver, kind), Key(x)), x)
    ensures Deaf(receiver, sender, id, kind)
  {
    forall peer, sent, now, skew, at, actor
      ensures var r := Finish(Heard(CloneOf(receiver), sender, id, peer, sent, now, skew), at, actor);
              r.Some? ==> Slice(r.value, kind) == Slice(receiver, kind)
    {
      var draft := Heard(CloneOf(receiver), sender, id, peer, sent, now, skew);
      assert Slice(CloneOf(receiver), kind) == Slice(receiver, kind);
      HeardNothingNew(CloneOf(receiver), sender, id, peer, sent, now, skew, kind);
      if Finish(draft, at, actor).Some? {
        SaveKeepsComplete(draft, at, actor, kind);
      }
    }
  }

  /** `Exchange.PairConverges` with the saves that the code wraps around both merges: once
      both are accepted, no later exchange in either direction changes an item of the
      kind, and the live views agree exactly when no shared key was stuck. */
  lemma SavedPairConverges(a: File, b: File, a1: File, b1: File, kind: Kind, idA: string, idB: string,
                           peerA: string, peerB: string, t1: Time, now1: Time, t2: Time, now2: Time, skew: int,
                           at1: Time, actor1: string, at2: Time, actor2: string)
    requires Distinct(Slice(a, kind)) && Distinct(Slice(b, kind))
    requires AllComplete(Slice(a, kind)) && AllComplete(Slice(b, kind))
    requires Shareable(Slice(a, kind), peerB, now1, skew)
    requires Shareable(Slice(a, kind), peerA, now2, skew) && Shareable(Slice(b, kind), peerA, now2, skew)
    requires Finish(Heard(CloneOf(b), a, idA, peerB, t1, now1, skew), at1, actor1) == Some(b1)
    requires Finish(Heard(CloneOf(a), b1, idB, peerA, t2, now2, skew), at2, actor2) == Some(a1)
    ensures Deaf(b1, a1, idA, kind) && Deaf(a1, b1, idB, kind)
    ensures SameLiveViews(Slice(a1, kind), Slice(b1, kind)) <==> NoneStuck(Slice(a, kind), Slice(b, kind))
  {
    SavedHears(b, a, idA, peerB, t1, now1, skew, at1, actor1, kind, b1);
    forall x | x in Slice(b1, kind) ensures Eligible(x, peerA) && Admits(x, now2, skew) {
      PutAllMembers(Slice(b, kind), Slice(a, kind), x);
    }
    SavedHears(a, b1, idB, peerA, t2, now2, skew, at2, actor2, kind, a1);
    ExchangeSlices(Slice(a, kind), Slice(b, kind));
    IdleIsDeaf(b1, a1, idA, kind);
    IdleIsDeaf(a1, b1, idB, kind);
  }
}

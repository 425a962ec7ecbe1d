/** A mesh of nodes that edit, delete, export, lose, repeat and merge: what every
    run keeps (internal/sync/sync.go, internal/config/store.go,
    internal/server/server.go). */
module Mesh {
  import opened Config
  import opened Validation
  import opened Merge
  import opened Exchange
  import opened Deletion

  type NodeId = string

  /** `log` records every version written by a local edit and where. */
  datatype Mesh = Mesh(
    nodes: map<NodeId, File>,
    net: set<Envelope>,
    log: set<(NodeId, Item)>)

  /** Envelopes stay in flight until dropped, so any of them may be delivered
      never, once or repeatedly, in any order. */
  datatype Step =
    | Write(n: NodeId, draft: File, now: Time, actor: string)
    | Tombstone(n: NodeId, target: Target, now: Time, actor: string)
    | HardDelete(n: NodeId, target: Target, now: Time, actor: string)
    | Export(n: NodeId, peer: string, now: Time)
    | Deliver(n: NodeId, env: Envelope, now: Time, skew: int, actor: string)
    | Drop(env: Envelope)

  function Items(f: File): seq<Item> {
    f.defaults + f.zones + f.records
  }

  function EnvItems(env: Envelope): seq<Item> {
    env.defaults + env.zones + env.records
  }

  lemma ItemsMembers(f: File)
    ensures forall x :: x in Items(f) <==> exists kind :: x in Slice(f, kind)
  {
    forall x ensures x in Items(f) <==> exists kind :: x in Slice(f, kind) {
      assert x in Items(f) <==> x in Slice(f, Defaults) || x in Slice(f, Zones) || x in Slice(f, Records);
      if kind :| x in Slice(f, kind) {
        match kind case Defaults => case Zones => case Records =>
      }
    }
  }

  lemma EnvItemsMembers(env: Envelope)
    ensures forall x :: x in EnvItems(env) <==> exists kind :: x in EnvSlice(env, kind)
  {
    forall x ensures x in EnvItems(env) <==> exists kind :: x in EnvSlice(env, kind) {
      assert x in EnvItems(env) <==>
             x in EnvSlice(env, Defaults) || x in EnvSlice(env, Zones) || x in EnvSlice(env, Records);
      if kind :| x in EnvSlice(env, kind) {
        match kind case Defaults => case Zones => case Records =>
      }
    }
  }

  /** Saving a draft on a node; a refused draft changes nothing. Versions that
      were not there before count as written here when the draft is a local edit. */
  ghost function Save(s: Mesh, n: NodeId, draft: File, now: Time, actor: string, local: bool): Mesh
    requires n in s.nodes
  {
    var r := Finish(draft, now, actor);
    if r.None? then s
    else
      var written := if local then set x | x in Items(draft) && x !in Items(s.nodes[n]) :: (n, x) else {};
      s.(nodes := s.nodes[n := r.value], log := s.log + written)
  }

  ghost function Do(s: Mesh, step: Step): Mesh {
    match step
    case Write(n, draft, now, actor) =>
      if n in s.nodes then Save(s, n, draft, now, actor, true) else s
    case Tombstone(n, t, now, actor) =>
      if n in s.nodes && Tombstoned(CloneOf(s.nodes[n]), t, now, actor).Some?
      then Save(s, n, Tombstoned(CloneOf(s.nodes[n]), t, now, actor).value, now, actor, true) else s
    case HardDelete(n, t, now, actor) =>
      if n in s.nodes then Save(s, n, Removed(CloneOf(s.nodes[n]), t), now, actor, false) else s
    case Export(n, peer, now) =>
      if n in s.nodes then s.(net := s.net + {Exported(s.nodes[n], n, 0, peer, now)}) else s
    case Deliver(n, env, now, skew, actor) =>
      if n in s.nodes && env in s.net
      then Save(s, n, MergedFile(CloneOf(s.nodes[n]), env, now, skew), now, actor, false) else s
    case Drop(env) => s.(net := s.net - {env})
  }

  ghost function Run(s: Mesh, steps: seq<Step>): Mesh {
    if steps == [] then s else Do(Run(s, steps[..|steps| - 1]), steps[|steps| - 1])
  }

  // ----- what saving does to an item

  function SavedItem(x: Item, now: Time, actor: string): Item {
    var y := Stamp(x, now, actor);
    if y.UpstreamDefault? && y.port == 0 then y.(port := 53) else y
  }

  lemma SavedSlices(draft: File, now: Time, actor: string, kind: Kind)
    requires Finish(draft, now, actor).Some?
    ensures var f := Finish(draft, now, actor).value;
            |Slice(f, kind)| == |Slice(draft, kind)|
            && forall i :: 0 <= i < |Slice(f, kind)| ==>
                 Slice(f, kind)[i] == SavedItem(Slice(draft, kind)[i], now, actor)
  {
    var f := Finish(draft, now, actor).value;
    forall i | 0 <= i < |Slice(f, kind)|
      ensures Slice(f, kind)[i] == SavedItem(Slice(draft, kind)[i], now, actor)
    {
      match kind case Defaults => case Zones => case Records =>
    }
  }

  /** `x` is `w` up to the fields that saving fills in when they are missing. */
  predicate FilledFrom(w: Item, x: Item) {
    && x.meta.doNotSync == w.meta.doNotSync && x.meta.syncPeers == w.meta.syncPeers
    && x.meta.deleted == w.meta.deleted
    && (w.meta.updatedAt != 0 ==> x.meta.updatedAt == w.meta.updatedAt)
    && (w.meta.updatedBy != "" ==> x.meta.updatedBy == w.meta.updatedBy)
    && (x == w.(meta := x.meta)
        || (w.UpstreamDefault? && w.port == 0 && x == w.(meta := x.meta, port := 53)))
  }

  lemma FilledFromTransitive(w: Item, x: Item, y: Item)
    requires FilledFrom(w, x) && FilledFrom(x, y)
    ensures FilledFrom(w, y)
  {
  }

  lemma SavedIsFilled(x: Item, now: Time, actor: string)
    ensures FilledFrom(x, SavedItem(x, now, actor))
    ensures !Older(SavedItem(x, now, actor), x)
  {
  }

  predicate HasPort(x: Item) {
    x.UpstreamDefault? ==> x.port != 0
  }

  /** Saving has nothing left to fill in. */
  predicate Complete(x: Item) {
    x.meta.updatedAt != 0 && x.meta.updatedBy != "" && HasPort(x)
  }

  lemma SaveKeepsComplete(draft: File, now: Time, actor: string, kind: Kind)
    requires Finish(draft, now, actor).Some?
    requires forall x :: x in Slice(draft, kind) ==> Complete(x)
    ensures Slice(Finish(draft, now, actor).value, kind) == Slice(draft, kind)
  {
    SavedSlices(draft, now, actor, kind);
    var a, b := Slice(draft, kind), Slice(Finish(draft, now, actor).value, kind);
    forall i | 0 <= i < |a| ensures b[i] == a[i] {
      assert a[i] in a;
    }
  }

  /** Everything a save leaves was in the draft, up to filled-in fields. */
  lemma SavedFromDraft(draft: File, now: Time, actor: string, y: Item)
    requires Finish(draft, now, actor).Some? && y in Items(Finish(draft, now, actor).value)
    ensures exists x :: x in Items(draft) && FilledFrom(x, y)
    ensures HasPort(y)
  {
    var f := Finish(draft, now, actor).value;
    ItemsMembers(f);
    ItemsMembers(draft);
    var kind :| y in Slice(f, kind);
    SavedSlices(draft, now, actor, kind);
    var i :| 0 <= i < |Slice(f, kind)| && Slice(f, kind)[i] == y;
    var x := Slice(draft, kind)[i];
    SavedIsFilled(x, now, actor);
    assert x in Slice(draft, kind);
  }

  // ----- mesh safety

  ghost predicate Authored(log: set<(NodeId, Item)>, x: Item) {
    exists n, w :: (n, w) in log && FilledFrom(w, x)
  }

  ghost predicate AuthoredAt(log: set<(NodeId, Item)>, n: NodeId, x: Item) {
    exists w :: (n, w) in log && FilledFrom(w, x)
  }

  ghost predicate NodeSafe(log: set<(NodeId, Item)>, n: NodeId, x: Item) {
    HasPort(x) && Authored(log, x) && (x.meta.doNotSync ==> AuthoredAt(log, n, x))
  }

  ghost predicate WireSafe(log: set<(NodeId, Item)>, x: Item) {
    HasPort(x) && Authored(log, x) && !x.meta.doNotSync
  }

  /** Every version anywhere comes from a local edit; a private one only ever sits
      on the node that edited it, and in no envelope. */
  ghost predicate Safe(s: Mesh) {
    (forall n, x :: n in s.nodes && x in Items(s.nodes[n]) ==> NodeSafe(s.log, n, x))
    && (forall env, x :: env in s.net && x in EnvItems(env) ==> WireSafe(s.log, x))
  }

  /** At first each node holds what its operator put there, normalised by loading. */
  ghost predicate Init(s: Mesh) {
    s.net == {}
    && (forall n, x :: n in s.nodes && x in Items(s.nodes[n]) ==> HasPort(x) && (n, x) in s.log)
  }

  lemma InitSafe(s: Mesh)
    requires Init(s)
    ensures Safe(s)
  {
    forall n, x | n in s.nodes && x in Items(s.nodes[n]) ensures NodeSafe(s.log, n, x) {
      assert FilledFrom(x, x) && (n, x) in s.log;
    }
  }

  lemma AuthoredGrows(log: set<(NodeId, Item)>, log': set<(NodeId, Item)>, n: NodeId, x: Item)
    requires log <= log'
    ensures NodeSafe(log, n, x) ==> NodeSafe(log', n, x)
    ensures WireSafe(log, x) ==> WireSafe(log', x)
  {
  }

  /** What may end up in a draft on node `n`. */
  ghost predicate DraftSafe(log: set<(NodeId, Item)>, n: NodeId, x: Item) {
    Authored(log, x) && (x.meta.doNotSync ==> AuthoredAt(log, n, x))
  }

  lemma FilledStaysSafe(log: set<(NodeId, Item)>, n: NodeId, x: Item, y: Item)
    requires DraftSafe(log, n, x) && FilledFrom(x, y) && HasPort(y)
    ensures NodeSafe(log, n, y)
  {
    var m, w :| (m, w) in log && FilledFrom(w, x);
    FilledFromTransitive(w, x, y);
    if y.meta.doNotSync {
      var v :| (n, v) in log && FilledFrom(v, x);
      FilledFromTransitive(v, x, y);
    }
  }

  lemma SaveSafe(s: Mesh, n: NodeId, draft: File, now: Time, actor: string, local: bool)
    requires Safe(s) && n in s.nodes
    requires !local ==> forall x :: x in Items(draft) ==> DraftSafe(s.log, n, x)
    ensures Safe(Save(s, n, draft, now, actor, local))
  {
    var s' := Save(s, n, draft, now, actor, local);
    if Finish(draft, now, actor).Some? {
      forall x | x in Items(draft) ensures DraftSafe(s'.log, n, x) {
        if local && x !in Items(s.nodes[n]) {
          assert (n, x) in s'.log && FilledFrom(x, x);
        } else if local {
          assert NodeSafe(s.log, n, x);
          AuthoredGrows(s.log, s'.log, n, x);
        }
      }
      forall m, y | m in s'.nodes && y in Items(s'.nodes[m]) ensures NodeSafe(s'.log, m, y) {
        if m == n {
          SavedFromDraft(draft, now, actor, y);
          var x :| x in Items(draft) && FilledFrom(x, y);
          FilledStaysSafe(s'.log, n, x, y);
        } else {
          AuthoredGrows(s.log, s'.log, m, y);
        }
      }
      forall env, y | env in s'.net && y in EnvItems(env) ensures WireSafe(s'.log, y) {
        AuthoredGrows(s.log, s'.log, n, y);
      }
    }
  }

  lemma MergedItems(f: File, env: Envelope, now: Time, skew: int, x: Item)
    requires x in Items(MergedFile(f, env, now, skew))
    ensures x in Items(f) || x in EnvItems(env)
  {
    var g := MergedFile(f, env, now, skew);
    ItemsMembers(g);
    ItemsMembers(f);
    EnvItemsMembers(env);
    var kind :| x in Slice(g, kind);
    MergedFileSlice(f, env, now, skew, kind);
    MergedMembers(Slice(f, kind), EnvSlice(env, kind), now, skew);
  }

  lemma ExportedItems(f: File, n: NodeId, peer: string, now: Time, x: Item)
    requires x in EnvItems(Exported(f, n, 0, peer, now))
    ensures x in Items(f) && !x.meta.doNotSync
  {
    var env := Exported(f, n, 0, peer, now);
    ItemsMembers(f);
    EnvItemsMembers(env);
    var kind :| x in EnvSlice(env, kind);
    ExportedSlice(f, n, 0, peer, now, kind);
    ExportMembers(Slice(f, kind), peer);
  }

  lemma RemovedItems(f: File, t: Target, x: Item)
    requires x in Items(Removed(f, t))
    ensures x in Items(f)
  {
    var g := Removed(f, t);
    ItemsMembers(g);
    ItemsMembers(f);
    var kind :| x in Slice(g, kind);
    assert x in Slice(f, kind);
  }

  lemma StepSafe(s: Mesh, step: Step)
    requires Safe(s)
    ensures Safe(Do(s, step))
  {
    match step
    case Write(n, draft, now, actor) =>
      if n in s.nodes { SaveSafe(s, n, draft, now, actor, true); }
    case Tombstone(n, t, now, actor) =>
      if n in s.nodes && Tombstoned(CloneOf(s.nodes[n]), t, now, actor).Some? {
        SaveSafe(s, n, Tombstoned(CloneOf(s.nodes[n]), t, now, actor).value, now, actor, true);
      }
    case HardDelete(n, t, now, actor) =>
      if n in s.nodes {
        var f := CloneOf(s.nodes[n]);
        forall x | x in Items(Removed(f, t)) ensures DraftSafe(s.log, n, x) {
          RemovedItems(f, t, x);
          assert NodeSafe(s.log, n, x);
        }
        SaveSafe(s, n, Removed(f, t), now, actor, false);
      }
    case Export(n, peer, now) =>
      if n in s.nodes {
        forall x | x in EnvItems(Exported(s.nodes[n], n, 0, peer, now)) ensures WireSafe(s.log, x) {
          ExportedItems(s.nodes[n], n, peer, now, x);
          assert NodeSafe(s.log, n, x);
        }
      }
    case Deliver(n, env, now, skew, actor) =>
      if n in s.nodes && env in s.net {
        var f := CloneOf(s.nodes[n]);
        forall x | x in Items(MergedFile(f, env, now, skew)) ensures DraftSafe(s.log, n, x) {
          MergedItems(f, env, now, skew, x);
          assert NodeSafe(s.log, n, x) || WireSafe(s.log, x);
        }
        SaveSafe(s, n, MergedFile(f, env, now, skew), now, actor, false);
      }
    case Drop(_) =>
  }

  /** Mesh safety over every run. */
  lemma {:induction false} RunSafe(s: Mesh, steps: seq<Step>)
    requires Init(s)
    ensures Safe(Run(s, steps))
  {
    if steps == [] {
      InitSafe(s);
    } else {
      RunSafe(s, steps[..|steps| - 1]);
      StepSafe(Run(s, steps[..|steps| - 1]), steps[|steps| - 1]);
    }
  }
}

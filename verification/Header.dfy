/** What saving adds to items and header, and settings kept to oneself, over runs of the
    mesh (internal/config/store.go, internal/sync/sync.go). */
module Header {
  import opened Text
  import opened Config
  import opened Validation
  import opened Merge
  import opened Exchange
  import opened Deletion
  import opened Mesh

  // ----- stamps

  /** Each saved item has the draft's stamp and author, or the save's where the draft had
      none; the flags are the draft's, and so is everything else but a missing port. */
  lemma SavedStamps(draft: File, now: Time, actor: string, kind: Kind, i: nat)
    requires Finish(draft, now, actor).Some? && i < |Slice(draft, kind)|
    ensures var f := Finish(draft, now, actor).value;
            |Slice(f, kind)| == |Slice(draft, kind)|
            && var x, y := Slice(draft, kind)[i], Slice(f, kind)[i];
               && (x.meta.updatedAt == 0 ==> y.meta.updatedAt == now)
               && (x.meta.updatedAt != 0 ==> y.meta.updatedAt == x.meta.updatedAt)
               && (x.meta.updatedBy == "" ==> y.meta.updatedBy == actor)
               && (x.meta.updatedBy != "" ==> y.meta.updatedBy == x.meta.updatedBy)
               && y.meta.deleted == x.meta.deleted && y.meta.doNotSync == x.meta.doNotSync
               && y.meta.syncPeers == x.meta.syncPeers
               && (if x.UpstreamDefault? && x.port == 0 then y == x.(port := 53, meta := y.meta)
                   else y == x.(meta := y.meta))
  {
    SavedSlices(draft, now, actor, kind);
  }

  /** The header of a saved file is the save's. */
  lemma SavedHeader(draft: File, now: Time, actor: string)
    requires Finish(draft, now, actor).Some?
    ensures var f := Finish(draft, now, actor).value;
            && f.updated == now && f.updatedBy == actor && f.version == 1
            && f.doNotSyncSettings == draft.doNotSyncSettings
            && f.settings == SettingsWithDefaults(draft.settings) && f.peers == PeersWithDefaults(draft.peers)
  {
  }

  /** What acceptance fills in, and what a copy changes. */
  lemma FilledInAndCopied(f: File)
    ensures var g := Normalised(f);
            && (f.version == 0 ==> g.version == 1) && (f.version != 0 ==> g.version == f.version)
            && g.settings == SettingsWithDefaults(f.settings) && g.peers == PeersWithDefaults(f.peers)
            && |g.defaults| == |f.defaults|
            && (forall i :: 0 <= i < |f.defaults| ==>
                  g.defaults[i] == if f.defaults[i].port == 0 then f.defaults[i].(port := 53) else f.defaults[i])
            && g == f.(version := g.version, settings := g.settings, peers := g.peers, defaults := g.defaults)
    ensures (CloneOf(f).nilDefaults <==> f.defaults == []) && CloneOf(f) == f.(nilDefaults := CloneOf(f).nilDefaults)
  {
  }

  /** Settings and peers keep what is given and get the built-in value for what is not. */
  lemma DefaultsFilledIn(s: Settings, p: Peers)
    ensures var t := SettingsWithDefaults(s);
            && t.cacheSize == (if s.cacheSize == 0 then 1000 else s.cacheSize)
            && t.pollSeconds == (if s.pollSeconds == 0 then 10 else s.pollSeconds)
            && t.httpListen == (if s.httpListen == "" then "0.0.0.0:80" else s.httpListen)
            && t.dnsListen == (if s.dnsListen == "" then "0.0.0.0:53" else s.dnsListen)
            && t.dnssec == s.dnssec && t.logQueries == s.logQueries
    ensures var r := PeersWithDefaults(p);
            && r.listen == (if p.listen == "" then "0.0.0.0:8443" else p.listen)
            && (p.syncIntervalSeconds == 0 ==> r.syncIntervalSeconds == 300)
            && (p.syncIntervalSeconds != 0 && p.syncIntervalSeconds < 10 ==> r.syncIntervalSeconds == 10)
            && (p.syncIntervalSeconds >= 10 ==> r.syncIntervalSeconds == p.syncIntervalSeconds)
            && r.clockSkewSeconds == (if p.clockSkewSeconds == 0 then 300 else p.clockSkewSeconds)
            && r.sharedKey == p.sharedKey && r.list == p.list
  {
  }

  // ----- completeness over runs

  ghost predicate AllComplete(s: Mesh) {
    (forall n, x :: n in s.nodes && x in Items(s.nodes[n]) ==> Complete(x))
    && (forall env, x :: env in s.net && x in EnvItems(env) ==> Complete(x))
  }

  /** The step's clock and actor are set. */
  predicate Signed(step: Step) {
    match step
    case Write(_, _, now, actor) => now != 0 && actor != ""
    case Tombstone(_, _, now, actor) => now != 0 && actor != ""
    case HardDelete(_, _, now, actor) => now != 0 && actor != ""
    case Deliver(_, _, now, _, actor) => now != 0 && actor != ""
    case _ => true
  }

  lemma SavedIsComplete(draft: File, now: Time, actor: string, y: Item)
    requires Finish(draft, now, actor).Some? && y in Items(Finish(draft, now, actor).value)
    requires now != 0 && actor != ""
    ensures Complete(y)
  {
    var f := Finish(draft, now, actor).value;
    ItemsMembers(f);
    var kind :| y in Slice(f, kind);
    SavedSlices(draft, now, actor, kind);
    var i :| 0 <= i < |Slice(f, kind)| && Slice(f, kind)[i] == y;
    SavedStamps(draft, now, actor, kind, i);
  }

  lemma SaveComplete(s: Mesh, n: NodeId, draft: File, now: Time, actor: string, local: bool)
    requires AllComplete(s) && n in s.nodes && now != 0 && actor != ""
    ensures AllComplete(Save(s, n, draft, now, actor, local))
  {
    var s' := Save(s, n, draft, now, actor, local);
    if Finish(draft, now, actor).Some? {
      forall m, y | m in s'.nodes && y in Items(s'.nodes[m]) ensures Complete(y) {
        if m == n { SavedIsComplete(draft, now, actor, y); }
      }
    }
  }

  lemma StepComplete(s: Mesh, step: Step)
    requires AllComplete(s) && Signed(step)
    ensures AllComplete(Do(s, step))
  {
    match step
    case Write(n, draft, now, actor) =>
      if n in s.nodes { SaveComplete(s, n, draft, now, actor, true); }
    case Tombstone(n, t, now, actor) =>
      if n in s.nodes && Tombstoned(CloneOf(s.nodes[n]), t, now, actor).Some? {
        SaveComplete(s, n, Tombstoned(CloneOf(s.nodes[n]), t, now, actor).value, now, actor, true);
      }
    case HardDelete(n, t, now, actor) =>
      if n in s.nodes { SaveComplete(s, n, Removed(CloneOf(s.nodes[n]), t), now, actor, false); }
    case Export(n, peer, now) =>
      if n in s.nodes {
        forall x | x in EnvItems(Exported(s.nodes[n], n, 0, peer, now)) ensures Complete(x) {
          ExportedItems(s.nodes[n], n, peer, now, x);
        }
      }
    case Deliver(n, env, now, skew, actor) =>
      if n in s.nodes && env in s.net {
        SaveComplete(s, n, MergedFile(CloneOf(s.nodes[n]), env, now, skew), now, actor, false);
      }
    case Drop(_) =>
  }

  /** Over every run whose saves have a clock and an actor, no version anywhere lacks a
      stamp, an author or a port, whatever the drafts left out. */
  lemma {:induction false} RunComplete(s: Mesh, steps: seq<Step>)
    requires AllComplete(s) && forall step :: step in steps ==> Signed(step)
    ensures AllComplete(Run(s, steps))
  {
    if steps != [] {
      RunComplete(s, steps[..|steps| - 1]);
      assert steps[|steps| - 1] in steps;
      StepComplete(Run(s, steps[..|steps| - 1]), steps[|steps| - 1]);
    }
  }

  // ----- settings kept to oneself

  /** The node keeps its settings to itself, and they are these. */
  ghost predicate Keeps(s: Mesh, n: NodeId, own: Settings) {
    n in s.nodes && s.nodes[n].doNotSyncSettings && s.nodes[n].settings == own
    && forall env :: env in s.net && env.instanceId == n ==> env.settings.None?
  }

  lemma SaveKeeps(s: Mesh, n: NodeId, m: NodeId, draft: File, now: Time, actor: string, local: bool, own: Settings)
    requires Keeps(s, n, own) && SettingsWithDefaults(own) == own && m in s.nodes
    requires m == n ==> draft.doNotSyncSettings && draft.settings == own
    ensures Keeps(Save(s, m, draft, now, actor, local), n, own)
  {
  }

  lemma StepKeeps(s: Mesh, step: Step, n: NodeId, own: Settings)
    requires Keeps(s, n, own) && SettingsWithDefaults(own) == own
    requires step.Write? && step.n == n ==> step.draft.doNotSyncSettings && step.draft.settings == own
    ensures Keeps(Do(s, step), n, own)
  {
    match step
    case Write(m, draft, now, actor) =>
      if m in s.nodes { SaveKeeps(s, n, m, draft, now, actor, true, own); }
    case Tombstone(m, t, now, actor) =>
      if m in s.nodes && Tombstoned(CloneOf(s.nodes[m]), t, now, actor).Some? {
        SaveKeeps(s, n, m, Tombstoned(CloneOf(s.nodes[m]), t, now, actor).value, now, actor, true, own);
      }
    case HardDelete(m, t, now, actor) =>
      if m in s.nodes { SaveKeeps(s, n, m, Removed(CloneOf(s.nodes[m]), t), now, actor, false, own); }
    case Export(_, _, _) =>
    case Deliver(m, env, now, skew, actor) =>
      if m in s.nodes && env in s.net {
        SaveKeeps(s, n, m, MergedFile(CloneOf(s.nodes[m]), env, now, skew), now, actor, false, own);
      }
    case Drop(_) =>
  }

  /** Over every run in which its own edits leave them alone, a node that keeps its settings
      to itself keeps them as they are and sends none, whatever it receives. */
  lemma {:induction false} KeptSettingsStay(s: Mesh, steps: seq<Step>, n: NodeId, own: Settings)
    requires Keeps(s, n, own) && SettingsWithDefaults(own) == own
    requires forall step :: step in steps && step.Write? && step.n == n ==>
               step.draft.doNotSyncSettings && step.draft.settings == own
    ensures Keeps(Run(s, steps), n, own)
  {
    if steps != [] {
      KeptSettingsStay(s, steps[..|steps| - 1], n, own);
      assert steps[|steps| - 1] in steps;
      StepKeeps(Run(s, steps[..|steps| - 1]), steps[|steps| - 1], n, own);
    }
  }

  /** An envelope says who sent it and when, and carries the settings exactly when they are
      not kept back. */
  lemma ExportedHeader(f: File, instance: string, seqNo: nat, peer: string, now: Time)
    ensures var env := Exported(f, instance, seqNo, peer, now);
            && env.instanceId == instance && env.fromSeq == seqNo && env.serverTime == now
            && (f.doNotSyncSettings ==> env.settings.None?)
            && (!f.doNotSyncSettings ==> env.settings == Some(f.settings))
  {
  }
}

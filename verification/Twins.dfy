/** One zone name entered on two nodes under two IDs (internal/config/config.go,
    internal/sync/sync.go). */
module Twins {
  import opened Text
  import opened Config
  import opened Validation
  import opened Merge
  import opened Convergence
  import opened Exchange
  import opened Store
  import opened Outcomes

  lemma WithZoneIsGood(f: File, z: Zone)
    requires Good(f) && f.zones == [] && DistinctKeys(f) && ZoneOk(z)
    ensures Good(f.(zones := [z])) && DistinctKeys(f.(zones := [z]))
  {
    var g := f.(zones := [z]);
    assert g.zones[0] == z;
    assert Normalised(g) == Normalised(f).(zones := [z]);
    forall kind ensures Distinct(Slice(g, kind)) {
      assert Distinct(Slice(f, kind));
      match kind case Defaults => case Zones => case Records =>
    }
  }

  // ----- while the window lets the other zone in

  lemma OneZoneJoins(f: File, z: Zone, x: Zone, env: Envelope, now: Time, skew: int)
    requires f.zones == [z] && env.zones == [x] && Key(z) != Key(x) && Admits(x, now, skew) && !x.meta.deleted
    ensures Joined(f, env, now, skew, Zones, Key(z)) == Some(z)
    ensures Joined(f, env, now, skew, Zones, Key(x)) == Some(x)
  {
    FilterAll([x], y => Admits(y, now, skew));
    CopiesDistinct([x], Key(z));
    CopiesDistinct([x], Key(x));
    assert Lookup([x], Key(x)) == Some(x) && Lookup([x], Key(z)) == None;
    assert Lookup([z], Key(z)) == Some(z) && Lookup([z], Key(x)) == None;
    assert Resolve(None, [x]) == Join(Resolve(None, []), x);
  }

  lemma TwinRefused(g: File, z: Zone, x: Zone, env: Envelope, now: Time, skew: int, at: Time, actor: string)
    requires g.zones == [z] && env.zones == [x] && Key(z) != Key(x) && Clash(z, x) && Admits(x, now, skew)
    ensures SaveOn(g, d => Some(MergedFile(d, env, now, skew)), at, actor).None?
  {
    OneZoneJoins(g, z, x, env, now, skew);
    assert JoinsClash(g, env, now, skew, Zones, Key(z), Key(x));
    ClashRefused(g, env, now, skew, Zones, Key(z), Key(x), at, actor);
  }

  // ----- and when it does not

  /** What the envelope gets in of this kind is in the file already. */
  ghost predicate NothingNew(g: File, env: Envelope, now: Time, skew: int, kind: Kind) {
    forall x :: x in EnvSlice(env, kind) && Admits(x, now, skew) ==> x in Slice(g, kind)
  }

  lemma NothingNewOk(g: File, env: Envelope, now: Time, skew: int, kind: Kind)
    requires Distinct(Slice(g, kind)) && SliceOk(Slice(g, kind)) && NothingNew(g, env, now, skew, kind)
    ensures SliceOk(Slice(MergedFile(g, env, now, skew), kind))
  {
    MergedFileSlice(g, env, now, skew, kind);
    MergedMembers(Slice(g, kind), EnvSlice(env, kind), now, skew);
    MergedDistinct(g, env, now, skew, kind);
    CoveredSliceOk(Slice(MergedFile(g, env, now, skew), kind), Slice(g, kind));
  }

  lemma MergeGrows(g: File, env: Envelope, now: Time, skew: int)
    ensures |MergedFile(g, env, now, skew).zones| >= |g.zones|
    ensures |MergedFile(g, env, now, skew).defaults| >= |g.defaults|
  {
    MergeKeepsPositions(g.zones, Admitted(env.zones, now, skew));
    MergeKeepsPositions(g.defaults, Admitted(env.defaults, now, skew));
  }

  lemma NothingNewSaved(g: File, env: Envelope, now: Time, skew: int, at: Time, actor: string)
    requires Accepts(g) && DistinctKeys(g) && g.defaults != [] && g.zones != []
    requires forall kind :: NothingNew(g, env, now, skew, kind)
    ensures SaveOn(g, d => Some(MergedFile(d, env, now, skew)), at, actor).Some?
  {
    var r := MergedFile(CloneOf(g), env, now, skew);
    AcceptsByKind(g);
    MergedClone(g, env, now, skew);
    MergeGrows(g, env, now, skew);
    forall kind ensures SliceOk(Slice(r, kind)) {
      assert SliceOk(Slice(g, kind)) && NothingNew(g, env, now, skew, kind) && Distinct(Slice(g, kind));
      NothingNewOk(g, env, now, skew, kind);
    }
    AcceptsByKind(r);
    SaveDecided(r, at, actor);
  }

  /** What the other node sends, if its zone goes to this peer. */
  lemma TwinSent(f: File, z: Zone, x: Zone, id: string, peer: string, sent: Time, env: Envelope)
    requires env == Exported(f.(zones := [x]), id, 0, peer, sent)
    ensures env.zones == if Eligible(x, peer) then [x] else []
    ensures forall kind, y :: kind != Zones && y in EnvSlice(env, kind) ==> y in Slice(f.(zones := [z]), kind)
  {
    var h := f.(zones := [x]);
    FilterSnoc([], x, y => Eligible(y, peer));
    assert [] + [x] == h.zones;
    ExportedSlice(h, id, 0, peer, sent, Zones);
    forall kind, y | kind != Zones && y in EnvSlice(env, kind) ensures y in Slice(f.(zones := [z]), kind) {
      ExportedSlice(h, id, 0, peer, sent, kind);
      ExportMembers(Slice(h, kind), peer);
      assert Slice(h, kind) == Slice(f, kind) == Slice(f.(zones := [z]), kind);
    }
  }

  /** A good file without zones on two nodes, and on each a zone added under its own ID but
      with one name. Both files are good. What the second sends is refused by the first
      exactly while its zone is meant for the first and inside the clock window. */
  lemma TwinZonesRefusedIff(f: File, z: Zone, x: Zone, id: string, peer: string, sent: Time, env: Envelope,
                            now: Time, skew: int, at: Time, actor: string)
    requires Good(f) && DistinctKeys(f) && f.zones == [] && f.defaults != []
    requires ZoneOk(z) && ZoneOk(x) && Key(z) != Key(x) && Clash(z, x)
    requires env == Exported(f.(zones := [x]), id, 0, peer, sent)
    ensures Good(f.(zones := [z])) && Good(f.(zones := [x]))
    ensures SaveOn(f.(zones := [z]), d => Some(MergedFile(d, env, now, skew)), at, actor).None?
       <==> Eligible(x, peer) && Admits(x, now, skew)
  {
    var g := f.(zones := [z]);
    WithZoneIsGood(f, z);
    WithZoneIsGood(f, x);
    TwinSent(f, z, x, id, peer, sent, env);
    if Eligible(x, peer) && Admits(x, now, skew) {
      TwinRefused(g, z, x, env, now, skew, at, actor);
    } else {
      forall kind ensures NothingNew(g, env, now, skew, kind) {
        if kind == Zones { assert EnvSlice(env, kind) == env.zones; }
      }
      NothingNewSaved(g, env, now, skew, at, actor);
    }
  }

  /** The refusal lasts for ever exactly when the window is switched off or the zone bears
      no stamp; otherwise it ends with the window. */
  lemma TwinZonesForEverIff(x: Zone, peer: string, skew: int)
    requires Eligible(x, peer)
    ensures (forall now: Time :: Admits(x, now, skew)) <==> skew <= 0 || x.meta.updatedAt == 0
  {
    if skew > 0 && x.meta.updatedAt != 0 {
      var late: Time := x.meta.updatedAt + skew + 1;
      assert !Admits(x, late, skew);
    }
  }

  /** Such a pair of files: the built-in one, with two concrete zones. */
  lemma CorpTwins(made: Time)
    ensures var f, z, x := DefaultConfig(made), CorpZone("z1", made), CorpZone("z2", made);
            && Good(f) && DistinctKeys(f) && f.zones == [] && f.defaults != []
            && ZoneOk(z) && ZoneOk(x) && Key(z) != Key(x) && Clash(z, x)
  {
    BootstrapIsGood(made, Env("", "", []), 0, "");
    CorpZoneOk("z1", made);
    CorpZoneOk("z2", made);
    assert "z1"[1] != "z2"[1];
    forall kind ensures Distinct(Slice(DefaultConfig(made), kind)) {
      match kind case Defaults => case Zones => case Records =>
    }
  }
}

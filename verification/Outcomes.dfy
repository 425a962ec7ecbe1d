/** Which drafts a save accepts: files without defaults, and merged files
    (internal/config/config.go, internal/config/store.go, internal/sync/sync.go). */
module Outcomes {
  import opened Text
  import opened Config
  import opened Validation
  import opened Files
  import opened Merge
  import opened Convergence
  import opened Store

  // ----- acceptance, slice by slice

  predicate ItemOk(x: Item) {
    match x
    case UpstreamDefault(_, _, _, _, _) => DefaultOk(x)
    case ForwardZone(_, _, _, _, _, _, _) => ZoneOk(x)
    case StaticRecord(_, _, _, _, _, _) => RecordOk(x)
  }

  /** Two items that validation does not let live side by side. */
  ghost predicate Clash(x: Item, y: Item) {
    !x.meta.deleted && !y.meta.deleted
    && ((x.ForwardZone? && y.ForwardZone? && CleanName(x.name) == CleanName(y.name))
        || (x.StaticRecord? && y.StaticRecord? && SameNameAndType(x, y)))
  }

  ghost predicate ItemsOk(items: seq<Item>) {
    forall i :: 0 <= i < |items| ==> ItemOk(items[i])
  }

  ghost predicate NoClash(items: seq<Item>) {
    forall i, j :: 0 <= i < j < |items| ==> !Clash(items[i], items[j])
  }

  lemma DefaultsByItem(us: seq<Default>)
    ensures (forall i :: 0 <= i < |us| ==> DefaultOk(us[i])) <==> ItemsOk(us)
    ensures NoClash(us)
  {
    assert forall i :: 0 <= i < |us| ==> us[i].UpstreamDefault? && (ItemOk(us[i]) <==> DefaultOk(us[i]));
  }

  lemma ZonesByItem(zs: seq<Zone>)
    ensures (forall i :: 0 <= i < |zs| ==> ZoneOk(zs[i])) <==> ItemsOk(zs)
    ensures ZonesDistinct(zs) <==> NoClash(zs)
  {
    assert forall i :: 0 <= i < |zs| ==> zs[i].ForwardZone? && (ItemOk(zs[i]) <==> ZoneOk(zs[i]));
  }

  lemma RecordsByItem(rs: seq<Record>)
    ensures (forall i :: 0 <= i < |rs| ==> RecordOk(rs[i])) <==> ItemsOk(rs)
    ensures RecordsDistinct(rs) <==> NoClash(rs)
  {
    assert forall i :: 0 <= i < |rs| ==> rs[i].StaticRecord? && (ItemOk(rs[i]) <==> RecordOk(rs[i]));
  }

  ghost predicate SliceOk(items: seq<Item>) {
    ItemsOk(items) && NoClash(items)
  }

  lemma AllKinds(f: File)
    ensures (forall kind :: SliceOk(Slice(f, kind))) <==>
            SliceOk(f.defaults) && SliceOk(f.zones) && SliceOk(f.records)
  {
    assert Slice(f, Defaults) == f.defaults && Slice(f, Zones) == f.zones && Slice(f, Records) == f.records;
  }

  lemma AcceptsByKind(f: File)
    ensures Accepts(f) <==> !f.nilDefaults && HasRoute(f) && forall kind :: SliceOk(Slice(f, kind))
  {
    DefaultsByItem(f.defaults);
    ZonesByItem(f.zones);
    RecordsByItem(f.records);
    AllKinds(f);
  }

  // ----- stamping decides nothing

  lemma StampOk(x: Item, now: Time, actor: string)
    ensures ItemOk(Stamp(x, now, actor)) <==> ItemOk(x)
  {
  }

  lemma StampClash(x: Item, y: Item, now: Time, actor: string)
    ensures Clash(Stamp(x, now, actor), Stamp(y, now, actor)) <==> Clash(x, y)
  {
  }

  lemma StampSliceOk(items: seq<Item>, now: Time, actor: string)
    ensures SliceOk(StampSlice(items, now, actor)) <==> SliceOk(items)
  {
    var ys := StampSlice(items, now, actor);
    forall i | 0 <= i < |items| ensures ItemOk(ys[i]) <==> ItemOk(items[i]) {
      StampOk(items[i], now, actor);
    }
    forall i, j | 0 <= i < j < |items| ensures Clash(ys[i], ys[j]) <==> Clash(items[i], items[j]) {
      StampClash(items[i], items[j], now, actor);
    }
  }

  lemma StampRoute(f: File, now: Time, actor: string)
    ensures HasRoute(StampFile(f, now, actor)) <==> HasRoute(f)
  {
    var g := StampFile(f, now, actor);
    assert forall i :: 0 <= i < |f.defaults| ==> (Serves(g.defaults[i]) <==> Serves(f.defaults[i]));
  }

  lemma StampedSlice(f: File, now: Time, actor: string, kind: Kind)
    ensures Slice(StampFile(f, now, actor), kind) == StampSlice(Slice(f, kind), now, actor)
  {
  }

  /** A save refuses exactly the drafts that validation would refuse unstamped. */
  lemma SaveDecided(draft: File, now: Time, actor: string)
    ensures Finish(draft, now, actor).Some? <==> Accepts(draft)
  {
    var g := draft.(updated := now, updatedBy := actor, version := CURRENT_VERSION);
    var d := StampFile(g, now, actor);
    StampRoute(g, now, actor);
    assert HasRoute(g) <==> HasRoute(draft);
    forall kind ensures SliceOk(Slice(d, kind)) <==> SliceOk(Slice(draft, kind)) {
      StampedSlice(g, now, actor, kind);
      assert Slice(g, kind) == Slice(draft, kind);
      StampSliceOk(Slice(draft, kind), now, actor);
    }
    AcceptsByKind(d);
    AcceptsByKind(draft);
  }

  // ----- files without upstream defaults

  /** Documentation allows a file without upstream defaults, and loading accepts it,
      but copying it for a save turns its empty list into a missing one. A mutation
      that leaves the defaults alone is saved exactly when what it made of the rest
      is acceptable and the file has defaults. */
  lemma ZonesOnlyFileIsFrozen(f: File, mutate: File -> Option<File>, now: Time, actor: string)
    requires mutate(CloneOf(f)).Some?
    requires mutate(CloneOf(f)).value.defaults == f.defaults
    requires mutate(CloneOf(f)).value.nilDefaults == CloneOf(f).nilDefaults
    ensures SaveOn(f, mutate, now, actor).Some? <==>
            f.defaults != [] && Accepts(mutate(CloneOf(f)).value.(nilDefaults := false))
  {
    var d := mutate(CloneOf(f)).value;
    SaveDecided(d, now, actor);
    if f.defaults != [] {
      assert d == d.(nilDefaults := false);
    }
  }

  /** So a published file can be saved as it stands exactly when it has defaults. */
  lemma GoodFileSavesIffDefaults(f: File, now: Time, actor: string)
    requires Good(f)
    ensures SaveOn(f, g => Some(g), now, actor).Some? <==> f.defaults != []
  {
    ZonesOnlyFileIsFrozen(f, g => Some(g), now, actor);
    assert CloneOf(f).(nilDefaults := false) == f;
  }

  function CorpZone(id: string, now: Time): Zone {
    ForwardZone(id, "corp", false, ["10.0.0.4"], false, 0, Meta(false, [], now, "admin", false))
  }

  lemma PlainZoneOk(z: Zone, word: string, address: string)
    requires z.id != "" && z.name == word && IsLabel(word) && !z.wildcard
    requires z.upstreams == [address] && MatchesIPv4(address)
    ensures ZoneOk(z)
  {
    assert z.name[0] != '*';
    assert !HasPrefix(z.name, "*.");
  }

  lemma CorpAddressMatches()
    ensures MatchesIPv4("10.0.0.4")
  {
    FourOctets("10", "0", "0", "4");
    assert "10" + "." + ("0" + "." + ("0" + "." + "4")) == "10.0.0.4";
  }

  lemma CorpZoneOk(id: string, now: Time)
    requires id != ""
    ensures ZoneOk(CorpZone(id, now))
  {
    CorpAddressMatches();
    PlainZoneOk(CorpZone(id, now), "corp", "10.0.0.4");
  }

  /** A file with one zone and an empty list of defaults. */
  function ZonesOnly(z: Zone, now: Time): File {
    DefaultConfig(now).(defaults := [], zones := [z])
  }

  /** Such a file is good, its text is read back from disk, and no mutation that leaves
      the defaults alone is ever saved on it. */
  lemma ZonesOnlyFileExists(w: World, now: Time, mutate: File -> Option<File>, at: Time, actor: string)
    requires Lawful(w)
    ensures var f := ZonesOnly(CorpZone("z1", now), now);
            && Good(f) && Read(w, w.render(f)).Some?
            && (mutate(CloneOf(f)).Some? && mutate(CloneOf(f)).value.defaults == f.defaults
                && mutate(CloneOf(f)).value.nilDefaults == CloneOf(f).nilDefaults
                ==> SaveOn(f, mutate, at, actor).None?)
  {
    var f := ZonesOnly(CorpZone("z1", now), now);
    CorpZoneOk("z1", now);
    assert WithPorts(f.defaults) == f.defaults;
    assert Good(f);
    PrintedIsReadable(w, f);
  }

  lemma {:induction false} PutAllEmptyIff(xs: seq<Item>)
    ensures PutAll([], xs) == [] <==> forall x :: x in xs ==> x.meta.deleted
  {
    if xs != [] {
      var n := |xs| - 1;
      PutAllEmptyIff(xs[..n]);
      assert forall x :: x in xs <==> x in xs[..n] || x == xs[n];
      assert xs[n] in xs;
    }
  }

  /** A merge is a way out: on a file without defaults its save succeeds exactly when the
      envelope brings an admitted live default and the rest is acceptable. */
  lemma MergeThawsOnlyWithDefault(f: File, env: Envelope, now: Time, skew: int, at: Time, actor: string)
    requires f.defaults == []
    ensures SaveOn(f, g => Some(MergedFile(g, env, now, skew)), at, actor).Some? <==>
            (exists x :: x in env.defaults && Admits(x, now, skew) && !x.meta.deleted)
            && Accepts(MergedFile(CloneOf(f), env, now, skew).(nilDefaults := false))
  {
    var xs := Admitted(env.defaults, now, skew);
    var d := MergedFile(CloneOf(f), env, now, skew);
    FilterMembers(env.defaults, x => Admits(x, now, skew));
    PutAllEmptyIff(xs);
    SaveDecided(d, at, actor);
    assert !d.nilDefaults ==> d == d.(nilDefaults := false);
  }

  // ----- drafts whose live items all come from an accepted file

  ghost predicate CoveredBy(a: seq<Item>, b: seq<Item>) {
    forall i :: 0 <= i < |a| ==> a[i] in b || (a[i].meta.deleted && ItemOk(a[i]))
  }

  lemma CoveredClash(a: seq<Item>, b: seq<Item>, i: nat, j: nat)
    requires i < j < |a| && Distinct(a) && NoClash(b) && a[i] in b && a[j] in b
    ensures !Clash(a[i], a[j])
  {
    var p :| 0 <= p < |b| && b[p] == a[i];
    var q :| 0 <= q < |b| && b[q] == a[j];
    assert Key(a[i]) != Key(a[j]);
    assert p != q;
    ClashSymmetric(a[i], a[j]);
  }

  lemma CoveredSliceOk(a: seq<Item>, b: seq<Item>)
    requires Distinct(a) && SliceOk(b) && CoveredBy(a, b)
    ensures SliceOk(a)
  {
    forall i | 0 <= i < |a| ensures ItemOk(a[i]) {
      if a[i] in b {
        var p :| 0 <= p < |b| && b[p] == a[i];
      }
    }
    forall i, j | 0 <= i < j < |a| ensures !Clash(a[i], a[j]) {
      if a[i] in b && a[j] in b {
        CoveredClash(a, b, i, j);
      }
    }
  }

  lemma ClashSymmetric(x: Item, y: Item)
    ensures Clash(x, y) <==> Clash(y, x)
  {
  }

  // ----- merged files

  /** The version a merge leaves of a key. */
  function Joined(f: File, env: Envelope, now: Time, skew: int, kind: Kind, k: string): Option<Item> {
    Resolve(Lookup(Slice(f, kind), k), Copies(Admitted(EnvSlice(env, kind), now, skew), k))
  }

  lemma MergedLookup(f: File, env: Envelope, now: Time, skew: int, kind: Kind, k: string)
    ensures Lookup(Slice(MergedFile(f, env, now, skew), kind), k) == Joined(f, env, now, skew, kind, k)
  {
    MergedFileSlice(f, env, now, skew, kind);
    SliceMergeRefinesJoin(Slice(f, kind), Admitted(EnvSlice(env, kind), now, skew), k);
  }

  /** Two different keys end at versions that may not live side by side. */
  ghost predicate KeysClash(a: Option<Item>, b: Option<Item>) {
    a.Some? && b.Some? && Clash(a.value, b.value)
  }

  ghost predicate NoKeysClash(items: seq<Item>) {
    forall k, l :: k != l ==> !KeysClash(Lookup(items, k), Lookup(items, l))
  }

  /** With distinct keys, clashing positions are clashing keys. */
  lemma NoClashByKey(items: seq<Item>)
    requires Distinct(items)
    ensures NoClash(items) <==> NoKeysClash(items)
  {
    if NoClash(items) {
      forall k, l | k != l ensures !KeysClash(Lookup(items, k), Lookup(items, l)) {
        NoClashAt(items, k, l);
      }
    } else {
      var i, j :| 0 <= i < j < |items| && Clash(items[i], items[j]);
      LookupMember(items, items[i]);
      LookupMember(items, items[j]);
      assert KeysClash(Lookup(items, Key(items[i])), Lookup(items, Key(items[j])));
    }
  }

  lemma NoClashAt(items: seq<Item>, k: string, l: string)
    requires NoClash(items) && k != l
    ensures !KeysClash(Lookup(items, k), Lookup(items, l))
  {
    var i, j := LastIndex(items, k), LastIndex(items, l);
    if i >= 0 && j >= 0 {
      assert i != j;
      ClashSymmetric(items[i], items[j]);
    }
  }

  ghost predicate JoinsClash(f: File, env: Envelope, now: Time, skew: int, kind: Kind, k: string, l: string) {
    k != l && KeysClash(Joined(f, env, now, skew, kind, k), Joined(f, env, now, skew, kind, l))
  }

  ghost predicate NoJoinsClash(f: File, env: Envelope, now: Time, skew: int, kind: Kind) {
    forall k, l :: !JoinsClash(f, env, now, skew, kind, k, l)
  }

  lemma JoinsClashAt(f: File, env: Envelope, now: Time, skew: int, kind: Kind, k: string, l: string)
    ensures var r := Slice(MergedFile(f, env, now, skew), kind);
            JoinsClash(f, env, now, skew, kind, k, l) <==> k != l && KeysClash(Lookup(r, k), Lookup(r, l))
  {
    MergedLookup(f, env, now, skew, kind, k);
    MergedLookup(f, env, now, skew, kind, l);
  }

  lemma MergedDistinct(f: File, env: Envelope, now: Time, skew: int, kind: Kind)
    requires Distinct(Slice(f, kind))
    ensures Distinct(Slice(MergedFile(f, env, now, skew), kind))
  {
    MergedFileSlice(f, env, now, skew, kind);
    MergeKeepsPositions(Slice(f, kind), Admitted(EnvSlice(env, kind), now, skew));
  }

  lemma NoJoinsClashByKey(f: File, env: Envelope, now: Time, skew: int, kind: Kind, r: seq<Item>)
    requires r == Slice(MergedFile(f, env, now, skew), kind)
    ensures NoKeysClash(r) <==> NoJoinsClash(f, env, now, skew, kind)
  {
    forall k, l ensures JoinsClash(f, env, now, skew, kind, k, l) <==> k != l && KeysClash(Lookup(r, k), Lookup(r, l)) {
      JoinsClashAt(f, env, now, skew, kind, k, l);
    }
  }

  /** The merged items of a kind may live side by side exactly when no two different keys
      end at live versions with one clean name, or one name and type. */
  lemma MergeClashIff(f: File, env: Envelope, now: Time, skew: int, kind: Kind)
    requires Distinct(Slice(f, kind))
    ensures NoClash(Slice(MergedFile(f, env, now, skew), kind)) <==> NoJoinsClash(f, env, now, skew, kind)
  {
    var r := Slice(MergedFile(f, env, now, skew), kind);
    MergedDistinct(f, env, now, skew, kind);
    NoClashByKey(r);
    NoJoinsClashByKey(f, env, now, skew, kind, r);
  }

  /** The merge leaves some item of the kind. */
  ghost predicate SomeJoined(f: File, env: Envelope, now: Time, skew: int, kind: Kind) {
    exists k :: Joined(f, env, now, skew, kind, k).Some?
  }

  predicate CanServe(o: Option<Item>) {
    o.Some? && o.value.UpstreamDefault? && Serves(o.value)
  }

  /** A zone is left, or a default that can serve. */
  ghost predicate RouteLeft(f: File, env: Envelope, now: Time, skew: int) {
    SomeJoined(f, env, now, skew, Zones) || exists k :: CanServe(Joined(f, env, now, skew, Defaults, k))
  }

  lemma NonEmptyByKey(items: seq<Item>)
    ensures items != [] <==> exists k :: Lookup(items, k).Some?
  {
    if items != [] {
      assert LastIndex(items, Key(items[0])) >= 0;
      assert Lookup(items, Key(items[0])).Some?;
    }
  }

  lemma ServesByKey(us: seq<Default>)
    requires Distinct(us)
    ensures (exists i :: 0 <= i < |us| && Serves(us[i])) <==> exists k :: CanServe(Lookup(us, k))
  {
    if i :| 0 <= i < |us| && Serves(us[i]) {
      LookupMember(us, us[i]);
      assert CanServe(Lookup(us, Key(us[i])));
    }
    if k :| CanServe(Lookup(us, k)) {
      assert Serves(us[LastIndex(us, k)]);
    }
  }

  lemma MergedRoute(f: File, env: Envelope, now: Time, skew: int)
    requires Distinct(f.defaults)
    ensures HasRoute(MergedFile(f, env, now, skew)) <==> RouteLeft(f, env, now, skew)
  {
    var g := MergedFile(f, env, now, skew);
    MergeKeepsPositions(f.defaults, Admitted(env.defaults, now, skew));
    ServesByKey(g.defaults);
    NonEmptyByKey(g.zones);
    forall k ensures Lookup(g.defaults, k) == Joined(f, env, now, skew, Defaults, k) {
      MergedLookup(f, env, now, skew, Defaults, k);
    }
    forall k ensures Lookup(g.zones, k) == Joined(f, env, now, skew, Zones, k) {
      MergedLookup(f, env, now, skew, Zones, k);
    }
  }

  lemma MergedDefaultsPresent(f: File, env: Envelope, now: Time, skew: int)
    ensures MergedFile(CloneOf(f), env, now, skew).nilDefaults <==> !SomeJoined(f, env, now, skew, Defaults)
  {
    var g := MergedFile(CloneOf(f), env, now, skew);
    MergeKeepsPositions(f.defaults, Admitted(env.defaults, now, skew));
    NonEmptyByKey(g.defaults);
    forall k ensures Lookup(g.defaults, k) == Joined(f, env, now, skew, Defaults, k) {
      MergedLookup(CloneOf(f), env, now, skew, Defaults, k);
    }
  }

  lemma MergedItemsOk(f: File, env: Envelope, now: Time, skew: int, kind: Kind)
    requires ItemsOk(Slice(f, kind))
    requires forall x :: x in EnvSlice(env, kind) && Admits(x, now, skew) ==> ItemOk(x)
    ensures ItemsOk(Slice(MergedFile(f, env, now, skew), kind))
  {
    MergedFileSlice(f, env, now, skew, kind);
    MergedMembers(Slice(f, kind), EnvSlice(env, kind), now, skew);
  }

  /** Every item the envelope gets in is well formed by itself. */
  ghost predicate EnvOk(env: Envelope, now: Time, skew: int) {
    forall kind, x :: x in EnvSlice(env, kind) && Admits(x, now, skew) ==> ItemOk(x)
  }

  ghost predicate DistinctKeys(f: File) {
    forall kind :: Distinct(Slice(f, kind))
  }

  lemma MergedSliceOk(f: File, env: Envelope, now: Time, skew: int, kind: Kind)
    requires SliceOk(Slice(f, kind)) && DistinctKeys(f) && EnvOk(env, now, skew)
    ensures SliceOk(Slice(MergedFile(f, env, now, skew), kind)) <==> NoJoinsClash(f, env, now, skew, kind)
  {
    MergedItemsOk(f, env, now, skew, kind);
    MergeClashIff(f, env, now, skew, kind);
  }

  /** Copying first changes nothing but the missing list. */
  lemma MergedClone(f: File, env: Envelope, now: Time, skew: int)
    ensures var g, h := MergedFile(CloneOf(f), env, now, skew), MergedFile(f, env, now, skew);
            (HasRoute(g) <==> HasRoute(h)) && forall kind :: Slice(g, kind) == Slice(h, kind)
  {
  }

  lemma MergedAccepted(f: File, env: Envelope, now: Time, skew: int)
    requires Accepts(f) && DistinctKeys(f) && EnvOk(env, now, skew)
    ensures Accepts(MergedFile(CloneOf(f), env, now, skew)) <==>
            && !MergedFile(CloneOf(f), env, now, skew).nilDefaults
            && HasRoute(MergedFile(f, env, now, skew))
            && forall kind :: NoJoinsClash(f, env, now, skew, kind)
  {
    var g := MergedFile(CloneOf(f), env, now, skew);
    AcceptsByKind(f);
    AcceptsByKind(g);
    MergedClone(f, env, now, skew);
    forall kind ensures SliceOk(Slice(g, kind)) <==> NoJoinsClash(f, env, now, skew, kind) {
      assert SliceOk(Slice(f, kind));
      MergedSliceOk(f, env, now, skew, kind);
    }
  }

  /** Validity is not preserved by merging. With an accepted file, distinct keys and
      incoming items that are well formed one by one, the save of a merge succeeds
      exactly when the list of defaults is not empty, a zone or a default that can serve
      is left, and no two different keys of a kind end at versions that clash. */
  lemma MergeSavedIff(f: File, env: Envelope, now: Time, skew: int, at: Time, actor: string)
    requires Accepts(f) && DistinctKeys(f) && EnvOk(env, now, skew)
    ensures SaveOn(f, g => Some(MergedFile(g, env, now, skew)), at, actor).Some? <==>
            && SomeJoined(f, env, now, skew, Defaults)
            && RouteLeft(f, env, now, skew)
            && forall kind :: NoJoinsClash(f, env, now, skew, kind)
  {
    SaveDecided(MergedFile(CloneOf(f), env, now, skew), at, actor);
    MergedDefaultsPresent(f, env, now, skew);
    assert Distinct(Slice(f, Defaults));
    MergedRoute(f, env, now, skew);
    MergedAccepted(f, env, now, skew);
  }

  /** Two keys that end at versions which clash, such as one zone name under two IDs, make
      the save refuse the envelope, whatever else it and the file hold. */
  lemma ClashRefused(f: File, env: Envelope, now: Time, skew: int, kind: Kind, k: string, l: string,
                     at: Time, actor: string)
    requires JoinsClash(f, env, now, skew, kind, k, l)
    ensures SaveOn(f, g => Some(MergedFile(g, env, now, skew)), at, actor).None?
  {
    var g := MergedFile(CloneOf(f), env, now, skew);
    MergedClone(f, env, now, skew);
    JoinsClashAt(f, env, now, skew, kind, k, l);
    if NoClash(Slice(g, kind)) {
      NoClashAt(Slice(g, kind), k, l);
    }
    AcceptsByKind(g);
    SaveDecided(g, at, actor);
  }
}

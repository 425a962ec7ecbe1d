/** The configuration file as the object that mutations, validation and merging
    update in place (internal/config/config.go, internal/config/store.go). */
module Files {
  import opened Text
  import opened Config
  import opened Validation

  datatype Problem =
    | DefaultsMissing
    | BadAddress(i: nat)
    | BadPort(i: nat)
    | NoRoute
    | ZoneWithoutId(i: nat)
    | BadZoneName(i: nat)
    | DuplicateZone(i: nat)
    | WildcardMismatch(i: nat)
    | NoUpstream(i: nat)
    | WildcardLatency(i: nat)
    | BadUpstream(i: nat, j: nat)
    | RecordWithoutId(i: nat)
    | BadRecordName(i: nat)
    | DuplicateRecord(i: nat)
    | BadRecordValue(i: nat)

  ghost predicate RepeatsZone(zs: seq<Zone>, i: int)
    requires 0 <= i < |zs|
  {
    !zs[i].meta.deleted
    && exists j :: 0 <= j < i && !zs[j].meta.deleted && CleanName(zs[j].name) == CleanName(zs[i].name)
  }

  ghost predicate RepeatsRecord(rs: seq<Record>, i: int)
    requires 0 <= i < |rs|
  {
    !rs[i].meta.deleted
    && exists j :: 0 <= j < i && !rs[j].meta.deleted && RecordKey(rs[j]) == RecordKey(rs[i])
  }

  ghost predicate ExplainsDefaults(p: Problem, us: seq<Default>) {
    match p
    case BadAddress(i) => i < |us| && !AddressOk(us[i])
    case BadPort(i) => i < |us| && !PortOk(us[i])
    case _ => false
  }

  ghost predicate ExplainsZoneBody(p: Problem, z: Zone, i: nat) {
    match p
    case WildcardMismatch(k) => k == i && (z.wildcard <==> !HasPrefix(z.name, "*."))
    case NoUpstream(k) => k == i && z.upstreams == []
    case WildcardLatency(k) => k == i && z.leastLatency && ActsAsWildcard(z)
    case BadUpstream(k, j) => k == i && j < |z.upstreams| && !MatchesUpstream(z.upstreams[j])
    case _ => false
  }

  ghost predicate ExplainsZones(p: Problem, zs: seq<Zone>) {
    match p
    case ZoneWithoutId(i) => i < |zs| && zs[i].id == ""
    case BadZoneName(i) => i < |zs| && !ZoneNameOk(zs[i])
    case DuplicateZone(i) => i < |zs| && RepeatsZone(zs, i)
    case _ => exists i: nat :: i < |zs| && ExplainsZoneBody(p, zs[i], i)
  }

  ghost predicate ExplainsRecords(p: Problem, rs: seq<Record>) {
    match p
    case RecordWithoutId(i) => i < |rs| && rs[i].id == ""
    case BadRecordName(i) => i < |rs| && !MatchesDnsName(rs[i].name)
    case DuplicateRecord(i) => i < |rs| && RepeatsRecord(rs, i)
    case BadRecordValue(i) => i < |rs| && !RecordValueOk(rs[i])
    case _ => false
  }

  /** The problem named really is one of the file's. */
  ghost predicate Explains(p: Problem, f: File) {
    || (p.DefaultsMissing? && f.nilDefaults)
    || (p.NoRoute? && !HasRoute(f))
    || ExplainsDefaults(p, f.defaults)
    || ExplainsZones(p, f.zones)
    || ExplainsRecords(p, f.records)
  }

  /** The part of a zone's checks that comes after the duplicate test. */
  ghost predicate ZoneBodyOk(z: Zone) {
    (z.wildcard <==> HasPrefix(z.name, "*."))
    && z.upstreams != []
    && !(z.leastLatency && ActsAsWildcard(z))
    && forall j :: 0 <= j < |z.upstreams| ==> MatchesUpstream(z.upstreams[j])
  }

  /** Checks one zone apart from the duplicate test. */
  method CheckZoneBody(z: Zone, i: nat) returns (p: Option<Problem>)
    ensures p.None? <==> ZoneBodyOk(z)
    ensures p.Some? ==> ExplainsZoneBody(p.value, z, i)
  {
    if z.wildcard && !HasPrefix(z.name, "*.") { return Some(WildcardMismatch(i)); }
    if !z.wildcard && HasPrefix(z.name, "*.") { return Some(WildcardMismatch(i)); }
    var wildcard := z.wildcard;
    if wildcard && '.' !in CleanName(z.name) { wildcard := false; }
    if |z.upstreams| == 0 { return Some(NoUpstream(i)); }
    if z.leastLatency && wildcard { return Some(WildcardLatency(i)); }
    for j := 0 to |z.upstreams|
      invariant forall k :: 0 <= k < j ==> MatchesUpstream(z.upstreams[k])
    {
      if !MatchesUpstream(z.upstreams[j]) { return Some(BadUpstream(i, j)); }
    }
    return None;
  }

  /** `seen` holds exactly the clean names of the live zones before `i`, and no
      two of those zones share one. */
  ghost predicate ZonesSeen(zs: seq<Zone>, i: int, seen: set<string>)
    requires 0 <= i <= |zs|
  {
    (forall k :: 0 <= k < i && !zs[k].meta.deleted ==> CleanName(zs[k].name) in seen)
    && (forall n :: n in seen ==> exists k :: 0 <= k < i && !zs[k].meta.deleted && CleanName(zs[k].name) == n)
    && (forall a, b :: 0 <= a < b < i && !zs[a].meta.deleted && !zs[b].meta.deleted ==>
         CleanName(zs[a].name) != CleanName(zs[b].name))
  }

  /** The duplicate test on zone `i`. */
  method SeeZone(zs: seq<Zone>, i: nat, seen: set<string>) returns (duplicate: bool, seen': set<string>)
    requires i < |zs| && ZonesSeen(zs, i, seen)
    ensures duplicate <==> RepeatsZone(zs, i)
    ensures !duplicate ==> ZonesSeen(zs, i + 1, seen')
  {
    var clean := CleanName(zs[i].name);
    duplicate, seen' := false, seen;
    if !zs[i].meta.deleted {
      if clean in seen { return true, seen; }
      seen' := seen + {clean};
      assert !zs[i].meta.deleted && CleanName(zs[i].name) == clean;
    }
  }

  method CheckZones(zs: seq<Zone>) returns (p: Option<Problem>)
    ensures p.None? <==> (forall i :: 0 <= i < |zs| ==> ZoneOk(zs[i])) && ZonesDistinct(zs)
    ensures p.Some? ==> ExplainsZones(p.value, zs)
  {
    var seen: set<string> := {};
    for i := 0 to |zs|
      invariant forall k :: 0 <= k < i ==> ZoneOk(zs[k])
      invariant ZonesSeen(zs, i, seen)
    {
      var z := zs[i];
      if z.id == "" { return Some(ZoneWithoutId(i)); }
      if !ZoneNameOk(z) { return Some(BadZoneName(i)); }
      var duplicate;
      duplicate, seen := SeeZone(zs, i, seen);
      if duplicate { return Some(DuplicateZone(i)); }
      var q := CheckZoneBody(z, i);
      if q.Some? { return q; }
    }
    return None;
  }

  ghost predicate SameNameAndType(a: Record, b: Record) {
    ToLower(a.name) == ToLower(b.name) && ToUpper(a.rtype) == ToUpper(b.rtype)
  }

  ghost predicate RecordsSeen(rs: seq<Record>, i: int, seen: set<string>)
    requires 0 <= i <= |rs|
  {
    (forall k :: 0 <= k < i && !rs[k].meta.deleted ==> RecordKey(rs[k]) in seen)
    && (forall n :: n in seen ==> exists k :: 0 <= k < i && !rs[k].meta.deleted && RecordKey(rs[k]) == n)
    && (forall a, b :: 0 <= a < b < i && !rs[a].meta.deleted && !rs[b].meta.deleted ==>
         !SameNameAndType(rs[a], rs[b]))
  }

  lemma KeyMeansNameAndType(a: Record, b: Record)
    requires MatchesDnsName(a.name) && MatchesDnsName(b.name)
    ensures RecordKey(a) == RecordKey(b) <==> SameNameAndType(a, b)
  {
    DnsNameNoBar(a.name);
    DnsNameNoBar(b.name);
    RecordKeyInjective(a, b);
  }

  lemma KeysMeanNameAndType(rs: seq<Record>, i: nat)
    requires i < |rs| && forall k :: 0 <= k <= i ==> MatchesDnsName(rs[k].name)
    ensures forall k :: 0 <= k <= i ==> (RecordKey(rs[k]) == RecordKey(rs[i]) <==> SameNameAndType(rs[k], rs[i]))
  {
    forall k | 0 <= k <= i
      ensures RecordKey(rs[k]) == RecordKey(rs[i]) <==> SameNameAndType(rs[k], rs[i])
    {
      KeyMeansNameAndType(rs[k], rs[i]);
    }
  }

  /** The duplicate test on record `i`. */
  method SeeRecord(rs: seq<Record>, i: nat, seen: set<string>) returns (duplicate: bool, seen': set<string>)
    requires i < |rs| && RecordsSeen(rs, i, seen)
    requires forall k :: 0 <= k <= i ==> (RecordKey(rs[k]) == RecordKey(rs[i]) <==> SameNameAndType(rs[k], rs[i]))
    ensures duplicate <==> RepeatsRecord(rs, i)
    ensures !duplicate ==> RecordsSeen(rs, i + 1, seen')
  {
    var key := RecordKey(rs[i]);
    duplicate, seen' := false, seen;
    if !rs[i].meta.deleted {
      if key in seen { return true, seen; }
      seen' := seen + {key};
      assert !rs[i].meta.deleted && RecordKey(rs[i]) == key;
    }
  }

  /** The checks on record `i` before the duplicate test. */
  method CheckRecordHead(rs: seq<Record>, i: nat) returns (p: Option<Problem>)
    requires i < |rs|
    ensures p.None? <==> rs[i].id != "" && MatchesDnsName(rs[i].name)
    ensures p.Some? ==> ExplainsRecords(p.value, rs)
  {
    if rs[i].id == "" { return Some(RecordWithoutId(i)); }
    if !MatchesDnsName(rs[i].name) { return Some(BadRecordName(i)); }
    return None;
  }

  /** The checks on record `i` after it. */
  method CheckRecordBody(rs: seq<Record>, i: nat) returns (p: Option<Problem>)
    requires i < |rs|
    ensures p.None? <==> RecordValueOk(rs[i])
    ensures p.Some? ==> ExplainsRecords(p.value, rs)
  {
    if !RecordValueOk(rs[i]) { return Some(BadRecordValue(i)); }
    return None;
  }

  method CheckRecords(rs: seq<Record>) returns (p: Option<Problem>)
    ensures p.None? <==> (forall i :: 0 <= i < |rs| ==> RecordOk(rs[i])) && RecordsDistinct(rs)
    ensures p.Some? ==> ExplainsRecords(p.value, rs)
  {
    var seen: set<string> := {};
    for i := 0 to |rs|
      invariant forall k :: 0 <= k < i ==> RecordOk(rs[k])
      invariant RecordsSeen(rs, i, seen)
    {
      p := CheckRecordHead(rs, i);
      if p.Some? { return; }
      KeysMeanNameAndType(rs, i);
      var duplicate;
      duplicate, seen := SeeRecord(rs, i, seen);
      if duplicate { return Some(DuplicateRecord(i)); }
      p := CheckRecordBody(rs, i);
      if p.Some? { return; }
    }
    return None;
  }

  /** The list with missing ports filled in up to and including position `i`. */
  function PortsThrough(us: seq<Default>, i: nat): (r: seq<Default>)
    requires i < |us|
    ensures |r| == |us| && forall k :: 0 <= k < |us| ==> r[k] == if k <= i then WithPort(us[k]) else us[k]
  {
    WithPorts(us[..i + 1]) + us[i + 1..]
  }

  /** What a refusal leaves behind: the fields filled in before the problem was met. */
  ghost function Refused(p: Problem, f: File): File
    requires Explains(p, f)
  {
    var g := f.(version := if f.version == 0 then CURRENT_VERSION else f.version);
    match p
    case DefaultsMissing => g
    case BadAddress(i) => g.(defaults := PortsThrough(f.defaults, i))
    case BadPort(i) => g.(defaults := PortsThrough(f.defaults, i))
    case NoRoute => g.(defaults := WithPorts(f.defaults))
    case _ => Normalised(f)
  }

  class ConfigFile {
    var version: int
    var updated: Time
    var updatedBy: string
    var settings: Settings
    var peers: Peers
    var nilDefaults: bool
    var defaults: seq<Default>
    var zones: seq<Zone>
    var records: seq<Record>
    var doNotSyncSettings: bool

    /** The file's value. */
    function Snapshot(): (f: File)
      reads this
    {
      File(version, updated, updatedBy, settings, peers, nilDefaults, defaults, zones, records,
           doNotSyncSettings)
    }

    constructor (f: File)
      ensures Snapshot() == f
    {
      version, updated, updatedBy := f.version, f.updated, f.updatedBy;
      settings, peers := f.settings, f.peers;
      nilDefaults, defaults, zones, records := f.nilDefaults, f.defaults, f.zones, f.records;
      doNotSyncSettings := f.doNotSyncSettings;
    }

    /** A new object, so that editing it leaves this one alone. */
    method Clone() returns (c: ConfigFile)
      ensures fresh(c)
      ensures c.Snapshot() == CloneOf(Snapshot())
    {
      c := new ConfigFile(CloneOf(Snapshot()));
    }

    /** Replaces the value wholesale, as a mutation supplied by a caller may. */
    method Assign(f: File)
      modifies this
      ensures Snapshot() == f
    {
      version, updated, updatedBy := f.version, f.updated, f.updatedBy;
      settings, peers := f.settings, f.peers;
      nilDefaults, defaults, zones, records := f.nilDefaults, f.defaults, f.zones, f.records;
      doNotSyncSettings := f.doNotSyncSettings;
    }

    method StampItems(now: Time, actor: string)
      modifies this`defaults, this`zones, this`records
      ensures Snapshot() == StampFile(old(Snapshot()), now, actor)
    {
      var n := |defaults|;
      for i := 0 to n
        modifies this`defaults
        invariant |defaults| == n
        invariant forall k :: 0 <= k < i ==> defaults[k] == Stamp(old(defaults)[k], now, actor)
        invariant forall k :: i <= k < n ==> defaults[k] == old(defaults)[k]
      {
        defaults := defaults[i := Stamp(defaults[i], now, actor)];
      }
      n := |zones|;
      for i := 0 to n
        modifies this`zones
        invariant |zones| == n
        invariant forall k :: 0 <= k < i ==> zones[k] == Stamp(old(zones)[k], now, actor)
        invariant forall k :: i <= k < n ==> zones[k] == old(zones)[k]
      {
        zones := zones[i := Stamp(zones[i], now, actor)];
      }
      n := |records|;
      for i := 0 to n
        modifies this`records
        invariant |records| == n
        invariant forall k :: 0 <= k < i ==> records[k] == Stamp(old(records)[k], now, actor)
        invariant forall k :: i <= k < n ==> records[k] == old(records)[k]
      {
        records := records[i := Stamp(records[i], now, actor)];
      }
      assert defaults == StampSlice(old(defaults), now, actor);
      assert zones == StampSlice(old(zones), now, actor);
      assert records == StampSlice(old(records), now, actor);
    }

    /** The loop over upstream defaults: sets missing ports in place and counts
        the entries that can serve. */
    method CheckDefaults() returns (p: Option<Problem>, enabledCount: nat)
      modifies this`defaults
      ensures p.None? <==> forall i :: 0 <= i < |old(defaults)| ==> DefaultOk(old(defaults)[i])
      ensures p.None? ==> defaults == WithPorts(old(defaults))
      ensures p.None? ==>
              (enabledCount > 0 <==> exists i :: 0 <= i < |old(defaults)| && Serves(old(defaults)[i]))
      ensures p.Some? ==> ExplainsDefaults(p.value, old(defaults)) && defaults == PortsThrough(old(defaults), p.value.i)
    {
      ghost var before := defaults;
      var n := |defaults|;
      enabledCount := 0;
      for i := 0 to n
        modifies this`defaults
        invariant |defaults| == n
        invariant forall k :: 0 <= k < i ==> defaults[k] == WithPort(before[k]) && DefaultOk(before[k])
        invariant forall k :: i <= k < n ==> defaults[k] == before[k]
        invariant enabledCount > 0 <==> exists k :: 0 <= k < i && Serves(before[k])
      {
        defaults := defaults[i := WithPort(defaults[i])];
        var u := defaults[i];
        assert u == WithPort(before[i]);
        if !u.meta.deleted {
          if !MatchesIPv4(u.address) && !MatchesIPv6(u.address) {
            assert !AddressOk(before[i]);
            assert defaults == PortsThrough(before, i);
            return Some(BadAddress(i)), enabledCount;
          }
          if u.port <= 0 || u.port > 65535 {
            assert !PortOk(before[i]);
            assert defaults == PortsThrough(before, i);
            return Some(BadPort(i)), enabledCount;
          }
          if u.enabled {
            enabledCount := enabledCount + 1;
          }
        }
        assert u.enabled && !u.meta.deleted <==> Serves(before[i]);
      }
      assert defaults == WithPorts(before);
      return None, enabledCount;
    }

    /** The part of validation after the defaults: settings, zones and records. */
    method CheckRest() returns (p: Option<Problem>)
      modifies this`settings, this`peers
      ensures p.None? <==>
              (forall i :: 0 <= i < |zones| ==> ZoneOk(zones[i])) && ZonesDistinct(zones)
              && (forall i :: 0 <= i < |records| ==> RecordOk(records[i])) && RecordsDistinct(records)
      ensures p.Some? ==> ExplainsZones(p.value, zones) || ExplainsRecords(p.value, records)
      ensures settings == SettingsWithDefaults(old(settings)) && peers == PeersWithDefaults(old(peers))
    {
      settings := SettingsWithDefaults(settings);
      peers := PeersWithDefaults(peers);
      p := CheckZones(zones);
      if p.Some? { return; }
      p := CheckRecords(records);
    }

    /** Accepts exactly the files `Accepts` describes, leaving them normalised;
        otherwise names a problem the file has, and stops where it met it. */
    method Validate() returns (p: Option<Problem>)
      modifies this
      ensures p.None? <==> Accepts(old(Snapshot()))
      ensures p.None? ==> Snapshot() == Normalised(old(Snapshot()))
      ensures p.Some? ==> Explains(p.value, old(Snapshot())) && Snapshot() == Refused(p.value, old(Snapshot()))
      ensures zones == old(zones) && records == old(records)
    {
      if version == 0 {
        version := CURRENT_VERSION;
      }
      if nilDefaults {
        return Some(DefaultsMissing);
      }
      var q, enabledCount := CheckDefaults();
      if q.Some? { return q; }
      if |defaults| > 0 && enabledCount == 0 {
        if |zones| == 0 { return Some(NoRoute); }
      }
      if |defaults| == 0 && |zones| == 0 { return Some(NoRoute); }
      p := CheckRest();
    }
  }
}

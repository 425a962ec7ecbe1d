/** The zone table of the least-latency proxy (internal/unbound/proxy/proxy.go):
    objects that rebuilds keep, replace or drop. */
module Proxy {
  import opened Text
  import opened Config
  import opened Validation
  import opened Outcomes
  import opened Selection

  function Fqdn(name: string): string {
    if HasSuffix(name, ".") then name else name + "."
  }

  predicate Wanted(z: Zone) {
    !z.meta.deleted && z.leastLatency && !z.wildcard && z.upstreams != []
  }

  function ProbeUpstream(z: Zone): string
    requires z.upstreams != []
  {
    if ':' in z.upstreams[0] then z.upstreams[0] else z.upstreams[0] + ":53"
  }

  /** Minutes between probes. */
  function Interval(z: Zone): int {
    if z.latencyTestFrequency <= 0 then 5 else z.latencyTestFrequency
  }

  /** The zone that settles the entry for a name: the last wanted one. */
  function Ruling(zs: seq<Zone>, name: string): (r: Option<Zone>)
    ensures r.Some? ==> r.value in zs && Wanted(r.value) && Fqdn(r.value.name) == name
    ensures r.None? ==> forall z :: z in zs && Wanted(z) ==> Fqdn(z.name) != name
  {
    if zs == [] then None
    else
      var n := |zs| - 1;
      if Wanted(zs[n]) && Fqdn(zs[n].name) == name then Some(zs[n]) else Ruling(zs[..n], name)
  }

  lemma RulingSnoc(zs: seq<Zone>, z: Zone, name: string)
    ensures Ruling(zs + [z], name) == if Wanted(z) && Fqdn(z.name) == name then Some(z) else Ruling(zs, name)
  {
    assert (zs + [z])[..|zs|] == zs;
  }

  class ZoneState {
    const name: string
    const upstream: string
    const interval: int
    var records: seq<LatencyRecord>
    var updated: Time
    var err: string

    constructor (name: string, upstream: string, interval: int)
      ensures this.name == name && this.upstream == upstream && this.interval == interval
      ensures records == [] && updated == 0 && err == ""
    {
      this.name, this.upstream, this.interval := name, upstream, interval;
      records, updated, err := [], 0, "";
    }

    /** The locked end of a probe: an error keeps the old records. */
    method Finish(result: Option<seq<LatencyRecord>>, message: string, now: Time)
      modifies this
      ensures updated == now
      ensures result.Some? ==> records == result.value && err == ""
      ensures result.None? ==> records == old(records) && err == message
    {
      if result.None? {
        err := message;
        updated := now;
        return;
      }
      records := result.value;
      err := "";
      updated := now;
    }
  }

  /** The entry carries the name and the zone's settings. */
  ghost predicate Suits(e: ZoneState, z: Zone, name: string) {
    z.upstreams != [] && e.name == name && e.upstream == ProbeUpstream(z) && e.interval == Interval(z)
  }

  class Server {
    var zones: map<string, ZoneState>

    constructor ()
      ensures zones == map[]
    {
      zones := map[];
    }

    /** The entries are filed under their own names. */
    ghost predicate Valid()
      reads this
    {
      forall n :: n in zones ==> zones[n].name == n
    }

    /** There is an entry exactly for each wanted zone of the file. */
    ghost predicate Tabled(f: File)
      reads this
    {
      Valid() && forall n :: n in zones <==> Ruling(f.zones, n).Some?
    }

    /** The entry that a question is answered from. */
    function Entry(question: string): Option<ZoneState>
      reads this
    {
      var name := ToLower(question);
      if name in zones then Some(zones[name]) else None
    }

    /** The entry for one wanted zone: the current object if its settings still
        hold, a new one otherwise. */
    method EntryFor(z: Zone) returns (e: ZoneState)
      requires Valid() && Wanted(z)
      ensures Suits(e, z, Fqdn(z.name))
      ensures if Fqdn(z.name) in zones && Suits(zones[Fqdn(z.name)], z, Fqdn(z.name))
              then e == zones[Fqdn(z.name)]
              else fresh(e) && e.records == []
    {
      var fqdn := Fqdn(z.name);
      var interval := z.latencyTestFrequency;
      if interval <= 0 { interval := 5; }
      var upstream := z.upstreams[0];
      if ':' !in upstream { upstream := upstream + ":53"; }
      if fqdn in zones && zones[fqdn].upstream == upstream && zones[fqdn].interval == interval {
        return zones[fqdn];
      }
      e := new ZoneState(fqdn, upstream, interval);
    }

    /** After a rebuild there is an entry exactly for each wanted zone. An entry
        whose settings did not change is the same object as before; any other is
        new and empty. */
    method RebuildZones(cur: Option<File>)
      requires Valid()
      modifies this`zones
      ensures Valid()
      ensures cur.None? ==> zones == map[]
      ensures cur.Some? ==> Tabled(cur.value)
      ensures cur.Some? ==> forall n :: n in zones ==> Suits(zones[n], Ruling(cur.value.zones, n).value, n)
      ensures cur.Some? ==> forall n :: n in zones ==>
                if n in old(zones) && Suits(old(zones)[n], Ruling(cur.value.zones, n).value, n)
                then zones[n] == old(zones)[n]
                else fresh(zones[n]) && zones[n].records == []
    {
      if cur.None? {
        zones := map[];
        return;
      }
      var zs := cur.value.zones;
      var newZones: map<string, ZoneState> := map[];
      for i := 0 to |zs|
        invariant zones == old(zones)
        invariant forall n :: n in newZones <==> Ruling(zs[..i], n).Some?
        invariant forall n :: n in newZones ==> Suits(newZones[n], Ruling(zs[..i], n).value, n)
        invariant forall n :: n in newZones ==>
                    if n in zones && Suits(zones[n], Ruling(zs[..i], n).value, n)
                    then newZones[n] == zones[n]
                    else fresh(newZones[n]) && newZones[n].records == []
      {
        var z := zs[i];
        assert zs[..i + 1] == zs[..i] + [z];
        forall n { RulingSnoc(zs[..i], z, n); }
        if z.meta.deleted || !z.leastLatency || z.wildcard { continue; }
        if |z.upstreams| == 0 { continue; }
        var e := EntryFor(z);
        newZones := newZones[Fqdn(z.name) := e];
      }
      assert zs[..|zs|] == zs;
      zones := newZones;
    }

    /** One query. The entry is looked up under the lock; what the unlocked reads of its
        records then find is up to the probes, and is given by `found`. */
    method Serve(questions: seq<(string, QType)>, found: ZoneState -> Reads, parses: string -> bool)
      returns (rcode: Rcode, answer: seq<Answer>)
      ensures questions == [] ==> rcode == FormatError && answer == []
      ensures questions != [] && Entry(questions[0].0).None? ==> rcode == ServerFailure && answer == []
      ensures questions != [] && Entry(questions[0].0).Some? ==>
              var rs := found(Entry(questions[0].0).value);
              if rs.checked == [] then rcode == ServerFailure && answer == []
              else
                (exists ttl :: CommonTtl(rs.timed, ttl)
                               && answer == AnswerSection(rs.answered, questions[0].0, questions[0].1, parses, ttl))
                && rcode == if answer == [] then NameError else Success
    {
      if |questions| == 0 { return FormatError, []; }
      var name := ToLower(questions[0].0);
      var zone := if name in zones then Some(found(zones[name])) else None;
      rcode, answer := Handle(zone, questions[0].0, questions[0].1, parses);
    }

    /** After a rebuild there is an entry under a name exactly when some zone is for the
        proxy under it; the last such zone in the list is the one that settles it. */
    lemma TabledIff(f: File, name: string)
      requires Tabled(f)
      ensures name in zones <==> exists i :: LastFor(f.zones, name, i)
      ensures name in zones && Suits(zones[name], Ruling(f.zones, name).value, name) ==>
              exists i :: LastFor(f.zones, name, i) && Suits(zones[name], f.zones[i], name)
    {
      RulingIsLast(f.zones, name);
      if name in zones {
        var i :| RulesAt(f.zones, name, i);
        assert LastFor(f.zones, name, i);
      }
    }

    /** Entries are filed under the name as configured but looked up lowered: after a
        rebuild some question is answered from a wanted zone's entry exactly when its
        name has no upper-case letter. */
    lemma FoundIffLowerCase(f: File, z: Zone)
      requires Tabled(f) && z in f.zones && Wanted(z)
      ensures Fqdn(z.name) in zones
      ensures (exists q :: Entry(q) == Some(zones[Fqdn(z.name)])) <==> NoUpper(Fqdn(z.name))
    {
      var name := Fqdn(z.name);
      assert Ruling(f.zones, name).Some?;
      if q :| Entry(q) == Some(zones[name]) {
        assert name == zones[name].name == ToLower(q);
        LoweredHasNoUpper(q);
      }
      if NoUpper(name) {
        LoweredIsSame(name);
        assert Entry(name) == Some(zones[name]);
      }
    }
  }

  /** A live zone with the least-latency switch, no wildcard, and an upstream. */
  predicate ForProxy(z: Zone) {
    z.leastLatency && !z.wildcard && !z.meta.deleted && |z.upstreams| > 0
  }

  /** The last zone in the list that is for the proxy under a name. */
  ghost predicate LastFor(zs: seq<Zone>, name: string, i: int) {
    0 <= i < |zs| && ForProxy(zs[i]) && Fqdn(zs[i].name) == name
    && forall j :: i < j < |zs| && ForProxy(zs[j]) ==> Fqdn(zs[j].name) != name
  }

  lemma LastForSnoc(zs: seq<Zone>, z: Zone, name: string, i: int)
    ensures LastFor(zs + [z], name, i) <==>
            if ForProxy(z) && Fqdn(z.name) == name then i == |zs| else LastFor(zs, name, i)
  {
    var all := zs + [z];
    assert forall j :: 0 <= j < |zs| ==> all[j] == zs[j];
    if LastFor(all, name, i) && ForProxy(z) && Fqdn(z.name) == name {
      assert all[|zs|] == z;
    }
  }

  /** The zone that rules a name sits at its last position. */
  ghost predicate RulesAt(zs: seq<Zone>, name: string, i: int) {
    LastFor(zs, name, i) && Ruling(zs, name) == Some(zs[i])
  }

  lemma {:induction false} RulingIsLast(zs: seq<Zone>, name: string)
    ensures Ruling(zs, name).None? ==> forall i :: !LastFor(zs, name, i)
    ensures Ruling(zs, name).Some? ==> exists i :: RulesAt(zs, name, i)
  {
    if zs != [] {
      var before, z := zs[..|zs| - 1], zs[|zs| - 1];
      assert before + [z] == zs;
      RulingIsLast(before, name);
      RulingSnoc(before, z, name);
      forall i ensures LastFor(zs, name, i) <==>
                       if ForProxy(z) && Fqdn(z.name) == name then i == |before| else LastFor(before, name, i) {
        LastForSnoc(before, z, name, i);
      }
      if ForProxy(z) && Fqdn(z.name) == name {
        assert RulesAt(zs, name, |before|);
      } else if Ruling(before, name).Some? {
        var i :| RulesAt(before, name, i);
        assert RulesAt(zs, name, i);
      }
    }
  }

  /** What an entry is set to for a zone: the first upstream, at port 53 unless it names
      one, every five minutes unless the zone says otherwise. */
  lemma SetFor(e: ZoneState, z: Zone, name: string)
    ensures Suits(e, z, name) <==>
            && |z.upstreams| > 0 && e.name == name
            && (':' in z.upstreams[0] ==> e.upstream == z.upstreams[0])
            && (':' !in z.upstreams[0] ==> e.upstream == z.upstreams[0] + ":53")
            && (z.latencyTestFrequency > 0 ==> e.interval == z.latencyTestFrequency)
            && (z.latencyTestFrequency <= 0 ==> e.interval == 5)
  {
  }

  /** An absolute name ends in one dot more, unless it already ends in one. */
  lemma FqdnIs(name: string)
    ensures Fqdn(name) != "" && Fqdn(name)[|Fqdn(name)| - 1] == '.'
    ensures name != "" && name[|name| - 1] == '.' ==> Fqdn(name) == name
    ensures name == "" || name[|name| - 1] != '.' ==> Fqdn(name) == name + "."
  {
    if name != "" {
      assert name[|name| - 1..] == [name[|name| - 1]];
    }
  }

  predicate NoUpper(s: string) {
    forall i :: 0 <= i < |s| ==> !('A' <= s[i] <= 'Z')
  }

  lemma LoweredHasNoUpper(s: string)
    ensures NoUpper(ToLower(s))
  {
  }

  lemma LoweredIsSame(s: string)
    requires NoUpper(s)
    ensures ToLower(s) == s
  {
  }

  /** A zone that validation accepts and the proxy wants, and that is never found. */
  lemma UpperCaseZone(id: string, meta: Meta)
    requires id != "" && !meta.deleted
    ensures var z := ForwardZone(id, "Corp", false, ["10.0.0.4"], true, 5, meta);
            ZoneOk(z) && Wanted(z) && !NoUpper(Fqdn(z.name))
  {
    CorpAddressMatches();
    var z := ForwardZone(id, "Corp", false, ["10.0.0.4"], true, 5, meta);
    PlainZoneOk(z, "Corp", "10.0.0.4");
    assert Fqdn(z.name)[0] == 'C';
  }
}

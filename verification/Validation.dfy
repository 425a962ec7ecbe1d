/** Validation (internal/config/config.go): the name syntax, the declarative
    predicate that decides acceptance, and the defaults that acceptance fills in. */
module Validation {
  import opened Text
  import opened Decimal
  import opened Config

  // ----- name syntax

  predicate IsAlpha(c: char) {
    'a' <= c <= 'z' || 'A' <= c <= 'Z'
  }

  predicate IsAlnum(c: char) {
    IsAlpha(c) || IsDigit(c)
  }

  /** One label: at most 63 octets, as section 2.3.4 of RFC 1035 has it. */
  predicate IsLabel(s: string) {
    1 <= |s| <= 63 && IsAlnum(s[0]) && IsAlnum(s[|s| - 1])
    && forall c :: c in s ==> IsAlnum(c) || c == '-'
  }

  predicate AllLabels(ps: seq<string>) {
    forall i :: 0 <= i < |ps| ==> IsLabel(ps[i])
  }

  predicate IsTopLevel(s: string) {
    |s| >= 2 && forall c :: c in s ==> IsAlpha(c)
  }

  predicate MatchesDomain(s: string) {
    var ps := Split(TrimPrefix(s, "*."), '.');
    |ps| >= 2 && AllLabels(ps[..|ps| - 1]) && IsTopLevel(ps[|ps| - 1])
  }

  predicate MatchesLabel(s: string) {
    IsLabel(TrimPrefix(s, "*."))
  }

  predicate MatchesDnsName(s: string) {
    AllLabels(Split(TrimPrefix(s, "*."), '.'))
  }

  predicate MatchesHostname(s: string) {
    var ps := Split(s, '.');
    |ps| >= 2 && AllLabels(ps)
  }

  predicate IsOctet(s: string) {
    1 <= |s| <= 3 && forall c :: c in s ==> IsDigit(c)
  }

  predicate MatchesIPv4(s: string) {
    var ps := Split(s, '.');
    |ps| == 4 && forall i :: 0 <= i < |ps| ==> IsOctet(ps[i])
  }

  predicate IsHexOrColon(c: char) {
    IsDigit(c) || 'a' <= c <= 'f' || 'A' <= c <= 'F' || c == ':'
  }

  predicate MatchesIPv6(s: string) {
    s != "" && forall c :: c in s ==> IsHexOrColon(c)
  }

  predicate MatchesUpstream(s: string) {
    MatchesIPv4(s) || MatchesIPv6(s) || MatchesHostname(s)
  }

  // ----- acceptance

  function CleanName(name: string): string {
    TrimPrefix(name, "*.")
  }

  function WithPort(x: Default): Default {
    if x.port == 0 then x.(port := 53) else x
  }

  function WithPorts(xs: seq<Default>): (ys: seq<Default>)
    ensures |ys| == |xs| && forall i :: 0 <= i < |xs| ==> ys[i] == WithPort(xs[i])
  {
    seq(|xs|, i requires 0 <= i < |xs| => WithPort(xs[i]))
  }

  predicate AddressOk(u: Default) {
    u.meta.deleted || MatchesIPv4(u.address) || MatchesIPv6(u.address)
  }

  predicate PortOk(u: Default) {
    u.meta.deleted || 0 < WithPort(u).port <= 65535
  }

  predicate DefaultOk(u: Default) {
    AddressOk(u) && PortOk(u)
  }

  predicate Serves(u: Default) {
    !u.meta.deleted && u.enabled
  }

  predicate ZoneNameOk(z: Zone) {
    MatchesDomain(z.name) || MatchesLabel(z.name)
  }

  /** The wildcard flag as validation uses it: a single label never counts. */
  predicate ActsAsWildcard(z: Zone) {
    z.wildcard && '.' in CleanName(z.name)
  }

  predicate ZoneOk(z: Zone) {
    z.id != ""
    && ZoneNameOk(z)
    && (z.wildcard <==> HasPrefix(z.name, "*."))
    && z.upstreams != []
    && !(z.leastLatency && ActsAsWildcard(z))
    && forall j :: 0 <= j < |z.upstreams| ==> MatchesUpstream(z.upstreams[j])
  }

  function RecordKey(r: Record): string {
    ToLower(r.name) + "|" + ToUpper(r.rtype)
  }

  predicate RecordValueOk(r: Record) {
    var t := ToUpper(r.rtype);
    (t == "A" && MatchesIPv4(r.value))
    || (t == "AAAA" && MatchesIPv6(r.value))
    || (t == "CNAME" && MatchesHostname(r.value))
  }

  predicate RecordOk(r: Record) {
    r.id != "" && MatchesDnsName(r.name) && RecordValueOk(r)
  }

  /** No two live zones with one clean name. */
  ghost predicate ZonesDistinct(zs: seq<Zone>) {
    forall i, j :: 0 <= i < j < |zs| && !zs[i].meta.deleted && !zs[j].meta.deleted ==>
      CleanName(zs[i].name) != CleanName(zs[j].name)
  }

  /** No two live records with one (name, type) up to case. */
  ghost predicate RecordsDistinct(rs: seq<Record>) {
    forall i, j :: 0 <= i < j < |rs| && !rs[i].meta.deleted && !rs[j].meta.deleted ==>
      !(ToLower(rs[i].name) == ToLower(rs[j].name) && ToUpper(rs[i].rtype) == ToUpper(rs[j].rtype))
  }

  ghost predicate HasRoute(f: File) {
    f.zones != [] || exists i :: 0 <= i < |f.defaults| && Serves(f.defaults[i])
  }

  /** Exactly the files that validation accepts. */
  ghost predicate Accepts(f: File) {
    !f.nilDefaults
    && (forall i :: 0 <= i < |f.defaults| ==> DefaultOk(f.defaults[i]))
    && HasRoute(f)
    && (forall i :: 0 <= i < |f.zones| ==> ZoneOk(f.zones[i]))
    && ZonesDistinct(f.zones)
    && (forall i :: 0 <= i < |f.records| ==> RecordOk(f.records[i]))
    && RecordsDistinct(f.records)
  }

  /** What an accepted file becomes. */
  function Normalised(f: File): File {
    f.(version := if f.version == 0 then CURRENT_VERSION else f.version,
       defaults := WithPorts(f.defaults),
       settings := SettingsWithDefaults(f.settings),
       peers := PeersWithDefaults(f.peers))
  }

  /** The result of saving a draft: stamped, then accepted and normalised or refused. */
  ghost function Finish(draft: File, now: Time, actor: string): Option<File> {
    var d := StampFile(draft.(updated := now, updatedBy := actor, version := CURRENT_VERSION), now, actor);
    if Accepts(d) then Some(Normalised(d)) else None
  }

  lemma WithPortsFixed(xs: seq<Default>)
    ensures WithPorts(WithPorts(xs)) == WithPorts(xs)
  {
  }

  /** Validating an accepted file again accepts it and changes nothing. */
  lemma ValidationIsFixedPoint(f: File)
    requires Accepts(f)
    ensures Accepts(Normalised(f))
    ensures Normalised(Normalised(f)) == Normalised(f)
  {
    WithPortsFixed(f.defaults);
    var g := Normalised(f);
    assert forall i :: 0 <= i < |f.defaults| ==> g.defaults[i] == WithPort(f.defaults[i]);
    if f.zones == [] {
      var i :| 0 <= i < |f.defaults| && Serves(f.defaults[i]);
      assert Serves(g.defaults[i]);
    }
  }

  /** The key under which records are de-duplicated identifies name and type: no
      accepted name holds the separator. */
  lemma RecordKeyInjective(a: Record, b: Record)
    requires '|' !in ToLower(a.name) && '|' !in ToLower(b.name)
    ensures RecordKey(a) == RecordKey(b) <==>
            ToLower(a.name) == ToLower(b.name) && ToUpper(a.rtype) == ToUpper(b.rtype)
  {
    if RecordKey(a) == RecordKey(b) {
      var n, m := ToLower(a.name), ToLower(b.name);
      var s, t := RecordKey(a), RecordKey(b);
      assert s[|n|] == '|' && t[|m|] == '|';
      assert |n| == |m|;
      assert n == s[..|n|] && m == t[..|m|];
      assert ToUpper(a.rtype) == s[|n| + 1..] && ToUpper(b.rtype) == t[|m| + 1..];
    }
  }

  lemma LabelsChars(s: string, c: char)
    requires AllLabels(Split(s, '.')) && c in s
    ensures IsAlnum(c) || c == '-' || c == '.'
  {
    if c != '.' {
      SplitChars(s, '.', c);
    }
  }

  lemma DnsNameChars(s: string, c: char)
    requires MatchesDnsName(s) && c in s
    ensures IsAlnum(c) || c == '-' || c == '.' || c == '*'
  {
    if HasPrefix(s, "*.") {
      assert s == "*." + s[2..];
      if c in s[2..] { LabelsChars(s[2..], c); }
    } else {
      LabelsChars(s, c);
    }
  }

  lemma DnsNameNoBar(s: string)
    requires MatchesDnsName(s)
    ensures '|' !in ToLower(s)
  {
    forall i | 0 <= i < |s| ensures ToLower(s)[i] != '|' {
      DnsNameChars(s, s[i]);
    }
  }
}

/** What validation accepts, said as a grammar and field by field, without its predicates
    (internal/config/config.go). */
module Grammar {
  import opened Text
  import opened Config
  import opened Validation

  // ----- dotted names

  /** The pieces with dots between them. */
  function Dotted(ps: seq<string>): string {
    if ps == [] then "" else if |ps| == 1 then ps[0] else ps[0] + "." + Dotted(ps[1..])
  }

  ghost predicate DotFree(ps: seq<string>) {
    forall i :: 0 <= i < |ps| ==> '.' !in ps[i]
  }

  /** Splitting at dots is undone by joining with dots. */
  lemma {:induction false} SplitIsDotted(s: string)
    ensures Dotted(Split(s, '.')) == s && DotFree(Split(s, '.'))
  {
    if s != "" {
      SplitIsDotted(s[1..]);
      var rest := Split(s[1..], '.');
      if s[0] == '.' {
        assert Split(s, '.')[1..] == rest;
        assert s == "" + "." + s[1..];
      } else {
        HeadJoins(s[0], rest);
        assert s == [s[0]] + s[1..];
      }
    }
  }

  lemma HeadJoins(c: char, rest: seq<string>)
    requires rest != []
    ensures Dotted([[c] + rest[0]] + rest[1..]) == [c] + Dotted(rest)
  {
    var ps := [[c] + rest[0]] + rest[1..];
    assert ps[1..] == rest[1..];
    if |rest| > 1 {
      assert [c] + rest[0] + "." + Dotted(rest[1..]) == [c] + (rest[0] + "." + Dotted(rest[1..]));
    }
  }

  /** And the pieces are the only dot-free ones that join to the text. */
  lemma {:induction false} DottedSplits(ps: seq<string>)
    requires ps != [] && DotFree(ps)
    ensures Split(Dotted(ps), '.') == ps
  {
    if |ps| == 1 {
      SplitPiece(ps[0], "", '.');
    } else {
      DottedSplits(ps[1..]);
      SplitPiece(ps[0], Dotted(ps[1..]), '.');
      assert "." == ['.'];
      assert ps == [ps[0]] + ps[1..];
    }
  }

  // ----- shapes

  predicate Letter(c: char) {
    'a' <= c <= 'z' || 'A' <= c <= 'Z'
  }

  predicate Figure(c: char) {
    '0' <= c <= '9'
  }

  predicate LetterOrFigure(c: char) {
    Letter(c) || Figure(c)
  }

  /** One to 63 letters, digits and hyphens, no hyphen at either end. */
  predicate LabelShape(l: string) {
    1 <= |l| <= 63 && LetterOrFigure(l[0]) && LetterOrFigure(l[|l| - 1])
    && forall c :: c in l ==> LetterOrFigure(c) || c == '-'
  }

  predicate OctetShape(l: string) {
    1 <= |l| <= 3 && forall c :: c in l ==> Figure(c)
  }

  predicate TopShape(l: string) {
    |l| >= 2 && forall c :: c in l ==> Letter(c)
  }

  ghost predicate Labels(ps: seq<string>) {
    forall i :: 0 <= i < |ps| ==> LabelShape(ps[i])
  }

  lemma LabelIsShape(l: string)
    ensures IsLabel(l) <==> LabelShape(l)
    ensures LabelShape(l) ==> '.' !in l
  {
  }

  lemma OctetIsShape(l: string)
    ensures IsOctet(l) <==> OctetShape(l)
    ensures OctetShape(l) ==> '.' !in l && ':' !in l
  {
  }

  lemma TopIsShape(l: string)
    ensures IsTopLevel(l) <==> TopShape(l)
    ensures TopShape(l) ==> '.' !in l
  {
  }

  lemma LabelsAreShapes(ps: seq<string>)
    ensures AllLabels(ps) <==> Labels(ps)
    ensures Labels(ps) ==> DotFree(ps)
  {
    forall i | 0 <= i < |ps| ensures (IsLabel(ps[i]) <==> LabelShape(ps[i])) && (LabelShape(ps[i]) ==> '.' !in ps[i]) {
      LabelIsShape(ps[i]);
    }
  }

  // ----- texts

  ghost predicate Octets(ps: seq<string>) {
    |ps| == 4 && forall i :: 0 <= i < |ps| ==> OctetShape(ps[i])
  }

  /** Four runs of one to three digits between dots. */
  ghost predicate IPv4Text(s: string) {
    exists ps :: Octets(ps) && Dotted(ps) == s
  }

  /** Hexadecimal digits and colons, at least one. */
  ghost predicate IPv6Text(s: string) {
    |s| > 0
    && forall i :: 0 <= i < |s| ==> Figure(s[i]) || 'a' <= s[i] <= 'f' || 'A' <= s[i] <= 'F' || s[i] == ':'
  }

  /** At least `n` labels between dots. */
  ghost predicate LabelText(s: string, n: nat) {
    exists ps :: |ps| >= n && |ps| >= 1 && Labels(ps) && Dotted(ps) == s
  }

  ghost predicate DomainPieces(ps: seq<string>) {
    |ps| >= 2 && Labels(ps[..|ps| - 1]) && TopShape(ps[|ps| - 1])
  }

  /** At least one label and then a top-level one of two or more letters. */
  ghost predicate DomainText(s: string) {
    exists ps :: DomainPieces(ps) && Dotted(ps) == s
  }

  /** The text without a leading `*.`, if it has one. */
  function Bare(s: string): string {
    if |s| >= 2 && s[0] == '*' && s[1] == '.' then s[2..] else s
  }

  lemma BareIsTrimmed(s: string)
    ensures TrimPrefix(s, "*.") == Bare(s)
    ensures HasPrefix(s, "*.") <==> |s| >= 2 && s[0] == '*' && s[1] == '.'
  {
    if |s| >= 2 {
      assert s[..2] == [s[0], s[1]];
    }
  }

  lemma OctetsDotFree(ps: seq<string>)
    requires Octets(ps)
    ensures DotFree(ps)
  {
    forall i | 0 <= i < |ps| ensures '.' !in ps[i] {
      OctetIsShape(ps[i]);
    }
  }

  lemma IPv4Is(s: string)
    ensures MatchesIPv4(s) <==> IPv4Text(s)
  {
    var qs := Split(s, '.');
    SplitIsDotted(s);
    forall i | 0 <= i < |qs| ensures IsOctet(qs[i]) <==> OctetShape(qs[i]) {
      OctetIsShape(qs[i]);
    }
    if IPv4Text(s) {
      var ps :| Octets(ps) && Dotted(ps) == s;
      OctetsDotFree(ps);
      DottedSplits(ps);
    }
  }

  lemma IPv6Is(s: string)
    ensures MatchesIPv6(s) <==> IPv6Text(s)
  {
    if MatchesIPv6(s) {
      forall i | 0 <= i < |s| ensures IsHexOrColon(s[i]) {
      }
    }
  }

  lemma LabelsAre(s: string, n: nat)
    ensures |Split(s, '.')| >= n && AllLabels(Split(s, '.')) <==> LabelText(s, n)
  {
    SplitIsDotted(s);
    LabelsAreShapes(Split(s, '.'));
    if LabelText(s, n) {
      var ps :| |ps| >= n && |ps| >= 1 && Labels(ps) && Dotted(ps) == s;
      LabelsAreShapes(ps);
      DottedSplits(ps);
    }
  }

  lemma HostnameIs(s: string)
    ensures MatchesHostname(s) <==> LabelText(s, 2)
  {
    LabelsAre(s, 2);
  }

  lemma DnsNameIs(s: string)
    ensures MatchesDnsName(s) <==> LabelText(Bare(s), 1)
  {
    BareIsTrimmed(s);
    LabelsAre(Bare(s), 1);
  }

  lemma LabelIs(s: string)
    ensures MatchesLabel(s) <==> LabelShape(Bare(s))
  {
    BareIsTrimmed(s);
    LabelIsShape(Bare(s));
  }

  lemma DomainPiecesDotFree(ps: seq<string>)
    requires DomainPieces(ps)
    ensures DotFree(ps)
  {
    LabelsAreShapes(ps[..|ps| - 1]);
    TopIsShape(ps[|ps| - 1]);
    forall i | 0 <= i < |ps| ensures '.' !in ps[i] {
      if i < |ps| - 1 { assert ps[i] == ps[..|ps| - 1][i]; }
    }
  }

  lemma DomainIs(s: string)
    ensures MatchesDomain(s) <==> DomainText(Bare(s))
  {
    BareIsTrimmed(s);
    var qs := Split(Bare(s), '.');
    SplitIsDotted(Bare(s));
    LabelsAreShapes(qs[..|qs| - 1]);
    TopIsShape(qs[|qs| - 1]);
    if DomainText(Bare(s)) {
      var ps :| DomainPieces(ps) && Dotted(ps) == Bare(s);
      DomainPiecesDotFree(ps);
      DottedSplits(ps);
    }
  }

  // ----- items

  ghost predicate AddressText(s: string) {
    IPv4Text(s) || IPv6Text(s)
  }

  ghost predicate UpstreamText(s: string) {
    AddressText(s) || LabelText(s, 2)
  }

  /** A dead default may be anything; a live one has an address and a port in 1..65535, a
      missing port standing for the usual one. */
  ghost predicate FairDefault(u: Default) {
    u.meta.deleted || (AddressText(u.address) && 0 <= u.port <= 65535)
  }

  /** A zone, live or dead, has an ID, a name, the flag that goes with its `*.`, and
      upstreams; least latency is not for wildcards over several labels. */
  ghost predicate FairZone(z: Zone) {
    z.id != "" && (DomainText(Bare(z.name)) || LabelShape(Bare(z.name)))
    && (z.wildcard <==> Bare(z.name) != z.name)
    && |z.upstreams| > 0 && (forall j :: 0 <= j < |z.upstreams| ==> UpstreamText(z.upstreams[j]))
    && (z.leastLatency && z.wildcard ==> '.' !in Bare(z.name))
  }

  /** The type decides the shape of a record's value, whatever its case. */
  ghost predicate FairValue(t: string, value: string) {
    (t == "A" ==> IPv4Text(value))
    && (t == "AAAA" ==> IPv6Text(value))
    && (t == "CNAME" ==> LabelText(value, 2))
    && (t == "A" || t == "AAAA" || t == "CNAME")
  }

  ghost predicate FairRecord(r: Record) {
    r.id != "" && LabelText(Bare(r.name), 1) && FairValue(ToUpper(r.rtype), r.value)
  }

  lemma UpstreamIs(s: string)
    ensures MatchesUpstream(s) <==> UpstreamText(s)
  {
    IPv4Is(s);
    IPv6Is(s);
    HostnameIs(s);
  }

  lemma DefaultIs(u: Default)
    ensures DefaultOk(u) <==> FairDefault(u)
  {
    IPv4Is(u.address);
    IPv6Is(u.address);
  }

  lemma BareDiffers(s: string)
    ensures HasPrefix(s, "*.") <==> Bare(s) != s
  {
    BareIsTrimmed(s);
  }

  lemma ZoneIs(z: Zone)
    ensures ZoneOk(z) <==> FairZone(z)
  {
    DomainIs(z.name);
    LabelIs(z.name);
    BareIsTrimmed(z.name);
    BareDiffers(z.name);
    forall j | 0 <= j < |z.upstreams| ensures MatchesUpstream(z.upstreams[j]) <==> UpstreamText(z.upstreams[j]) {
      UpstreamIs(z.upstreams[j]);
    }
  }

  lemma TypesDiffer()
    ensures "A" != "AAAA" && "A" != "CNAME" && "AAAA" != "CNAME"
  {
    assert |"A"| == 1 && |"AAAA"| == 4 && |"CNAME"| == 5;
  }

  lemma RecordIs(r: Record)
    ensures RecordOk(r) <==> FairRecord(r)
  {
    DnsNameIs(r.name);
    IPv4Is(r.value);
    IPv6Is(r.value);
    HostnameIs(r.value);
    TypesDiffer();
  }

  // ----- files

  /** Some live default is switched on. */
  ghost predicate SomeEnabled(us: seq<Default>) {
    exists i :: 0 <= i < |us| && us[i].enabled && !us[i].meta.deleted
  }

  /** No two live zones share a name up to `*.`. */
  ghost predicate NamesApart(zs: seq<Zone>) {
    forall i, j :: 0 <= i < j < |zs| && !zs[i].meta.deleted && !zs[j].meta.deleted ==>
      Bare(zs[i].name) != Bare(zs[j].name)
  }

  /** No two live records share a name and a type up to case. */
  ghost predicate RecordsApart(rs: seq<Record>) {
    forall i, j :: 0 <= i < j < |rs| && !rs[i].meta.deleted && !rs[j].meta.deleted ==>
      ToLower(rs[i].name) != ToLower(rs[j].name) || ToUpper(rs[i].rtype) != ToUpper(rs[j].rtype)
  }

  ghost predicate FairDefaults(us: seq<Default>) {
    forall i :: 0 <= i < |us| ==> FairDefault(us[i])
  }

  ghost predicate FairZones(zs: seq<Zone>) {
    forall i :: 0 <= i < |zs| ==> FairZone(zs[i])
  }

  ghost predicate FairRecords(rs: seq<Record>) {
    forall i :: 0 <= i < |rs| ==> FairRecord(rs[i])
  }

  lemma ItemsAre(f: File)
    ensures (forall i :: 0 <= i < |f.defaults| ==> DefaultOk(f.defaults[i])) <==> FairDefaults(f.defaults)
    ensures (forall i :: 0 <= i < |f.zones| ==> ZoneOk(f.zones[i])) <==> FairZones(f.zones)
    ensures (forall i :: 0 <= i < |f.records| ==> RecordOk(f.records[i])) <==> FairRecords(f.records)
  {
    forall i | 0 <= i < |f.defaults| ensures DefaultOk(f.defaults[i]) <==> FairDefault(f.defaults[i]) {
      DefaultIs(f.defaults[i]);
    }
    forall i | 0 <= i < |f.zones| ensures ZoneOk(f.zones[i]) <==> FairZone(f.zones[i]) {
      ZoneIs(f.zones[i]);
    }
    forall i | 0 <= i < |f.records| ensures RecordOk(f.records[i]) <==> FairRecord(f.records[i]) {
      RecordIs(f.records[i]);
    }
  }

  lemma NamesAre(zs: seq<Zone>)
    ensures ZonesDistinct(zs) <==> NamesApart(zs)
  {
    forall i | 0 <= i < |zs| ensures CleanName(zs[i].name) == Bare(zs[i].name) {
      BareIsTrimmed(zs[i].name);
    }
  }

  /** Validation accepts exactly the files whose list of defaults is there, whose items all
      have the shapes above, whose live names are pairwise different, and which have a
      zone or a live default that is switched on. */
  lemma AcceptsIff(f: File)
    ensures Accepts(f) <==>
            && !f.nilDefaults && FairDefaults(f.defaults) && FairZones(f.zones) && FairRecords(f.records)
            && NamesApart(f.zones) && RecordsApart(f.records)
            && (f.zones != [] || SomeEnabled(f.defaults))
  {
    ItemsAre(f);
    NamesAre(f.zones);
    assert HasRoute(f) <==> f.zones != [] || SomeEnabled(f.defaults);
  }

  // ----- the type of a record and its value

  lemma {:induction false} DottedChars(ps: seq<string>, c: char)
    requires c in Dotted(ps) && c != '.'
    ensures exists i :: 0 <= i < |ps| && c in ps[i]
  {
    if |ps| > 1 && c !in ps[0] {
      assert c in Dotted(ps[1..]);
      DottedChars(ps[1..], c);
      var i :| 0 <= i < |ps[1..]| && c in ps[1..][i];
      assert c in ps[i + 1];
    }
  }

  lemma IPv4HasNoColon(s: string)
    requires IPv4Text(s)
    ensures ':' !in s
  {
    var ps :| Octets(ps) && Dotted(ps) == s;
    if ':' in s {
      DottedChars(ps, ':');
    }
  }

  /** An accepted record has one of three types, in any case of letters, and a value of the
      shape its type asks for: no colon under A, nothing but hexadecimal digits and
      colons under AAAA, two or more labels under CNAME. */
  lemma AcceptedRecordValue(f: File, r: Record)
    requires Accepts(f) && r in f.records
    ensures var t := ToUpper(r.rtype);
            && (t == "A" || t == "AAAA" || t == "CNAME")
            && (t == "A" ==> IPv4Text(r.value) && ':' !in r.value)
            && (t == "AAAA" ==> IPv6Text(r.value) && '.' !in r.value)
            && (t == "CNAME" ==> LabelText(r.value, 2))
  {
    AcceptsIff(f);
    var i :| 0 <= i < |f.records| && f.records[i] == r;
    assert FairRecord(f.records[i]);
    if ToUpper(r.rtype) == "A" { IPv4HasNoColon(r.value); }
  }

  /** Each type has values. */
  lemma EachTypeHasValues()
    ensures FairValue("A", "10.0.0.4") && FairValue("AAAA", "::1") && FairValue("CNAME", "a.b")
  {
    TypesDiffer();
    SampleIPv4();
    SampleHost();
  }

  lemma SampleIPv4()
    ensures IPv4Text("10.0.0.4")
  {
    var a, b, c, d := "10", "0", "0", "4";
    var ps := [a, b, c, d];
    assert ps[1..] == [b, c, d] && [b, c, d][1..] == [c, d] && [c, d][1..] == [d];
    assert Dotted([c, d]) == c + "." + d;
    assert Dotted([b, c, d]) == b + "." + (c + "." + d);
    assert Dotted(ps) == a + "." + (b + "." + (c + "." + d));
    assert "10" + "." + ("0" + "." + ("0" + "." + "4")) == "10.0.0.4";
    assert Octets(ps);
  }

  lemma SampleHost()
    ensures LabelText("a.b", 2)
  {
    var ps := ["a", "b"];
    assert ps[1..] == ["b"];
    assert Dotted(ps) == "a" + "." + "b" == "a.b";
    assert Labels(ps);
  }
}

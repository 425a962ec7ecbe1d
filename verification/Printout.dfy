/** What the generated text says, in terms of the items themselves: which are in it, in
    which order, and what the server section is set to
    (internal/unbound/generate.go). */
module Printout {
  import opened Text
  import opened Decimal
  import opened Config
  import opened Validation
  import opened HostPort
  import opened Unbound
  import opened Readback
  import opened Grammar
  import opened Order

  // ----- which items

  predicate Forwards(u: Default) {
    u.enabled && !u.meta.deleted
  }

  predicate LiveItem(x: Item) {
    !x.meta.deleted
  }

  lemma EnabledSnoc(us: seq<Default>, u: Default)
    ensures Enabled(us + [u]) == if Forwards(u) then Enabled(us) + [u] else Enabled(us)
  {
    assert (us + [u])[..|us|] == us;
  }

  /** The defaults that are forwarded to: in order, exactly the live ones switched on. */
  lemma {:induction false} EnabledPicks(us: seq<Default>)
    ensures Picked(us, u => Forwards(u), Enabled(us))
  {
    if us == [] {
      PickedNone((u: Default) => Forwards(u));
    } else {
      var before, u := us[..|us| - 1], us[|us| - 1];
      assert before + [u] == us;
      EnabledPicks(before);
      PickedSnoc(before, u, x => Forwards(x), Enabled(before));
      EnabledSnoc(before, u);
    }
  }

  /** The address with its port, unless that is the usual one. */
  ghost predicate Targets(addrs: seq<Upstream>, us: seq<Default>) {
    |addrs| == |us|
    && forall i :: 0 <= i < |us| ==>
         addrs[i].host == us[i].address
         && (us[i].port == 53 ==> addrs[i].port == None) && (us[i].port != 53 ==> addrs[i].port == Some(us[i].port))
  }

  lemma {:induction false} ExpectedTargets(us: seq<Default>)
    ensures Targets(ExpectedDefaults(us), us)
  {
    if us != [] {
      ExpectedTargets(us[..|us| - 1]);
    }
  }

  ghost predicate AsGiven(addrs: seq<Upstream>, ups: seq<string>) {
    |addrs| == |ups| && forall j :: 0 <= j < |ups| ==> addrs[j] == Upstream(ups[j], None)
  }

  lemma {:induction false} WrittenAsGiven(ups: seq<string>)
    ensures AsGiven(AsWritten(ups), ups)
  {
    if ups != [] {
      WrittenAsGiven(ups[..|ups| - 1]);
    }
  }

  /** The block of a zone: its name without `*.`, and the proxy or its upstreams. */
  ghost predicate BlockOf(b: Block, z: Zone, proxy: string) {
    b.name == Bare(z.name) && b.plain
    && (z.leastLatency ==> b.addrs == [Upstream(proxy, None)])
    && (!z.leastLatency ==> AsGiven(b.addrs, z.upstreams))
  }

  ghost predicate BlocksOf(bs: seq<Block>, zs: seq<Zone>, proxy: string) {
    |bs| == |zs| && forall i :: 0 <= i < |zs| ==> BlockOf(bs[i], zs[i], proxy)
  }

  lemma ZoneBlockOf(z: Zone, proxy: string)
    ensures BlockOf(ZoneBlock(z, proxy), z, proxy)
  {
    BareIsTrimmed(z.name);
    WrittenAsGiven(z.upstreams);
  }

  lemma {:induction false} ZonesPick(zs: seq<Zone>, proxy: string) returns (ys: seq<Zone>)
    ensures Picked(zs, z => LiveItem(z), ys) && BlocksOf(ZoneBlocks(zs, proxy), ys, proxy)
  {
    ys := [];
    if zs == [] {
      PickedNone((z: Zone) => LiveItem(z));
    } else {
      var before, z := zs[..|zs| - 1], zs[|zs| - 1];
      assert before + [z] == zs;
      var live := ZonesPick(before, proxy);
      PickedSnoc(before, z, x => LiveItem(x), live);
      ZoneBlockOf(z, proxy);
      ys := if LiveItem(z) then live + [z] else live;
    }
  }

  /** The data of a record reads as this: absolute name, time to live, type in upper case,
      and the value, absolute too for an alias written in capitals. */
  ghost predicate ReadsAs(data: string, r: Record) {
    var rr := ParseData(data);
    && rr.Some? && rr.value.ttl == Some(r.ttl) && rr.value.rtype == ToUpper(r.rtype)
    && (rr.value.name == r.name || rr.value.name == r.name + ".")
    && HasSuffix(rr.value.name, ".")
    && (r.rtype != "CNAME" ==> rr.value.value == r.value)
    && (r.rtype == "CNAME" ==>
          HasSuffix(rr.value.value, ".") && (rr.value.value == r.value || rr.value.value == r.value + "."))
  }

  ghost predicate DataOf(data: seq<string>, rs: seq<Record>) {
    |data| == |rs| && forall i :: 0 <= i < |rs| ==> ReadsAs(data[i], rs[i])
  }

  lemma PayloadReads(r: Record)
    requires RecordOk(r)
    ensures RecordData(r).Some? && ReadsAs(RecordData(r).value, r)
  {
    RecordDataParses(r);
    var n, v := r.name + ".", r.value + ".";
    assert n[|n| - 1..] == "." && v[|v| - 1..] == ".";
  }

  lemma DataSnoc(rs: seq<Record>, r: Record, live: seq<Record>)
    requires RecordOk(r) && DataOf(ExpectedData(rs), live)
    ensures DataOf(ExpectedData(rs + [r]), if LiveItem(r) then live + [r] else live)
  {
    assert (rs + [r])[..|rs|] == rs;
    PayloadReads(r);
  }

  lemma {:induction false} RecordsPick(rs: seq<Record>) returns (ys: seq<Record>)
    requires forall i :: 0 <= i < |rs| ==> RecordOk(rs[i])
    ensures Picked(rs, r => LiveItem(r), ys) && DataOf(ExpectedData(rs), ys)
  {
    ys := [];
    if rs == [] {
      PickedNone((r: Record) => LiveItem(r));
    } else {
      var before, r := rs[..|rs| - 1], rs[|rs| - 1];
      assert before + [r] == rs;
      var live := RecordsPick(before);
      PickedSnoc(before, r, x => LiveItem(x), live);
      DataSnoc(before, r, live);
      ys := if LiveItem(r) then live + [r] else live;
    }
  }

  /** The blocks: first the one for everything else, if there is anything in it, and then
      the zones'. */
  ghost predicate Forwarding(blocks: seq<Block>, ds: seq<Default>, zs: seq<Zone>, proxy: string) {
    if ds == [] then BlocksOf(blocks, zs, proxy)
    else
      |blocks| > 0 && blocks[0].name == "." && blocks[0].plain && Targets(blocks[0].addrs, ds)
      && BlocksOf(blocks[1..], zs, proxy)
  }

  /** Reading the generated text gives, for every accepted file with a one-line listen
      address and colon-free upstreams: in order, the live records, all before any
      block; the live defaults that are switched on, in a block of their own that is
      there exactly when there are any; and the live zones, each with its upstreams or
      the proxy. */
  lemma GeneratedSays(f: File, host: string, n: int, def: int)
    returns (rs: seq<Record>, ds: seq<Default>, zs: seq<Zone>)
    requires Accepts(f) && OneLine(f.settings.dnsListen) && ColonFree(f) && ProxyAddress(host, n)
    ensures Picked(f.records, r => LiveItem(r), rs)
    ensures Picked(f.defaults, u => Forwards(u), ds)
    ensures Picked(f.zones, z => LiveItem(z), zs)
    ensures var c := ReadConf(Unlines(ConfLines(f, host + ":" + Digits(n), def)));
            && c.dataFirst && DataOf(c.data, rs)
            && Forwarding(c.blocks, ds, zs, host + "@" + Digits(n))
  {
    var proxy := host + "@" + Digits(n);
    GeneratedReadsBack(f, host, n, def);
    rs := RecordsPick(f.records);
    ds := Enabled(f.defaults);
    EnabledPicks(f.defaults);
    zs := ZonesPick(f.zones, proxy);
    BlocksForward(f.defaults, ZoneBlocks(f.zones, proxy), zs, proxy);
  }

  lemma BlocksForward(us: seq<Default>, bs: seq<Block>, zs: seq<Zone>, proxy: string)
    requires BlocksOf(bs, zs, proxy)
    ensures Forwarding(DefaultBlocks(us) + bs, Enabled(us), zs, proxy)
  {
    ExpectedTargets(Enabled(us));
    if Enabled(us) == [] {
      assert DefaultBlocks(us) + bs == bs;
    } else {
      assert (DefaultBlocks(us) + bs)[1..] == bs;
    }
  }

  // ----- the server section

  /** What a line sets, read without reference to the writer. */
  function SettingOf(l: string): Option<Setting> {
    var i := FirstIndexOf(l, ':');
    if i >= 1 && l[0] == '\t' && i + 2 <= |l| then Some(Setting(l[1..i], l[i + 2..])) else None
  }

  lemma {:induction false} FirstColon(a: string, b: string)
    requires ':' !in a
    ensures FirstIndexOf(a + ":" + b, ':') == |a|
  {
    var s := a + ":" + b;
    if a != "" {
      assert s[0] == a[0] && s[1..] == a[1..] + ":" + b;
      FirstColon(a[1..], b);
    }
  }

  lemma SettingReads(o: Setting)
    requires ':' !in o.key
    ensures SettingOf(SettingLine(o)) == Some(o)
  {
    var a, b := "\t" + o.key, " " + o.value;
    var l := SettingLine(o);
    assert l == a + ":" + b;
    FirstColon(a, b);
    assert l[1..|a|] == o.key && l[|a| + 2..] == o.value;
  }

  /** The value that counts for a key: the last one given. */
  function LastValue(os: seq<Setting>, key: string): Option<string> {
    if os == [] then None
    else if os[|os| - 1].key == key then Some(os[|os| - 1].value)
    else LastValue(os[..|os| - 1], key)
  }

  lemma {:induction false} LastValueConcat(a: seq<Setting>, b: seq<Setting>, key: string)
    ensures LastValue(a + b, key) == if LastValue(b, key).Some? then LastValue(b, key) else LastValue(a, key)
  {
    if b == [] {
      assert a + b == a;
    } else {
      assert (a + b)[..|a + b| - 1] == a + b[..|b| - 1];
      LastValueConcat(a, b[..|b| - 1], key);
    }
  }

  ghost predicate Lacks(os: seq<Setting>, key: string) {
    forall i :: 0 <= i < |os| ==> os[i].key != key
  }

  lemma {:induction false} LacksNone(os: seq<Setting>, key: string)
    requires Lacks(os, key)
    ensures LastValue(os, key).None?
  {
    if os != [] { LacksNone(os[..|os| - 1], key); }
  }

  lemma OneValue(a: seq<Setting>, o: Setting, b: seq<Setting>)
    requires Lacks(b, o.key)
    ensures LastValue(a + [o] + b, o.key) == Some(o.value)
  {
    LastValueConcat(a + [o], b, o.key);
    LacksNone(b, o.key);
    assert (a + [o])[|a + [o]| - 1] == o;
  }

  /** What comes after the settings that depend on the file. */
  function Rest(): seq<Setting> {
    ServerProcess() + ServerThreads() + ServerAccess() + ServerLimits() + ServerPrivate() + ServerEnd()
  }

  lemma ProcessLacks(key: string)
    requires |key| == 4 || (key != "" && key[0] in {'i', 'm', 'r', 'v', 'c'})
    ensures Lacks(ServerProcess(), key) && Lacks(ServerThreads(), key)
  {
  }

  lemma AccessLacks(key: string)
    requires |key| == 4 || (key != "" && key[0] in {'i', 'm', 'r', 'v', 'c'})
    ensures Lacks(ServerAccess(), key) && Lacks(ServerLimits(), key)
    ensures Lacks(ServerPrivate(), key) && Lacks(ServerEnd(), key)
  {
  }

  lemma RestLacks(key: string)
    requires |key| == 4 || (key != "" && key[0] in {'i', 'm', 'r', 'v', 'c'})
    ensures Lacks(Rest(), key)
  {
    ProcessLacks(key);
    AccessLacks(key);
  }

  lemma ProtocolsLack(key: string)
    requires key != "" && key[0] != 'd'
    ensures Lacks(ServerProtocols(), key)
  {
  }

  lemma CacheLacks(s: Settings, key: string)
    requires key != "" && key[0] in {'i', 'p', 'v'}
    ensures Lacks(ServerCache(s), key)
  {
  }

  lemma ModulesLack(s: Settings, key: string)
    requires key != "" && (key[0] in {'i', 'p', 'v', 'c', 'r'} || |key| == 14)
    ensures Lacks(ServerModules(s), key)
  {
  }

  lemma VerbosityLacks(s: Settings, key: string)
    requires key != "" && key[0] != 'v'
    ensures Lacks(ServerVerbosity(s), key)
  {
  }

  lemma LacksConcat(a: seq<Setting>, b: seq<Setting>, key: string)
    requires Lacks(a, key) && Lacks(b, key)
    ensures Lacks(a + b, key)
  {
  }

  function AfterCache(s: Settings): seq<Setting> {
    ServerModules(s) + ServerVerbosity(s) + Rest()
  }

  function AfterListen(s: Settings): seq<Setting> {
    ServerProtocols() + ServerCache(s) + AfterCache(s)
  }

  lemma Regroup<T>(a: seq<T>, b: seq<T>, c: seq<T>)
    ensures a + b + c == a + (b + c)
  {
  }

  lemma Grouped(s: Settings)
    ensures ServerSettings(s) == ServerIntro() + ServerListen(s) + ServerProtocols() + ServerCache(s) + AfterCache(s)
    ensures ServerSettings(s) == ServerIntro() + ServerListen(s) + AfterListen(s)
  {
    var a, b := ServerIntro() + ServerListen(s), ServerProtocols();
    var h, m := a + b + ServerCache(s), ServerModules(s) + ServerVerbosity(s);
    var p, q, u, v, w, x :=
      ServerProcess(), ServerThreads(), ServerAccess(), ServerLimits(), ServerPrivate(), ServerEnd();
    Regroup(h, ServerModules(s), ServerVerbosity(s));
    SixTogether(h + m, p, q, u, v, w, x);
    Regroup(h, m, Rest());
    Regroup(a, b, ServerCache(s));
    Regroup(a, b + ServerCache(s), AfterCache(s));
  }

  lemma SixTogether<T>(a: seq<T>, p: seq<T>, q: seq<T>, u: seq<T>, v: seq<T>, w: seq<T>, x: seq<T>)
    ensures a + p + q + u + v + w + x == a + (p + q + u + v + w + x)
  {
    Regroup(a, p, q);
    Regroup(a, p + q, u);
    Regroup(a, p + q + u, v);
    Regroup(a, p + q + u + v, w);
    Regroup(a, p + q + u + v + w, x);
  }

  lemma AfterCacheLacks(s: Settings, key: string)
    requires key != "" && (key[0] in {'i', 'c', 'r'} || |key| == 14 || key == "port")
    requires |key| == 4 || key[0] in {'i', 'm', 'r', 'c'}
    ensures Lacks(AfterCache(s), key)
  {
    ModulesLack(s, key);
    VerbosityLacks(s, key);
    RestLacks(key);
    LacksConcat(ServerModules(s), ServerVerbosity(s), key);
    LacksConcat(ServerModules(s) + ServerVerbosity(s), Rest(), key);
  }

  lemma TwoValues(a: seq<Setting>, x: Setting, y: Setting, b: seq<Setting>, all: seq<Setting>)
    requires all == a + [x, y] + b && x.key != y.key && Lacks(b, x.key) && Lacks(b, y.key)
    ensures LastValue(all, x.key) == Some(x.value) && LastValue(all, y.key) == Some(y.value)
  {
    assert all == a + [x] + ([y] + b);
    OneValue(a, x, [y] + b);
    assert all == a + [x] + [y] + b;
    OneValue(a + [x], y, b);
  }

  /** Where the server listens is where the settings say. */
  lemma ListenSays(s: Settings)
    ensures var at := SplitHostPort(s.dnsListen, 53);
            && LastValue(ServerSettings(s), "interface") == Some(at.0)
            && LastValue(ServerSettings(s), "port") == Some(Dec(at.1))
  {
    var at := SplitHostPort(s.dnsListen, 53);
    Grouped(s);
    ListenLacks(s, "interface");
    ListenLacks(s, "port");
    assert |"interface"| == 9 && |"port"| == 4;
    TwoValues(ServerIntro(), Setting("interface", at.0), Setting("port", Dec(at.1)), AfterListen(s),
              ServerSettings(s));
  }

  lemma ListenLacks(s: Settings, key: string)
    requires key == "interface" || key == "port"
    ensures Lacks(AfterListen(s), key)
  {
    assert "interface"[0] == 'i' && "port"[0] == 'p' && |"port"| == 4;
    ProtocolsLack(key);
    CacheLacks(s, key);
    AfterCacheLacks(s, key);
    LacksConcat(ServerProtocols(), ServerCache(s), key);
    LacksConcat(ServerProtocols() + ServerCache(s), AfterCache(s), key);
  }

  /** Both caches have the configured size, and times to live are kept within a minute and
      a day. */
  lemma CacheSays(s: Settings)
    ensures LastValue(ServerSettings(s), "msg-cache-size") == Some(Dec(s.cacheSize))
    ensures LastValue(ServerSettings(s), "rrset-cache-size") == Some(Dec(s.cacheSize))
    ensures LastValue(ServerSettings(s), "cache-min-ttl") == Some("60")
    ensures LastValue(ServerSettings(s), "cache-max-ttl") == Some("86400")
  {
    var before, after := ServerIntro() + ServerListen(s) + ServerProtocols(), AfterCache(s);
    Grouped(s);
    CacheKeysLacked(s);
    FourValues(before, Setting("cache-min-ttl", "60"), Setting("cache-max-ttl", "86400"),
               Setting("msg-cache-size", Dec(s.cacheSize)), Setting("rrset-cache-size", Dec(s.cacheSize)), after,
               ServerSettings(s));
  }

  lemma FourValues(
      a: seq<Setting>, lo: Setting, hi: Setting, m: Setting, r: Setting, b: seq<Setting>, all: seq<Setting>)
    requires all == a + [lo, hi, m, r] + b
    requires lo.key == "cache-min-ttl" && hi.key == "cache-max-ttl"
    requires m.key == "msg-cache-size" && r.key == "rrset-cache-size"
    requires Lacks(b, lo.key) && Lacks(b, hi.key) && Lacks(b, m.key) && Lacks(b, r.key)
    ensures LastValue(all, lo.key) == Some(lo.value) && LastValue(all, hi.key) == Some(hi.value)
    ensures LastValue(all, m.key) == Some(m.value) && LastValue(all, r.key) == Some(r.value)
  {
    CacheKeysDiffer(lo.key, hi.key, m.key, r.key);
    assert all == a + [lo, hi] + ([m, r] + b);
    TwoValues(a, lo, hi, [m, r] + b, all);
    assert all == (a + [lo, hi]) + [m, r] + b;
    TwoValues(a + [lo, hi], m, r, b, all);
  }

  lemma CacheKeysDiffer(lo: string, hi: string, m: string, r: string)
    requires lo == "cache-min-ttl" && hi == "cache-max-ttl" && m == "msg-cache-size" && r == "rrset-cache-size"
    ensures lo != hi && lo != m && lo != r && hi != m && hi != r && m != r
  {
    assert lo[7] == 'i' && hi[7] == 'a';
    assert |lo| == 13 && |hi| == 13 && |m| == 14 && |r| == 16;
  }

  lemma CacheKeysLacked(s: Settings)
    ensures Lacks(AfterCache(s), "cache-min-ttl") && Lacks(AfterCache(s), "cache-max-ttl")
    ensures Lacks(AfterCache(s), "msg-cache-size") && Lacks(AfterCache(s), "rrset-cache-size")
  {
    assert "cache-min-ttl"[0] == 'c' && "cache-max-ttl"[0] == 'c';
    assert "msg-cache-size"[0] == 'm' && |"msg-cache-size"| == 14 && "rrset-cache-size"[0] == 'r';
    AfterCacheLacks(s, "cache-min-ttl");
    AfterCacheLacks(s, "cache-max-ttl");
    AfterCacheLacks(s, "msg-cache-size");
    AfterCacheLacks(s, "rrset-cache-size");
  }

  lemma TailGrouped(s: Settings)
    ensures exists a :: ServerSettings(s) == a + ServerModules(s) + (ServerVerbosity(s) + Rest())
  {
    Grouped(s);
    var a := ServerIntro() + ServerListen(s) + ServerProtocols() + ServerCache(s);
    assert a + (ServerModules(s) + ServerVerbosity(s) + Rest()) == a + ServerModules(s) + (ServerVerbosity(s) + Rest());
  }

  /** Answers are validated exactly when the settings ask for it. */
  lemma DnssecSays(s: Settings)
    ensures LastValue(ServerSettings(s), "module-config")
         == Some(if s.dnssec then "\"validator iterator\"" else "\"iterator\"")
  {
    var key := "module-config";
    assert key[0] == 'm';
    TailGrouped(s);
    var a :| ServerSettings(s) == a + ServerModules(s) + (ServerVerbosity(s) + Rest());
    RestLacks(key);
    VerbosityLacks(s, key);
    LacksConcat(ServerVerbosity(s), Rest(), key);
    LacksNone(ServerVerbosity(s) + Rest(), key);
    LastValueConcat(a + ServerModules(s), ServerVerbosity(s) + Rest(), key);
    LastValueConcat(a, ServerModules(s), key);
    ModulesSay(s);
  }

  lemma ModulesSay(s: Settings)
    ensures LastValue(ServerModules(s), "module-config")
         == Some(if s.dnssec then "\"validator iterator\"" else "\"iterator\"")
  {
    var os := ServerModules(s);
    if s.dnssec {
      assert |"trust-anchor-signaling"| != |"module-config"|;
      assert os[..1][0] == os[0];
    }
  }

  lemma ThreeParts(a: seq<Setting>, b: seq<Setting>, c: seq<Setting>, key: string)
    ensures LastValue(a + b + c, key)
         == if LastValue(c, key).Some? then LastValue(c, key)
            else if LastValue(b, key).Some? then LastValue(b, key) else LastValue(a, key)
  {
    LastValueConcat(a + b, c, key);
    LastValueConcat(a, b, key);
  }

  /** Queries are logged exactly when the settings ask for it. */
  lemma LoggingSays(s: Settings)
    ensures LastValue(ServerSettings(s), "verbosity") == Some(if s.logQueries then "2" else "1")
  {
    Grouped(s);
    VerbosityTail(s);
    ListenNotVerbose(s);
    ThreeParts(ServerIntro(), ServerListen(s), AfterListen(s), "verbosity");
  }

  lemma ListenNotVerbose(s: Settings)
    ensures LastValue(ServerListen(s), "verbosity") == None && LastValue(ServerIntro(), "verbosity") == Some("1")
  {
    assert "interface"[0] == 'i' && "verbosity"[0] == 'v' && |"port"| == 4;
    assert Lacks(ServerListen(s), "verbosity");
    LacksNone(ServerListen(s), "verbosity");
    OneValue([], ServerIntro()[0], [ServerIntro()[1]]);
    assert [] + [ServerIntro()[0]] + [ServerIntro()[1]] == ServerIntro();
  }

  lemma VerbosityTail(s: Settings)
    ensures LastValue(AfterListen(s), "verbosity") == if s.logQueries then Some("2") else None
  {
    var key := "verbosity";
    assert key[0] == 'v';
    var a, b := ServerProtocols() + ServerCache(s) + ServerModules(s), ServerVerbosity(s);
    assert AfterListen(s) == a + b + Rest();
    ProtocolsLack(key);
    CacheLacks(s, key);
    ModulesLack(s, key);
    RestLacks(key);
    LacksConcat(ServerProtocols(), ServerCache(s), key);
    LacksConcat(ServerProtocols() + ServerCache(s), ServerModules(s), key);
    LacksNone(a, key);
    LacksNone(Rest(), key);
    LastValueConcat(a + b, Rest(), key);
    LastValueConcat(a, b, key);
  }

  lemma LineAt(head: seq<string>, mid: seq<string>, a: seq<string>, b: seq<string>, c: seq<string>,
               d: seq<string>, e: seq<string>, i: nat)
    requires i < |mid|
    ensures |head| + i < |head + mid + a + b + c + d + e|
    ensures (head + mid + a + b + c + d + e)[|head| + i] == mid[i]
  {
  }

  /** The server section of the text, line by line, is those settings. */
  lemma ServerSectionReads(f: File, listen: string, def: int, i: nat)
    requires OneLine(f.settings.dnsListen) && i < |ServerSettings(f.settings)|
    ensures i + 2 < |ConfLines(f, listen, def)|
    ensures SettingOf(ConfLines(f, listen, def)[i + 2]) == Some(ServerSettings(f.settings)[i])
  {
    var os := ServerSettings(f.settings);
    ServerTame(f.settings);
    assert Tame(os[i]);
    SettingReads(os[i]);
    LineAt([BANNER, "server:"], Rendered(os), [""], RecordLines(f.records), DefaultLines(f.defaults),
           ZonesLines(f.zones, ProxyTarget(listen, def)), TRAILER, i);
  }

  /** The server takes queries from everywhere, over both protocols and both families, and
      may forward to the loopback address where the proxy listens. */
  lemma ServerAllows(s: Settings)
    ensures Setting("access-control", "0.0.0.0/0 allow") in ServerSettings(s)
    ensures Setting("access-control", "::/0 allow") in ServerSettings(s)
    ensures Setting("do-not-query-localhost", "no") in ServerSettings(s)
  {
    var os := ServerSettings(s);
    var n := |os|;
    assert os[n - 1] == ServerEnd()[0];
    assert os[n - 6] == ServerAccess()[0];
    assert os[n - 5] == ServerAccess()[1];
  }

  lemma LastTwo(a: seq<string>, t: seq<string>)
    requires |t| == 2
    ensures var all := a + t; |all| >= 2 && all[|all| - 2] == t[0] && all[|all| - 1] == t[1]
  {
  }

  lemma ControlReads()
    ensures TRAILER[0] == "remote-control:" && SettingOf(TRAILER[1]) == Some(Setting("control-enable", "no"))
  {
    var o := Setting("control-enable", "no");
    assert SettingLine(o) == "\tcontrol-enable: no";
    SettingReads(o);
  }

  /** The text ends by switching remote control off. */
  lemma TrailerSays(f: File, listen: string, def: int)
    ensures var lines := ConfLines(f, listen, def);
            && |lines| >= 2 && lines[|lines| - 2] == "remote-control:"
            && SettingOf(lines[|lines| - 1]) == Some(Setting("control-enable", "no"))
  {
    var before := ServerLines(f.settings) + RecordLines(f.records) + DefaultLines(f.defaults)
                  + ZonesLines(f.zones, ProxyTarget(listen, def));
    LastTwo(before, TRAILER);
    ControlReads();
  }

  /** Least-latency zones are forwarded to the proxy's host, with its port behind an `@`
      unless it is the usual one. */
  lemma ProxyTargetSays(host: string, d: string, def: int)
    requires forall c :: c in host + d ==> !IsSpace(c) && c != ':' && c != '['
    requires ScanInt(d) != 0
    ensures ScanInt(d) == 53 ==> ProxyTarget(host + ":" + d, def) == host
    ensures ScanInt(d) != 53 ==> ProxyTarget(host + ":" + d, def) == host + "@" + Dec(ScanInt(d))
  {
    HostPortSplits(host, d, def);
  }
}

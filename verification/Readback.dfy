/** A line reader for unbound.conf, and the proof that it recovers from the
    generated text what the configuration asked for
    (internal/unbound/generate.go). */
module Readback {
  import opened Text
  import opened Decimal
  import opened Config
  import opened Validation
  import opened HostPort
  import opened Unbound

  // ----- the reader

  datatype Line =
    | ZoneStart
    | ZoneName(name: string)
    | Addr(host: string)
    | Port(port: Option<int>)
    | LocalData(body: string)
    | NoTls
    | Other

  function Classify(l: string): Line {
    if l == "forward-zone:" then ZoneStart
    else if HasPrefix(l, "\tname: \"") && |l| > 8 then ZoneName(l[8..|l| - 1])
    else if HasPrefix(l, "\tforward-addr: ") then Addr(l[15..])
    else if HasPrefix(l, "\tforward-port: ") then Port(ParseInt(l[15..]))
    else if HasPrefix(l, "local-data: \"") && |l| > 13 then LocalData(l[13..|l| - 1])
    else if l == "\tforward-tls-upstream: no" then NoTls
    else Other
  }

  datatype Upstream = Upstream(host: string, port: Option<int>)

  /** `plain` tells that the block rules out TLS. */
  datatype Block = Block(name: string, addrs: seq<Upstream>, plain: bool)

  /** What has been read: the record data, the forward blocks, and whether all data
      came before the first block, as unbound's parser wants it. */
  datatype Conf = Conf(data: seq<string>, blocks: seq<Block>, dataFirst: bool)

  /** Changes the block being read, if there is one. */
  function OnLast(c: Conf, change: Block -> Block): Conf {
    if c.blocks == [] then c
    else
      var n := |c.blocks| - 1;
      c.(blocks := c.blocks[..n] + [change(c.blocks[n])])
  }

  function WithPort(b: Block, p: Option<int>): Block {
    if b.addrs == [] then b
    else
      var n := |b.addrs| - 1;
      b.(addrs := b.addrs[..n] + [b.addrs[n].(port := p)])
  }

  function Feed(c: Conf, l: Line): Conf {
    match l
    case ZoneStart => c.(blocks := c.blocks + [Block("", [], false)])
    case ZoneName(n) => OnLast(c, (b: Block) => b.(name := n))
    case Addr(h) => OnLast(c, (b: Block) => b.(addrs := b.addrs + [Upstream(h, None)]))
    case Port(p) => OnLast(c, (b: Block) => WithPort(b, p))
    case LocalData(body) => c.(data := c.data + [body], dataFirst := c.dataFirst && c.blocks == [])
    case NoTls => OnLast(c, (b: Block) => b.(plain := true))
    case Other => c
  }

  function FeedAll(c: Conf, lines: seq<string>): Conf {
    if lines == [] then c else Feed(FeedAll(c, lines[..|lines| - 1]), Classify(lines[|lines| - 1]))
  }

  function ReadConf(text: string): Conf {
    FeedAll(Conf([], [], true), Lines(text))
  }

  lemma {:induction false} FeedConcat(c: Conf, a: seq<string>, b: seq<string>)
    ensures FeedAll(c, a + b) == FeedAll(FeedAll(c, a), b)
  {
    if b == [] {
      assert a + b == a;
    } else {
      assert (a + b)[..|a + b| - 1] == a + b[..|b| - 1];
      FeedConcat(c, a, b[..|b| - 1]);
    }
  }

  lemma FeedOne(c: Conf, l: string)
    ensures FeedAll(c, [l]) == Feed(c, Classify(l))
  {
    assert [l][..0] == [];
    assert FeedAll(c, [l][..0]) == c;
  }

  // ----- how each kind of line reads

  /** A first character or two that no interesting line has. */
  predicate Plain(l: string) {
    l == ""
    || (l[0] != '\t' && l[0] != 'f' && l[0] != 'l')
    || (l[0] == '\t' && |l| >= 3 && l[1] != 'f' && (l[1] != 'n' || l[2] != 'a'))
  }

  lemma DiffersAt(l: string, p: string, i: nat)
    requires i < |l| && i < |p| && l[i] != p[i]
    ensures !HasPrefix(l, p)
  {
  }

  lemma PlainIsOther(l: string)
    requires Plain(l)
    ensures Classify(l) == Other
  {
    if l != "" {
      assert l != "forward-zone:" by { assert "forward-zone:"[0] == 'f'; }
      assert l != "\tforward-tls-upstream: no" by { assert "\tforward-tls-upstream: no"[..2] == "\tf"; }
      if l[0] == '\t' {
        DiffersAt(l, "\tname: \"", if l[1] != 'n' then 1 else 2);
        DiffersAt(l, "\tforward-addr: ", 1);
        DiffersAt(l, "\tforward-port: ", 1);
        DiffersAt(l, "local-data: \"", 0);
      } else {
        DiffersAt(l, "\tname: \"", 0);
        DiffersAt(l, "\tforward-addr: ", 0);
        DiffersAt(l, "\tforward-port: ", 0);
        DiffersAt(l, "local-data: \"", 0);
      }
    }
  }

  lemma NameReads(name: string)
    ensures Classify(NameLine(name)) == ZoneName(name)
  {
    var l := NameLine(name);
    assert l[0] == '\t';
    assert l[..8] == "\tname: \"";
    assert l[8..|l| - 1] == name;
  }

  lemma AddrReads(host: string)
    ensures Classify(AddrLine(host)) == Addr(host)
  {
    var l := AddrLine(host);
    assert l[0] == '\t' && l[1] == 'f';
    DiffersAt(l, "\tname: \"", 1);
    assert l[..15] == "\tforward-addr: ";
    assert l[15..] == host;
  }

  lemma PortReads(port: int)
    ensures Classify(PortLine(port)) == Port(Some(port))
  {
    var l := PortLine(port);
    assert l[0] == '\t' && l[1] == 'f' && l[9] == 'p';
    DiffersAt(l, "\tname: \"", 1);
    DiffersAt(l, "\tforward-addr: ", 9);
    assert l[..15] == "\tforward-port: ";
    assert l[15..] == Dec(port);
    DecFacts(port);
  }

  lemma DataReads(body: string)
    ensures Classify(DataLine(body)) == LocalData(body)
  {
    var l := DataLine(body);
    assert l[0] == 'l';
    DiffersAt(l, "\tname: \"", 0);
    DiffersAt(l, "\tforward-addr: ", 0);
    DiffersAt(l, "\tforward-port: ", 0);
    assert l[..13] == "local-data: \"";
    assert l[13..|l| - 1] == body;
  }

  lemma TlsReads()
    ensures Classify("\tforward-tls-upstream: no") == NoTls
  {
    var l := "\tforward-tls-upstream: no";
    assert l[0] == '\t' && l[1] == 'f' && l[9] == 't';
    DiffersAt(l, "\tname: \"", 1);
    DiffersAt(l, "\tforward-addr: ", 9);
    DiffersAt(l, "\tforward-port: ", 9);
    DiffersAt(l, "local-data: \"", 0);
  }

  ghost predicate AllPlain(lines: seq<string>) {
    forall i :: 0 <= i < |lines| ==> Plain(lines[i])
  }

  lemma {:induction false} FeedPlain(c: Conf, lines: seq<string>)
    requires AllPlain(lines)
    ensures FeedAll(c, lines) == c
  {
    if lines != [] {
      FeedPlain(c, lines[..|lines| - 1]);
      PlainIsOther(lines[|lines| - 1]);
    }
  }

  // ----- segments

  function AddData(c: Conf, data: seq<string>): Conf {
    c.(data := c.data + data)
  }

  function AddBlocks(c: Conf, blocks: seq<Block>): Conf {
    c.(blocks := c.blocks + blocks)
  }

  lemma AddDataTwice(c: Conf, a: seq<string>, b: seq<string>)
    ensures AddData(AddData(c, a), b) == AddData(c, a + b) && AddData(c, []) == c
  {
    assert c.data + a + b == c.data + (a + b);
  }

  lemma AddBlocksTwice(c: Conf, a: seq<Block>, b: seq<Block>)
    ensures AddBlocks(AddBlocks(c, a), b) == AddBlocks(c, a + b) && AddBlocks(c, []) == c
  {
    assert c.blocks + a + b == c.blocks + (a + b);
  }

  function RecordPayload(r: Record): seq<string> {
    if r.meta.deleted || RecordData(r).None? then [] else [RecordData(r).value]
  }

  function ExpectedData(rs: seq<Record>): seq<string> {
    if rs == [] then [] else ExpectedData(rs[..|rs| - 1]) + RecordPayload(rs[|rs| - 1])
  }

  lemma RecordLineReads(c: Conf, r: Record)
    requires c.blocks == []
    ensures FeedAll(c, RecordLine(r)) == AddData(c, RecordPayload(r))
  {
    if !r.meta.deleted && RecordData(r).Some? {
      FeedOne(c, DataLine(RecordData(r).value));
      DataReads(RecordData(r).value);
    } else {
      AddDataTwice(c, [], []);
    }
  }

  lemma {:induction false} RecordBodyReads(c: Conf, rs: seq<Record>)
    requires c.blocks == []
    ensures FeedAll(c, RecordBody(rs)) == AddData(c, ExpectedData(rs))
  {
    if rs == [] {
      AddDataTwice(c, [], []);
    } else {
      var before, r := rs[..|rs| - 1], rs[|rs| - 1];
      RecordBodyReads(c, before);
      FeedConcat(c, RecordBody(before), RecordLine(r));
      RecordLineReads(AddData(c, ExpectedData(before)), r);
      AddDataTwice(c, ExpectedData(before), RecordPayload(r));
    }
  }

  lemma RecordLinesRead(c: Conf, rs: seq<Record>)
    requires c.blocks == []
    ensures FeedAll(c, RecordLines(rs)) == AddData(c, ExpectedData(rs))
  {
    if rs == [] {
      AddDataTwice(c, [], []);
    } else {
      RecordBodyReads(c, rs);
      FeedConcat(c, RecordBody(rs), [""]);
      FeedPlain(AddData(c, ExpectedData(rs)), [""]);
    }
  }

  function WithBlock(c: Conf, name: string, addrs: seq<Upstream>): Conf {
    AddBlocks(c, [Block(name, addrs, false)])
  }

  function Named(host: string, port: int): Upstream {
    Upstream(host, if port != 53 then Some(port) else None)
  }

  lemma UpstreamReads(c: Conf, name: string, addrs: seq<Upstream>, host: string, port: int)
    ensures FeedAll(WithBlock(c, name, addrs), UpstreamLines(host, port))
         == WithBlock(c, name, addrs + [Named(host, port)])
  {
    var d := WithBlock(c, name, addrs);
    var e := WithBlock(c, name, addrs + [Upstream(host, None)]);
    AddrReads(host);
    FeedOne(d, AddrLine(host));
    assert d.blocks[..|d.blocks| - 1] == c.blocks;
    assert FeedAll(d, [AddrLine(host)]) == e;
    FeedConcat(d, [AddrLine(host)], if port != 53 then [PortLine(port)] else []);
    if port != 53 {
      PortReads(port);
      FeedOne(e, PortLine(port));
      var known := addrs + [Upstream(host, None)];
      assert e.blocks[..|e.blocks| - 1] == c.blocks && known[..|known| - 1] == addrs;
    }
  }

  function ExpectedDefaults(us: seq<Default>): seq<Upstream> {
    if us == [] then []
    else ExpectedDefaults(us[..|us| - 1]) + [Named(us[|us| - 1].address, us[|us| - 1].port)]
  }

  lemma {:induction false} DefaultAddrsRead(c: Conf, us: seq<Default>)
    ensures FeedAll(WithBlock(c, ".", []), DefaultAddrs(us)) == WithBlock(c, ".", ExpectedDefaults(us))
  {
    if us != [] {
      var before, u := us[..|us| - 1], us[|us| - 1];
      DefaultAddrsRead(c, before);
      FeedConcat(WithBlock(c, ".", []), DefaultAddrs(before), UpstreamLines(u.address, u.port));
      UpstreamReads(c, ".", ExpectedDefaults(before), u.address, u.port);
    }
  }

  function AsWritten(ups: seq<string>): seq<Upstream> {
    if ups == [] then [] else AsWritten(ups[..|ups| - 1]) + [Upstream(ups[|ups| - 1], None)]
  }

  ghost predicate Plainly(ups: seq<string>) {
    forall i :: 0 <= i < |ups| ==> MatchesUpstream(ups[i]) && ':' !in ups[i]
  }

  lemma ZoneAddrReads(c: Conf, name: string, addrs: seq<Upstream>, u: string)
    requires MatchesUpstream(u) && ':' !in u
    ensures FeedAll(WithBlock(c, name, addrs), ZoneAddr(u)) == WithBlock(c, name, addrs + [Upstream(u, None)])
  {
    SplitKeepsUpstream(u);
    UpstreamReads(c, name, addrs, u, 53);
  }

  lemma {:induction false} ZoneAddrsRead(c: Conf, name: string, ups: seq<string>)
    requires Plainly(ups)
    ensures FeedAll(WithBlock(c, name, []), ZoneAddrs(ups)) == WithBlock(c, name, AsWritten(ups))
  {
    if ups != [] {
      var before, u := ups[..|ups| - 1], ups[|ups| - 1];
      ZoneAddrsRead(c, name, before);
      FeedConcat(WithBlock(c, name, []), ZoneAddrs(before), ZoneAddr(u));
      ZoneAddrReads(c, name, AsWritten(before), u);
    }
  }

  /** A block reads as a block, given what its address lines read as. */
  lemma BlockReads(c: Conf, name: string, lines: seq<string>, addrs: seq<Upstream>)
    requires FeedAll(WithBlock(c, name, []), lines) == WithBlock(c, name, addrs)
    ensures FeedAll(c, BlockLines(name, lines)) == AddBlocks(c, [Block(name, addrs, true)])
  {
    var start, title := ["forward-zone:"], [NameLine(name)];
    var c1 := c.(blocks := c.blocks + [Block("", [], false)]);
    FeedOne(c, "forward-zone:");
    FeedOne(c1, NameLine(name));
    NameReads(name);
    assert c1.blocks[..|c1.blocks| - 1] == c.blocks;
    FeedConcat(c, start, title);
    assert start + title == ["forward-zone:", NameLine(name)];
    FeedConcat(c, start + title, lines);
    FeedConcat(c, start + title + lines, BLOCK_END);
    BlockEndReads(c, name, addrs);
  }

  lemma BlockEndReads(c: Conf, name: string, addrs: seq<Upstream>)
    ensures FeedAll(WithBlock(c, name, addrs), BLOCK_END) == AddBlocks(c, [Block(name, addrs, true)])
  {
    var d, e := WithBlock(c, name, addrs), AddBlocks(c, [Block(name, addrs, true)]);
    FeedConcat(d, ["\tforward-tls-upstream: no"], [""]);
    FeedOne(d, "\tforward-tls-upstream: no");
    TlsReads();
    assert d.blocks[..|d.blocks| - 1] == c.blocks;
    FeedPlain(e, [""]);
    assert ["\tforward-tls-upstream: no"] + [""] == BLOCK_END;
  }

  function DefaultBlocks(us: seq<Default>): seq<Block> {
    if Enabled(us) == [] then [] else [Block(".", ExpectedDefaults(Enabled(us)), true)]
  }

  lemma DefaultLinesRead(c: Conf, us: seq<Default>)
    ensures FeedAll(c, DefaultLines(us)) == AddBlocks(c, DefaultBlocks(us))
  {
    var enabled := Enabled(us);
    if enabled != [] {
      DefaultAddrsRead(c, enabled);
      BlockReads(c, ".", DefaultAddrs(enabled), ExpectedDefaults(enabled));
    } else {
      AddBlocksTwice(c, [], []);
    }
  }

  function ZoneBlock(z: Zone, proxy: string): Block {
    Block(CleanName(z.name), if z.leastLatency then [Upstream(proxy, None)] else AsWritten(z.upstreams), true)
  }

  function ZoneBlocks(zs: seq<Zone>, proxy: string): seq<Block> {
    if zs == [] then [] else ZoneBlocks(zs[..|zs| - 1], proxy) + LiveBlock(zs[|zs| - 1], proxy)
  }

  /** A live zone that is forwarded directly names only colon-free upstreams. */
  ghost predicate Readable(z: Zone) {
    !z.meta.deleted && !z.leastLatency ==> Plainly(z.upstreams)
  }

  lemma ZoneReads(c: Conf, z: Zone, proxy: string)
    requires !z.meta.deleted && Readable(z)
    ensures FeedAll(c, ZoneLines(z, proxy)) == AddBlocks(c, [ZoneBlock(z, proxy)])
  {
    var name := CleanName(z.name);
    if z.leastLatency {
      UpstreamReads(c, name, [], proxy, 53);
      assert UpstreamLines(proxy, 53) == [AddrLine(proxy)];
      assert [] + [Named(proxy, 53)] == [Upstream(proxy, None)];
      BlockReads(c, name, [AddrLine(proxy)], [Upstream(proxy, None)]);
    } else {
      ZoneAddrsRead(c, name, z.upstreams);
      BlockReads(c, name, ZoneAddrs(z.upstreams), AsWritten(z.upstreams));
    }
  }

  function LiveBlock(z: Zone, proxy: string): seq<Block> {
    if z.meta.deleted then [] else [ZoneBlock(z, proxy)]
  }

  lemma LiveBlockReads(c: Conf, z: Zone, proxy: string)
    requires Readable(z)
    ensures FeedAll(c, ZoneLines(z, proxy)) == AddBlocks(c, LiveBlock(z, proxy))
  {
    if z.meta.deleted {
      AddBlocksTwice(c, [], []);
    } else {
      ZoneReads(c, z, proxy);
    }
  }

  lemma {:induction false} ZonesRead(c: Conf, zs: seq<Zone>, proxy: string)
    requires forall i :: 0 <= i < |zs| ==> Readable(zs[i])
    ensures FeedAll(c, ZonesLines(zs, proxy)) == AddBlocks(c, ZoneBlocks(zs, proxy))
  {
    if zs == [] {
      AddBlocksTwice(c, [], []);
    } else {
      var before, z := zs[..|zs| - 1], zs[|zs| - 1];
      ZonesRead(c, before, proxy);
      FeedConcat(c, ZonesLines(before, proxy), ZoneLines(z, proxy));
      LiveBlockReads(AddBlocks(c, ZoneBlocks(before, proxy)), z, proxy);
      AddBlocksTwice(c, ZoneBlocks(before, proxy), LiveBlock(z, proxy));
    }
  }

  /** Reading the lines recovers data and blocks, in order. */
  lemma AssembledReads(f: File, server: seq<string>, proxy: string, trailer: seq<string>)
    requires AllPlain(server) && AllPlain(trailer)
    requires forall i :: 0 <= i < |f.zones| ==> Readable(f.zones[i])
    ensures FeedAll(Conf([], [], true), Assembled(f, server, proxy, trailer))
         == Conf(ExpectedData(f.records), DefaultBlocks(f.defaults) + ZoneBlocks(f.zones, proxy), true)
  {
    var c0 := Conf([], [], true);
    var c1 := Conf(ExpectedData(f.records), [], true);
    var c2 := Conf(ExpectedData(f.records), DefaultBlocks(f.defaults), true);
    var c3 := Conf(ExpectedData(f.records), DefaultBlocks(f.defaults) + ZoneBlocks(f.zones, proxy), true);
    var l1, l2, l3 := RecordLines(f.records), DefaultLines(f.defaults), ZonesLines(f.zones, proxy);
    FeedPlain(c0, server);
    RecordLinesRead(c0, f.records);
    assert [] + ExpectedData(f.records) == ExpectedData(f.records);
    DefaultLinesRead(c1, f.defaults);
    assert [] + DefaultBlocks(f.defaults) == DefaultBlocks(f.defaults);
    ZonesRead(c2, f.zones, proxy);
    FeedPlain(c3, trailer);
    FeedConcat(c0, server, l1);
    FeedConcat(c0, server + l1, l2);
    FeedConcat(c0, server + l1 + l2, l3);
    FeedConcat(c0, server + l1 + l2 + l3, trailer);
  }

  // ----- every generated line is one line

  predicate OneLine(l: string) {
    '\n' !in l
  }

  ghost predicate AllOneLine(lines: seq<string>) {
    forall i :: 0 <= i < |lines| ==> OneLine(lines[i])
  }

  lemma AllOneLineConcat(a: seq<string>, b: seq<string>)
    requires AllOneLine(a) && AllOneLine(b)
    ensures AllOneLine(a + b)
  {
  }

  lemma DecOneLine(n: int)
    ensures OneLine(Dec(n))
  {
    DecFacts(n);
  }

  lemma HostOneLine(text: string, def: int)
    requires OneLine(text)
    ensures OneLine(SplitHostPort(text, def).0)
  {
    var host := SplitHostPort(text, def).0;
    if '\n' in host {
      HostChars(text, def, '\n');
    }
  }

  /** Lines that read as nothing in particular. */
  ghost predicate Fine(lines: seq<string>) {
    AllPlain(lines) && AllOneLine(lines)
  }

  lemma FineConcat(a: seq<string>, b: seq<string>)
    requires Fine(a) && Fine(b)
    ensures Fine(a + b)
  {
  }

  lemma BannerFine()
    ensures Plain(BANNER) && OneLine(BANNER)
  {
    var a, b := "# Generated by AzureDNSForwarder", " - do not edit by hand.";
    assert a[0] == '#' && OneLine(a) && OneLine(b);
    assert BANNER == a + b;
  }

  /** A setting whose line is one line and reads as nothing in particular. */
  predicate Tame(o: Setting) {
    |o.key| >= 2 && o.key[0] != 'f' && (o.key[0] != 'n' || o.key[1] != 'a') && OneLine(o.key) && OneLine(o.value)
    && ':' !in o.key
  }

  ghost predicate AllTame(os: seq<Setting>) {
    forall i :: 0 <= i < |os| ==> Tame(os[i])
  }

  lemma TameFine(o: Setting)
    requires Tame(o)
    ensures Plain(SettingLine(o)) && OneLine(SettingLine(o))
  {
    var l := SettingLine(o);
    assert l[0] == '\t' && l[1] == o.key[0] && l[2] == o.key[1];
  }

  lemma RenderedFine(os: seq<Setting>)
    requires AllTame(os)
    ensures Fine(Rendered(os))
  {
    forall i | 0 <= i < |os| ensures Plain(Rendered(os)[i]) && OneLine(Rendered(os)[i]) {
      TameFine(os[i]);
    }
  }

  lemma TameConcat(a: seq<Setting>, b: seq<Setting>)
    requires AllTame(a) && AllTame(b)
    ensures AllTame(a + b)
  {
  }

  lemma TameIntro()
    ensures AllTame(ServerIntro())
  {
  }

  lemma TameListen(s: Settings)
    requires OneLine(s.dnsListen)
    ensures AllTame(ServerListen(s))
  {
    HostOneLine(s.dnsListen, 53);
    DecOneLine(SplitHostPort(s.dnsListen, 53).1);
  }

  lemma TameProtocols()
    ensures AllTame(ServerProtocols())
  {
  }

  lemma TameCache(s: Settings)
    ensures AllTame(ServerCache(s))
  {
    DecOneLine(s.cacheSize);
  }

  lemma TameValidator()
    ensures Tame(Setting("module-config", "\"validator iterator\""))
  {
  }

  lemma TameIterator()
    ensures Tame(Setting("module-config", "\"iterator\"")) && Tame(Setting("trust-anchor-signaling", "yes"))
  {
  }

  lemma TameModules(s: Settings)
    ensures AllTame(ServerModules(s))
  {
    TameValidator();
    TameIterator();
  }

  lemma TameVerbosity(s: Settings)
    ensures AllTame(ServerVerbosity(s))
  {
  }

  lemma TameDirectory()
    ensures Tame(Setting("directory", "\"/etc/unbound\""))
  {
  }

  lemma TameUser()
    ensures Tame(Setting("username", "\"dnsfwd\""))
  {
  }

  lemma TameSyslog()
    ensures Tame(Setting("use-syslog", "no"))
  {
  }

  lemma TameProcess()
    ensures AllTame(ServerProcess())
  {
    TameDirectory();
    TameUser();
    TameSyslog();
  }

  lemma TameThreads()
    ensures AllTame(ServerThreads())
  {
  }

  lemma TameAccess()
    ensures AllTame(ServerAccess())
  {
  }

  lemma TamePrivate()
    ensures AllTame(ServerPrivate())
  {
  }

  lemma TameLimits()
    ensures AllTame(ServerLimits())
  {
  }

  lemma TameEnd()
    ensures AllTame(ServerEnd())
  {
  }

  lemma ServerTame(s: Settings)
    requires OneLine(s.dnsListen)
    ensures AllTame(ServerSettings(s))
  {
    TameIntro();
    TameListen(s);
    TameProtocols();
    TameCache(s);
    TameModules(s);
    TameVerbosity(s);
    TameProcess();
    TameThreads();
    TameAccess();
    TameLimits();
    TamePrivate();
    TameEnd();
    var a := ServerIntro() + ServerListen(s);
    TameConcat(ServerIntro(), ServerListen(s));
    TameConcat(a, ServerProtocols());
    TameConcat(a + ServerProtocols(), ServerCache(s));
    var b := a + ServerProtocols() + ServerCache(s);
    TameConcat(b, ServerModules(s));
    TameConcat(b + ServerModules(s), ServerVerbosity(s));
    var c := b + ServerModules(s) + ServerVerbosity(s);
    TameConcat(c, ServerProcess());
    TameConcat(c + ServerProcess(), ServerThreads());
    var d := c + ServerProcess() + ServerThreads();
    TameConcat(d, ServerAccess());
    TameConcat(d + ServerAccess(), ServerLimits());
    TameConcat(d + ServerAccess() + ServerLimits(), ServerPrivate());
    TameConcat(d + ServerAccess() + ServerLimits() + ServerPrivate(), ServerEnd());
  }

  lemma FineTrailer()
    ensures Fine(TRAILER)
  {
  }

  lemma HeadFine()
    ensures Fine([BANNER, "server:"])
  {
    BannerFine();
    assert Plain("server:") && OneLine("server:");
  }

  lemma ServerFine(s: Settings)
    requires OneLine(s.dnsListen)
    ensures Fine(ServerLines(s))
  {
    var lines := Rendered(ServerSettings(s));
    ServerTame(s);
    RenderedFine(ServerSettings(s));
    HeadFine();
    FineConcat([BANNER, "server:"], lines);
    FineConcat([BANNER, "server:"] + lines, [""]);
  }

  lemma UpstreamOneLine(u: string)
    requires MatchesUpstream(u)
    ensures OneLine(u)
  {
    if '\n' in u {
      UpstreamChars(u, '\n');
    }
  }

  lemma RecordDataOneLine(r: Record)
    requires RecordOk(r)
    ensures AllOneLine(RecordLine(r))
  {
    if '\n' in r.name { DnsNameChars(r.name, '\n'); }
    UpstreamOneLine(r.value);
    DecOneLine(r.ttl);
    assert OneLine(ToUpper(r.rtype));
  }

  lemma {:induction false} RecordBodyOneLine(rs: seq<Record>)
    requires forall i :: 0 <= i < |rs| ==> RecordOk(rs[i])
    ensures AllOneLine(RecordBody(rs))
  {
    if rs != [] {
      RecordBodyOneLine(rs[..|rs| - 1]);
      RecordDataOneLine(rs[|rs| - 1]);
    }
  }

  lemma UpstreamLinesOneLine(host: string, port: int)
    requires OneLine(host)
    ensures AllOneLine(UpstreamLines(host, port))
  {
    DecOneLine(port);
  }

  lemma BlockOneLine(name: string, lines: seq<string>)
    requires OneLine(name) && AllOneLine(lines)
    ensures AllOneLine(BlockLines(name, lines))
  {
    assert OneLine(NameLine(name));
  }

  lemma {:induction false} EnabledMembers(us: seq<Default>)
    ensures forall i :: 0 <= i < |Enabled(us)| ==>
              Enabled(us)[i] in us && Enabled(us)[i].enabled && !Enabled(us)[i].meta.deleted
  {
    if us != [] {
      EnabledMembers(us[..|us| - 1]);
    }
  }

  lemma {:induction false} DefaultAddrsOneLine(us: seq<Default>)
    requires forall i :: 0 <= i < |us| ==> OneLine(us[i].address)
    ensures AllOneLine(DefaultAddrs(us))
  {
    if us != [] {
      DefaultAddrsOneLine(us[..|us| - 1]);
      UpstreamLinesOneLine(us[|us| - 1].address, us[|us| - 1].port);
    }
  }

  lemma DefaultLinesOneLine(us: seq<Default>)
    requires forall i :: 0 <= i < |us| ==> AddressOk(us[i])
    ensures AllOneLine(DefaultLines(us))
  {
    var enabled := Enabled(us);
    EnabledMembers(us);
    forall i | 0 <= i < |enabled| ensures OneLine(enabled[i].address) {
      assert AddressOk(enabled[i]);
      UpstreamOneLine(enabled[i].address);
    }
    DefaultAddrsOneLine(enabled);
    if enabled != [] {
      BlockOneLine(".", DefaultAddrs(enabled));
    }
  }

  lemma DomainChars(s: string, c: char)
    requires var ps := Split(s, '.'); AllLabels(ps[..|ps| - 1]) && IsTopLevel(ps[|ps| - 1])
    requires c in s
    ensures IsAlnum(c) || c == '-' || c == '.'
  {
    if c != '.' {
      SplitChars(s, '.', c);
      var ps := Split(s, '.');
      var i :| 0 <= i < |ps| && c in ps[i];
      if i < |ps| - 1 {
        assert IsLabel(ps[..|ps| - 1][i]);
      }
    }
  }

  lemma CleanNameOneLine(z: Zone)
    requires ZoneNameOk(z)
    ensures OneLine(CleanName(z.name))
  {
    var s := CleanName(z.name);
    if '\n' in s {
      if MatchesDomain(z.name) {
        DomainChars(s, '\n');
      }
    }
  }

  lemma {:induction false} ZoneAddrsOneLine(ups: seq<string>)
    requires forall i :: 0 <= i < |ups| ==> OneLine(ups[i])
    ensures AllOneLine(ZoneAddrs(ups))
  {
    if ups != [] {
      var u := ups[|ups| - 1];
      ZoneAddrsOneLine(ups[..|ups| - 1]);
      HostOneLine(u, 53);
      UpstreamLinesOneLine(SplitHostPort(u, 53).0, SplitHostPort(u, 53).1);
    }
  }

  lemma ZoneOneLine(z: Zone, proxy: string)
    requires ZoneOk(z) && OneLine(proxy)
    ensures AllOneLine(ZoneLines(z, proxy))
  {
    CleanNameOneLine(z);
    forall j | 0 <= j < |z.upstreams| ensures OneLine(z.upstreams[j]) {
      UpstreamOneLine(z.upstreams[j]);
    }
    ZoneAddrsOneLine(z.upstreams);
    BlockOneLine(CleanName(z.name), ForwardLines(z, proxy));
  }

  lemma {:induction false} ZonesOneLine(zs: seq<Zone>, proxy: string)
    requires OneLine(proxy) && forall i :: 0 <= i < |zs| ==> ZoneOk(zs[i])
    ensures AllOneLine(ZonesLines(zs, proxy))
  {
    if zs != [] {
      ZonesOneLine(zs[..|zs| - 1], proxy);
      ZoneOneLine(zs[|zs| - 1], proxy);
    }
  }

  lemma AssembledOneLine(f: File, server: seq<string>, proxy: string, trailer: seq<string>)
    requires Accepts(f) && AllOneLine(server) && AllOneLine(trailer) && OneLine(proxy)
    ensures AllOneLine(Assembled(f, server, proxy, trailer))
  {
    RecordBodyOneLine(f.records);
    DefaultLinesOneLine(f.defaults);
    ZonesOneLine(f.zones, proxy);
    var a, b, c := RecordLines(f.records), DefaultLines(f.defaults), ZonesLines(f.zones, proxy);
    AllOneLineConcat(server, a);
    AllOneLineConcat(server + a, b);
    AllOneLineConcat(server + a + b, c);
    AllOneLineConcat(server + a + b + c, trailer);
  }

  /** A proxy address that unbound can be pointed at: an unusual port, and a host
      without blanks, brackets or colons. */
  ghost predicate ProxyAddress(host: string, n: int) {
    (forall c :: c in host ==> !IsSpace(c) && c != ':' && c != '[') && 0 < n <= MAX_INT64 && n != 53
  }

  lemma ProxySplits(host: string, n: int, def: int)
    requires ProxyAddress(host, n)
    ensures ProxyTarget(host + ":" + Digits(n), def) == host + "@" + Digits(n)
    ensures OneLine(host + "@" + Digits(n))
  {
    DigitsParse(n);
    ScanDigits(n);
    HostPortSplits(host, Digits(n), def);
  }

  /** The address built into the program is such an address. */
  lemma BuiltInProxyAddress()
    ensures ProxyAddress(PROXY_HOST, PROXY_PORT)
    ensures PROXY_HOST + ":" + Digits(PROXY_PORT) == "127.0.0.1:15353"
  {
    assert Digits(15) == "15";
    assert Digits(1535) == "1535";
    assert Digits(15353) == "15353";
  }

  /** No live, directly forwarded zone names an upstream with a colon. */
  ghost predicate ColonFree(f: File) {
    forall i, j ::
      (0 <= i < |f.zones| && 0 <= j < |f.zones[i].upstreams|
       && !f.zones[i].meta.deleted && !f.zones[i].leastLatency) ==> ':' !in f.zones[i].upstreams[j]
  }

  /** For every accepted file whose listen address is one line and whose upstreams
      have no colons, the generated text reads back as: the live records' data,
      all of it before any block; then the block for "." with the enabled live
      defaults, present exactly when there are any; then one block per live
      zone, with its stripped name and its upstreams or the proxy. */
  lemma GeneratedReadsBack(f: File, host: string, n: int, def: int)
    requires Accepts(f) && OneLine(f.settings.dnsListen) && ColonFree(f) && ProxyAddress(host, n)
    ensures ReadConf(Unlines(ConfLines(f, host + ":" + Digits(n), def)))
         == Conf(ExpectedData(f.records), DefaultBlocks(f.defaults) + ZoneBlocks(f.zones, host + "@" + Digits(n)), true)
  {
    var proxy := host + "@" + Digits(n);
    ServerFine(f.settings);
    FineTrailer();
    ProxySplits(host, n, def);
    AssembledOneLine(f, ServerLines(f.settings), proxy, TRAILER);
    var lines := Assembled(f, ServerLines(f.settings), proxy, TRAILER);
    forall l | l in lines ensures '\n' !in l {
      var i :| 0 <= i < |lines| && lines[i] == l;
      assert OneLine(lines[i]);
    }
    LinesOfUnlines(lines);
    forall i | 0 <= i < |f.zones| ensures Readable(f.zones[i]) {
      assert ZoneOk(f.zones[i]);
    }
    AssembledReads(f, ServerLines(f.settings), proxy, TRAILER);
  }

  // ----- the records' data

  /** A resource record as unbound reads it. */
  datatype ResourceRecord = ResourceRecord(name: string, ttl: Option<int>, rtype: string, value: string)

  function ParseData(body: string): Option<ResourceRecord> {
    var fields := Split(body, ' ');
    if |fields| == 5 && fields[2] == "IN"
    then Some(ResourceRecord(fields[0], ParseInt(fields[1]), fields[3], fields[4])) else None
  }

  lemma FieldsParse(name: string, ttl: string, t: string, val: string)
    requires ' ' !in name && ' ' !in ttl && ' ' !in t && ' ' !in val
    ensures ParseData(name + " " + (ttl + " " + ("IN" + " " + (t + " " + val))))
         == Some(ResourceRecord(name, ParseInt(ttl), t, val))
  {
    SplitPiece(name, ttl + " " + ("IN" + " " + (t + " " + val)), ' ');
    SplitPiece(ttl, "IN" + " " + (t + " " + val), ' ');
    SplitPiece("IN", t + " " + val, ' ');
    SplitPiece(t, val, ' ');
    SplitPiece(val, "", ' ');
  }

  /** The name made absolute, the type in upper case, and the value, made absolute
      too when the type was written as an upper-case alias. */
  function Served(r: Record): ResourceRecord {
    ResourceRecord(
      if HasSuffix(r.name, ".") then r.name else r.name + ".",
      Some(r.ttl),
      ToUpper(r.rtype),
      if r.rtype == "CNAME" && !HasSuffix(r.value, ".") then r.value + "." else r.value)
  }

  /** The data of every accepted record reads back field by field. */
  lemma RecordDataParses(r: Record)
    requires RecordOk(r)
    ensures RecordData(r).Some? && ParseData(RecordData(r).value) == Some(Served(r))
  {
    var rr := Served(r);
    var ttl := Dec(r.ttl);
    DecFacts(r.ttl);
    if ' ' in r.name { DnsNameChars(r.name, ' '); }
    if ' ' in r.value { UpstreamChars(r.value, ' '); }
    FieldsParse(rr.name, ttl, rr.rtype, rr.value);
    FieldsJoin(rr.name, ttl, rr.rtype, rr.value);
  }

  lemma FieldsJoin(name: string, ttl: string, t: string, val: string)
    ensures name + " " + ttl + " IN " + t + " " + val
         == name + " " + (ttl + " " + ("IN" + " " + (t + " " + val)))
  {
    assert " IN " == " " + "IN" + " ";
  }
}

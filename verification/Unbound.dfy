/** The generated unbound.conf (internal/unbound/generate.go). */
module Unbound {
  import opened Text
  import opened Decimal
  import opened Config
  import opened Validation
  import opened HostPort

  /** The decimal form used in generated text. */
  function Dec(n: int): string {
    if n == 0 then "0" else if n < 0 then "-" + Digits(-n) else Digits(n)
  }

  lemma DecFacts(n: int)
    ensures ParseInt(Dec(n)) == Some(n)
    ensures forall c :: c in Dec(n) ==> IsDigit(c) || c == '-'
  {
    if n == 0 {
      assert "0"[..0] == "";
    } else if n > 0 {
      DigitsParse(n);
    } else {
      DigitsParse(-n);
      assert Dec(n)[1..] == Digits(-n);
      assert '-' in Dec(n);
    }
  }

  // ----- the text

  /** Where the least-latency proxy listens: host and port. */
  const PROXY_HOST := "127.0.0.1"
  const PROXY_PORT := 15353

  function EnsureFqdn(name: string): string {
    if HasSuffix(name, ".") then name else name + "."
  }

  const BANNER := "# Generated by AzureDNSForwarder" + " - do not edit by hand."

  /** One line of the server section. */
  datatype Setting = Setting(key: string, value: string)

  function SettingLine(o: Setting): string {
    "\t" + o.key + ": " + o.value
  }

  function Rendered(os: seq<Setting>): (lines: seq<string>)
    ensures |lines| == |os| && forall i :: 0 <= i < |os| ==> lines[i] == SettingLine(os[i])
  {
    seq(|os|, i requires 0 <= i < |os| => SettingLine(os[i]))
  }

  function ServerIntro(): seq<Setting> {
    [Setting("verbosity", "1"), Setting("interface-automatic", "no")]
  }

  function ServerListen(s: Settings): seq<Setting> {
    var (host, port) := SplitHostPort(s.dnsListen, 53);
    [Setting("interface", host), Setting("port", Dec(port))]
  }

  function ServerProtocols(): seq<Setting> {
    [Setting("do-ip4", "yes"), Setting("do-ip6", "yes"), Setting("do-udp", "yes"), Setting("do-tcp", "yes")]
  }

  function ServerCache(s: Settings): seq<Setting> {
    [Setting("cache-min-ttl", "60"),
     Setting("cache-max-ttl", "86400"),
     Setting("msg-cache-size", Dec(s.cacheSize)),
     Setting("rrset-cache-size", Dec(s.cacheSize))]
  }

  function ServerModules(s: Settings): seq<Setting> {
    if s.dnssec then [Setting("module-config", "\"validator iterator\""), Setting("trust-anchor-signaling", "yes")]
    else [Setting("module-config", "\"iterator\"")]
  }

  function ServerVerbosity(s: Settings): seq<Setting> {
    if s.logQueries then [Setting("verbosity", "2")] else []
  }

  function ServerProcess(): seq<Setting> {
    [Setting("directory", "\"/etc/unbound\""),
     Setting("username", "\"dnsfwd\""),
     Setting("use-syslog", "no")]
  }

  function ServerThreads(): seq<Setting> {
    [Setting("logfile", "\"/dev/stdout\""), Setting("num-threads", "1")]
  }

  function ServerAccess(): seq<Setting> {
    [Setting("access-control", "0.0.0.0/0 allow"),
     Setting("access-control", "::/0 allow")]
  }

  function ServerLimits(): seq<Setting> {
    [Setting("unwanted-reply-threshold", "0")]
  }

  function ServerPrivate(): seq<Setting> {
    [Setting("private-address", "168.63.129.16"),
     Setting("private-address", "169.254.169.254")]
  }

  function ServerEnd(): seq<Setting> {
    [Setting("do-not-query-localhost", "no")]
  }

  function ServerSettings(s: Settings): seq<Setting> {
    ServerIntro() + ServerListen(s) + ServerProtocols() + ServerCache(s) + ServerModules(s)
    + ServerVerbosity(s) + ServerProcess() + ServerThreads() + ServerAccess() + ServerLimits()
    + ServerPrivate() + ServerEnd()
  }

  function ServerLines(s: Settings): seq<string> {
    [BANNER, "server:"] + Rendered(ServerSettings(s)) + [""]
  }

  /** The quoted part of a record's line; nothing for a type that is not served. */
  function RecordData(r: Record): Option<string> {
    var name := EnsureFqdn(r.name);
    var val := if r.rtype == "CNAME" && !HasSuffix(r.value, ".") then EnsureFqdn(r.value) else r.value;
    var t := ToUpper(r.rtype);
    if t == "A" || t == "AAAA" || t == "CNAME"
    then Some(name + " " + Dec(r.ttl) + " IN " + t + " " + val) else None
  }

  function DataLine(body: string): string {
    "local-data: \"" + body + "\""
  }

  function RecordLine(r: Record): seq<string> {
    if r.meta.deleted || RecordData(r).None? then [] else [DataLine(RecordData(r).value)]
  }

  function RecordBody(rs: seq<Record>): seq<string> {
    if rs == [] then [] else RecordBody(rs[..|rs| - 1]) + RecordLine(rs[|rs| - 1])
  }

  function RecordLines(rs: seq<Record>): seq<string> {
    if rs == [] then [] else RecordBody(rs) + [""]
  }

  function NameLine(name: string): string {
    "\tname: \"" + name + "\""
  }

  function AddrLine(host: string): string {
    "\tforward-addr: " + host
  }

  function PortLine(port: int): string {
    "\tforward-port: " + Dec(port)
  }

  /** One upstream: its address, and its port unless that is the usual one. */
  function UpstreamLines(host: string, port: int): seq<string> {
    [AddrLine(host)] + (if port != 53 then [PortLine(port)] else [])
  }

  function Enabled(us: seq<Default>): seq<Default> {
    if us == [] then []
    else
      var u := us[|us| - 1];
      Enabled(us[..|us| - 1]) + (if u.meta.deleted || !u.enabled then [] else [u])
  }

  function DefaultAddrs(us: seq<Default>): seq<string> {
    if us == [] then []
    else DefaultAddrs(us[..|us| - 1]) + UpstreamLines(us[|us| - 1].address, us[|us| - 1].port)
  }

  const BLOCK_END := ["\tforward-tls-upstream: no", ""]

  function BlockLines(name: string, addrs: seq<string>): seq<string> {
    ["forward-zone:", NameLine(name)] + addrs + BLOCK_END
  }

  function DefaultLines(us: seq<Default>): seq<string> {
    var enabled := Enabled(us);
    if enabled == [] then [] else BlockLines(".", DefaultAddrs(enabled))
  }

  function ZoneAddr(up: string): seq<string> {
    var (host, port) := SplitHostPort(up, 53);
    UpstreamLines(host, port)
  }

  function ZoneAddrs(ups: seq<string>): seq<string> {
    if ups == [] then [] else ZoneAddrs(ups[..|ups| - 1]) + ZoneAddr(ups[|ups| - 1])
  }

  /** Where least-latency zones are forwarded. */
  function ProxyTarget(listen: string, def: int): string {
    var (host, port) := SplitHostPort(listen, def);
    if port != 53 then host + "@" + Dec(port) else host
  }

  function ForwardLines(z: Zone, proxy: string): seq<string> {
    if z.leastLatency then [AddrLine(proxy)] else ZoneAddrs(z.upstreams)
  }

  function ZoneLines(z: Zone, proxy: string): seq<string> {
    if z.meta.deleted then [] else BlockLines(CleanName(z.name), ForwardLines(z, proxy))
  }

  function ZonesLines(zs: seq<Zone>, proxy: string): seq<string> {
    if zs == [] then [] else ZonesLines(zs[..|zs| - 1], proxy) + ZoneLines(zs[|zs| - 1], proxy)
  }

  const TRAILER := ["remote-control:", "\tcontrol-enable: no"]

  /** The parts that depend on the items, between a given head and tail. */
  function Assembled(f: File, server: seq<string>, proxy: string, trailer: seq<string>): seq<string> {
    server + RecordLines(f.records) + DefaultLines(f.defaults) + ZonesLines(f.zones, proxy) + trailer
  }

  /** The whole text for a proxy that listens at the given address. */
  function ConfLines(f: File, listen: string, def: int): seq<string> {
    Assembled(f, ServerLines(f.settings), ProxyTarget(listen, def), TRAILER)
  }

  // ----- producing it

  /** The builder's text: everything written, line by line. */
  method Join(lines: seq<string>) returns (text: string)
    ensures text == Unlines(lines)
  {
    text := "";
    for i := 0 to |lines|
      invariant text == Unlines(lines[..i])
    {
      assert lines[..i + 1] == lines[..i] + [lines[i]];
      UnlinesSnoc(lines[..i], lines[i]);
      text := text + lines[i] + "\n";
    }
    assert lines[..|lines|] == lines;
  }

  method WriteRecords(rs: seq<Record>) returns (out: seq<string>)
    ensures out == RecordLines(rs)
  {
    out := [];
    if |rs| > 0 {
      for i := 0 to |rs|
        invariant out == RecordBody(rs[..i])
      {
        assert rs[..i + 1][..i] == rs[..i];
        if rs[i].meta.deleted { continue; }
        var data := RecordData(rs[i]);
        if data.Some? {
          out := out + [DataLine(data.value)];
        }
      }
      assert rs[..|rs|] == rs;
      out := out + [""];
    }
  }

  method WriteDefaults(us: seq<Default>) returns (out: seq<string>)
    ensures out == DefaultLines(us)
  {
    var enabled: seq<Default> := [];
    for i := 0 to |us|
      invariant enabled == Enabled(us[..i])
    {
      assert us[..i + 1][..i] == us[..i];
      if us[i].meta.deleted || !us[i].enabled { continue; }
      enabled := enabled + [us[i]];
    }
    assert us[..|us|] == us;
    if |enabled| == 0 { return []; }
    var addrs: seq<string> := [];
    for i := 0 to |enabled|
      invariant addrs == DefaultAddrs(enabled[..i])
    {
      assert enabled[..i + 1][..i] == enabled[..i];
      addrs := addrs + UpstreamLines(enabled[i].address, enabled[i].port);
    }
    assert enabled[..|enabled|] == enabled;
    out := BlockLines(".", addrs);
  }

  method WriteZone(z: Zone, proxy: string) returns (out: seq<string>)
    requires !z.meta.deleted
    ensures out == ZoneLines(z, proxy)
  {
    var name := TrimPrefix(z.name, "*.");
    if z.leastLatency {
      return BlockLines(name, [AddrLine(proxy)]);
    }
    var addrs: seq<string> := [];
    for i := 0 to |z.upstreams|
      invariant addrs == ZoneAddrs(z.upstreams[..i])
    {
      assert z.upstreams[..i + 1][..i] == z.upstreams[..i];
      var (host, port) := SplitHostPort(z.upstreams[i], 53);
      addrs := addrs + UpstreamLines(host, port);
    }
    assert z.upstreams[..|z.upstreams|] == z.upstreams;
    out := BlockLines(name, addrs);
  }

  method WriteZones(zs: seq<Zone>, proxy: string) returns (out: seq<string>)
    ensures out == ZonesLines(zs, proxy)
  {
    out := [];
    for i := 0 to |zs|
      invariant out == ZonesLines(zs[..i], proxy)
    {
      assert zs[..i + 1][..i] == zs[..i];
      if zs[i].meta.deleted { continue; }
      var block := WriteZone(zs[i], proxy);
      out := out + block;
    }
    assert zs[..|zs|] == zs;
  }

  /** Produces the whole text. */
  method Generate(f: File, listen: string, def: int) returns (text: string)
    ensures text == Unlines(ConfLines(f, listen, def))
  {
    var records := WriteRecords(f.records);
    var defaults := WriteDefaults(f.defaults);
    var proxy := ProxyTarget(listen, def);
    var zones := WriteZones(f.zones, proxy);
    text := Join(ServerLines(f.settings) + records + defaults + zones + TRAILER);
  }
}

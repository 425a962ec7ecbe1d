/** The configuration file (internal/config/config.go): its items, its defaults,
    and which peers an item may be sent to. */
module Config {
  import opened Text
  import opened Decimal

  /** Instants, counted from the zero time. */
  type Time = nat

  /** The bookkeeping fields that all three kinds of item carry. */
  datatype Meta = Meta(
    doNotSync: bool,
    syncPeers: seq<string>,
    updatedAt: Time,
    updatedBy: string,
    deleted: bool)

  datatype Item =
    | UpstreamDefault(address: string, port: int, enabled: bool, note: string, meta: Meta)
    | ForwardZone(id: string, name: string, wildcard: bool, upstreams: seq<string>,
                  leastLatency: bool, latencyTestFrequency: int, meta: Meta)
    | StaticRecord(id: string, name: string, rtype: string, value: string, ttl: int, meta: Meta)

  const NO_META := Meta(false, [], 0, "", false)

  type Default = x: Item | x.UpstreamDefault? witness UpstreamDefault("", 53, true, "", NO_META)
  type Zone = x: Item | x.ForwardZone? witness ForwardZone("", "", false, [], false, 0, NO_META)
  type Record = x: Item | x.StaticRecord? witness StaticRecord("", "", "", "", 0, NO_META)

  datatype Settings = Settings(
    cacheSize: int, dnssec: bool, logQueries: bool,
    httpListen: string, dnsListen: string, pollSeconds: int)

  datatype Peer = Peer(name: string, url: string, enabled: bool)

  datatype Peers = Peers(
    listen: string, sharedKey: string, syncIntervalSeconds: int, clockSkewSeconds: int, list: seq<Peer>)

  /** A configuration as a value. `nilDefaults` tells a missing list of upstream
      defaults from an empty one, which validation distinguishes. */
  datatype File = File(
    version: int,
    updated: Time,
    updatedBy: string,
    settings: Settings,
    peers: Peers,
    nilDefaults: bool,
    defaults: seq<Default>,
    zones: seq<Zone>,
    records: seq<Record>,
    doNotSyncSettings: bool)

  datatype Kind = Defaults | Zones | Records

  function Slice(f: File, kind: Kind): seq<Item> {
    match kind
    case Defaults => f.defaults
    case Zones => f.zones
    case Records => f.records
  }

  /** What an item is matched by across peers. */
  function Key(x: Item): string {
    if x.UpstreamDefault? then UpstreamKey(x.address, x.port) else x.id
  }

  const CURRENT_VERSION := 1

  function SettingsWithDefaults(s: Settings): Settings {
    s.(cacheSize := if s.cacheSize == 0 then 1000 else s.cacheSize,
       httpListen := if s.httpListen == "" then "0.0.0.0:80" else s.httpListen,
       dnsListen := if s.dnsListen == "" then "0.0.0.0:53" else s.dnsListen,
       pollSeconds := if s.pollSeconds == 0 then 10 else s.pollSeconds)
  }

  function PeersWithDefaults(p: Peers): Peers {
    var interval := if p.syncIntervalSeconds == 0 then 300 else p.syncIntervalSeconds;
    p.(listen := if p.listen == "" then "0.0.0.0:8443" else p.listen,
       syncIntervalSeconds := if interval < 10 then 10 else interval,
       clockSkewSeconds := if p.clockSkewSeconds == 0 then 300 else p.clockSkewSeconds)
  }

  /** Peer names are compared after trimming and lowering. */
  function PeerKey(name: string): string {
    ToLower(TrimSpace(name))
  }

  /** Scans the list for a name with the given key. */
  predicate Names(peers: seq<string>, key: string) {
    peers != [] && (PeerKey(peers[|peers| - 1]) == key || Names(peers[..|peers| - 1], key))
  }

  lemma {:induction false} NamesMember(peers: seq<string>, key: string)
    ensures Names(peers, key) <==> exists p :: p in peers && PeerKey(p) == key
  {
    if peers != [] {
      var n := |peers| - 1;
      NamesMember(peers[..n], key);
      assert forall p :: p in peers <==> p in peers[..n] || p == peers[n];
    }
  }

  predicate SyncsToPeer(doNotSync: bool, syncPeers: seq<string>, peerName: string) {
    !doNotSync && (syncPeers == [] || Names(syncPeers, PeerKey(peerName)))
  }

  predicate Eligible(x: Item, peerName: string) {
    SyncsToPeer(x.meta.doNotSync, x.meta.syncPeers, peerName)
  }

  /** Fills in the bookkeeping that `Save` adds to an item that lacks it. */
  function Stamp(x: Item, now: Time, actor: string): (y: Item)
    ensures x.UpstreamDefault? ==> y.UpstreamDefault?
    ensures x.ForwardZone? ==> y.ForwardZone?
    ensures x.StaticRecord? ==> y.StaticRecord?
  {
    x.(meta := x.meta.(
       updatedAt := if x.meta.updatedAt == 0 then now else x.meta.updatedAt,
       updatedBy := if x.meta.updatedBy == "" then actor else x.meta.updatedBy))
  }

  function StampSlice(xs: seq<Item>, now: Time, actor: string): (ys: seq<Item>)
    ensures |ys| == |xs| && forall i :: 0 <= i < |xs| ==> ys[i] == Stamp(xs[i], now, actor)
  {
    seq(|xs|, i requires 0 <= i < |xs| => Stamp(xs[i], now, actor))
  }

  function StampFile(f: File, now: Time, actor: string): File {
    f.(defaults := StampSlice(f.defaults, now, actor),
       zones := StampSlice(f.zones, now, actor),
       records := StampSlice(f.records, now, actor))
  }

  /** A copy of a file. Copying an empty list of defaults gives a missing one. */
  function CloneOf(f: File): File {
    f.(nilDefaults := f.defaults == [])
  }
}

/** The two passes of a delete request (internal/server/server.go): first the item
    becomes a tombstone, then the tombstone is spliced out. */
module Deletion {
  import opened Text
  import opened Decimal
  import opened Config
  import opened Files
  import opened Merge
  import opened Convergence

  datatype Target =
    | DefaultTarget(address: string, port: int)
    | ZoneTarget(id: string)
    | RecordTarget(id: string)

  function KindOf(t: Target): Kind {
    match t
    case DefaultTarget(_, _) => Defaults
    case ZoneTarget(_) => Zones
    case RecordTarget(_) => Records
  }

  function TargetKey(t: Target): string {
    match t
    case DefaultTarget(a, p) => UpstreamKey(a, p)
    case ZoneTarget(id) => id
    case RecordTarget(id) => id
  }

  predicate Hits(t: Target, x: Item) {
    match t
    case DefaultTarget(a, p) => x.UpstreamDefault? && x.address == a && x.port == p
    case ZoneTarget(id) => x.ForwardZone? && x.id == id
    case RecordTarget(id) => x.StaticRecord? && x.id == id
  }

  lemma HitsHasKey(t: Target, x: Item)
    requires Hits(t, x)
    ensures Key(x) == TargetKey(t)
  {
  }

  /** The first position the request names, or -1. */
  function FirstHit(items: seq<Item>, t: Target): (i: int)
    ensures -1 <= i < |items|
    ensures i >= 0 ==> Hits(t, items[i])
    ensures forall j :: 0 <= j < (if i < 0 then |items| else i) ==> !Hits(t, items[j])
  {
    if items == [] then -1
    else if Hits(t, items[0]) then 0
    else
      var i := FirstHit(items[1..], t);
      if i < 0 then -1 else i + 1
  }

  /** A dead version of an item; deleting a default also switches it off. */
  function Buried(x: Item, now: Time, actor: string): Item {
    var dead := x.(meta := x.meta.(deleted := true, updatedAt := now, updatedBy := actor));
    if dead.UpstreamDefault? then dead.(enabled := false) else dead
  }

  function TombstoneSlice(items: seq<Item>, t: Target, now: Time, actor: string): Option<seq<Item>> {
    var i := FirstHit(items, t);
    if i < 0 then None else Some(items[i := Buried(items[i], now, actor)])
  }

  function SpliceOut(items: seq<Item>, i: nat): seq<Item>
    requires i < |items|
  {
    items[..i] + items[i + 1..]
  }

  function RemoveSlice(items: seq<Item>, t: Target): seq<Item> {
    var i := FirstHit(items, t);
    if i < 0 then items else SpliceOut(items, i)
  }

  /** The request's first pass; it fails when nothing is named. */
  function Tombstoned(f: File, t: Target, now: Time, actor: string): Option<File> {
    match t
    case DefaultTarget(_, _) =>
      var r := TombstoneSlice(f.defaults, t, now, actor);
      if r.None? then None else Some(f.(defaults := r.value))
    case ZoneTarget(_) =>
      var r := TombstoneSlice(f.zones, t, now, actor);
      if r.None? then None else Some(f.(zones := r.value))
    case RecordTarget(_) =>
      var r := TombstoneSlice(f.records, t, now, actor);
      if r.None? then None else Some(f.(records := r.value))
  }

  /** The request's second pass. */
  function Removed(f: File, t: Target): File {
    match t
    case DefaultTarget(_, _) => f.(defaults := RemoveSlice(f.defaults, t))
    case ZoneTarget(_) => f.(zones := RemoveSlice(f.zones, t))
    case RecordTarget(_) => f.(records := RemoveSlice(f.records, t))
  }

  method FindFirst(items: seq<Item>, t: Target) returns (i: int)
    ensures i == FirstHit(items, t)
  {
    for j := 0 to |items|
      invariant forall k :: 0 <= k < j ==> !Hits(t, items[k])
    {
      if Hits(t, items[j]) {
        return j;
      }
    }
    return -1;
  }

  method TombstonePass(f: ConfigFile, t: Target, now: Time, actor: string) returns (found: bool)
    modifies f
    ensures found <==> Tombstoned(old(f.Snapshot()), t, now, actor).Some?
    ensures f.Snapshot() == if found then Tombstoned(old(f.Snapshot()), t, now, actor).value else old(f.Snapshot())
  {
    match t
    case DefaultTarget(_, _) =>
      var i := FindFirst(f.defaults, t);
      if i < 0 { return false; }
      f.defaults := f.defaults[i := Buried(f.defaults[i], now, actor)];
      return true;
    case ZoneTarget(_) =>
      var i := FindFirst(f.zones, t);
      if i < 0 { return false; }
      f.zones := f.zones[i := Buried(f.zones[i], now, actor)];
      return true;
    case RecordTarget(_) =>
      var i := FindFirst(f.records, t);
      if i < 0 { return false; }
      f.records := f.records[i := Buried(f.records[i], now, actor)];
      return true;
  }

  lemma SpliceIsRemove(items: seq<Item>, t: Target, i: int, kept: seq<Item>)
    requires i == FirstHit(items, t) && kept == if i >= 0 then items[..i] + items[i + 1..] else items
    ensures kept == RemoveSlice(items, t)
  {
  }

  method RemoveDefault(f: ConfigFile, t: Target)
    requires t.DefaultTarget?
    modifies f`defaults
    ensures f.Snapshot() == Removed(old(f.Snapshot()), t)
  {
    var i := FindFirst(f.defaults, t);
    var kept := f.defaults;
    if i >= 0 { kept := kept[..i] + kept[i + 1..]; }
    SpliceIsRemove(f.defaults, t, i, kept);
    f.defaults := kept;
  }

  method RemoveZone(f: ConfigFile, t: Target)
    requires t.ZoneTarget?
    modifies f`zones
    ensures f.Snapshot() == Removed(old(f.Snapshot()), t)
  {
    var i := FindFirst(f.zones, t);
    var kept := f.zones;
    if i >= 0 { kept := kept[..i] + kept[i + 1..]; }
    SpliceIsRemove(f.zones, t, i, kept);
    f.zones := kept;
  }

  method RemoveRecord(f: ConfigFile, t: Target)
    requires t.RecordTarget?
    modifies f`records
    ensures f.Snapshot() == Removed(old(f.Snapshot()), t)
  {
    var i := FindFirst(f.records, t);
    var kept := f.records;
    if i >= 0 { kept := kept[..i] + kept[i + 1..]; }
    SpliceIsRemove(f.records, t, i, kept);
    f.records := kept;
  }

  method RemovePass(f: ConfigFile, t: Target)
    modifies f
    ensures f.Snapshot() == Removed(old(f.Snapshot()), t)
  {
    match t
    case DefaultTarget(_, _) => RemoveDefault(f, t);
    case ZoneTarget(_) => RemoveZone(f, t);
    case RecordTarget(_) => RemoveRecord(f, t);
  }

  lemma {:induction false} LookupSpliceOut(items: seq<Item>, i: nat, k: string)
    requires i < |items| && Key(items[i]) != k
    ensures Lookup(SpliceOut(items, i), k) == Lookup(items, k)
  {
    var n := |items| - 1;
    var after := SpliceOut(items, i);
    if i == n {
      assert after == items[..n];
    } else {
      assert after[..|after| - 1] == SpliceOut(items[..n], i);
      LookupSpliceOut(items[..n], i, k);
    }
  }

  /** Hard-deleting one key leaves every other key's version in place. */
  lemma RemoveKeepsOthers(items: seq<Item>, t: Target, k: string)
    requires TargetKey(t) != k
    ensures Lookup(RemoveSlice(items, t), k) == Lookup(items, k)
  {
    var i := FirstHit(items, t);
    if i >= 0 {
      HitsHasKey(t, items[i]);
      LookupSpliceOut(items, i, k);
    }
  }

  lemma LookupNoneIff(items: seq<Item>, k: string)
    ensures Lookup(items, k).None? <==> forall i :: 0 <= i < |items| ==> Key(items[i]) != k
  {
  }

  ghost predicate HoldsKey(items: seq<Item>, k: string) {
    exists i :: 0 <= i < |items| && Key(items[i]) == k
  }

  lemma SpliceHoldsKey(items: seq<Item>, h: nat, k: string)
    requires h < |items|
    ensures HoldsKey(SpliceOut(items, h), k) <==> exists i :: 0 <= i < |items| && i != h && Key(items[i]) == k
  {
    var after := SpliceOut(items, h);
    if i :| 0 <= i < |items| && i != h && Key(items[i]) == k {
      assert after[if i < h then i else i - 1] == items[i];
    }
    if i :| 0 <= i < |after| && Key(after[i]) == k {
      assert items[if i < h then i else i + 1] == after[i];
    }
  }

  /** The request's position is the only one with its key. */
  ghost predicate OnlyNamed(items: seq<Item>, t: Target) {
    forall i :: 0 <= i < |items| && Key(items[i]) == TargetKey(t) ==> i == FirstHit(items, t)
  }

  /** The second pass leaves the key absent exactly when the position it removes is the
      only one with that key; with distinct keys, whenever the request names anything. */
  lemma RemovedIsAbsentIff(items: seq<Item>, t: Target)
    ensures Lookup(RemoveSlice(items, t), TargetKey(t)).None? <==> OnlyNamed(items, t)
    ensures Distinct(items) && FirstHit(items, t) >= 0 ==> Lookup(RemoveSlice(items, t), TargetKey(t)).None?
  {
    var h, k := FirstHit(items, t), TargetKey(t);
    LookupNoneIff(RemoveSlice(items, t), k);
    if h >= 0 {
      HitsHasKey(t, items[h]);
      SpliceHoldsKey(items, h, k);
    }
  }

  /** A key that is absent, hard-deleted say, comes back exactly when some live
      version of it is admitted: the tombstone that was spliced out no longer
      holds older versions off. */
  lemma AbsentKeyReturns(items: seq<Item>, incoming: seq<Item>, now: Time, skew: int, k: string)
    requires Lookup(items, k).None?
    ensures Lookup(MergedSlice(items, incoming, now, skew), k).Some? <==>
            exists x :: x in incoming && Key(x) == k && Admits(x, now, skew) && !x.meta.deleted
  {
    var xs := Admitted(incoming, now, skew);
    SliceMergeRefinesJoin(items, xs, k);
    ResolveAbsent(Copies(xs, k));
    FilterMembers(incoming, x => Admits(x, now, skew));
    FilterMembers(xs, x => Key(x) == k);
  }

  /** What a request names: a default by address and port as written, others by ID. */
  lemma NamesIff(t: Target, x: Item)
    ensures t.DefaultTarget? ==> (Hits(t, x) <==> x.UpstreamDefault? && x.address == t.address && x.port == t.port)
    ensures t.ZoneTarget? ==> (Hits(t, x) <==> x.ForwardZone? && x.id == t.id)
    ensures t.RecordTarget? ==> (Hits(t, x) <==> x.StaticRecord? && x.id == t.id)
  {
  }

  /** The first pass changes one item, the first that is named: it is dead, stamped with
      the time and author of the request, switched off if it is a default, and else as
      it was; and it is never older than it was unless the clock went back. */
  lemma FirstPassSays(items: seq<Item>, t: Target, now: Time, actor: string)
    requires FirstHit(items, t) >= 0
    ensures TombstoneSlice(items, t, now, actor).Some?
    ensures var after, h := TombstoneSlice(items, t, now, actor).value, FirstHit(items, t);
            && |after| == |items| && (forall i :: 0 <= i < |items| && i != h ==> after[i] == items[i])
            && var x, y := items[h], after[h];
               && y.meta.deleted && y.meta.updatedAt == now && y.meta.updatedBy == actor
               && y.meta.doNotSync == x.meta.doNotSync && y.meta.syncPeers == x.meta.syncPeers
               && (x.UpstreamDefault? ==>
                     y == UpstreamDefault(x.address, x.port, false, x.note, y.meta))
               && (!x.UpstreamDefault? ==> y == x.(meta := y.meta))
               && (now >= x.meta.updatedAt ==> !Older(y, x))
  {
  }
}

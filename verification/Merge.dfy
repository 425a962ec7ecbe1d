/** Last-writer-wins merging of a peer's envelope (internal/sync/sync.go). */
module Merge {
  import opened Text
  import opened Config
  import opened Files

  datatype Envelope = Envelope(
    instanceId: string,
    fromSeq: nat,
    serverTime: Time,
    defaults: seq<Default>,
    zones: seq<Zone>,
    records: seq<Record>,
    settings: Option<Settings>)

  function EnvSlice(env: Envelope, kind: Kind): seq<Item> {
    match kind
    case Defaults => env.defaults
    case Zones => env.zones
    case Records => env.records
  }

  datatype MergeResult = MergeResult(
    added: nat, updated: nat, deleted: nat, skipped: nat, conflicts: nat, rejected: nat)

  // ----- the order on versions

  /** `b` beats `a`: later, or a tombstone at the same instant. */
  predicate Older(a: Item, b: Item) {
    a.meta.updatedAt < b.meta.updatedAt
    || (a.meta.updatedAt == b.meta.updatedAt && !a.meta.deleted && b.meta.deleted)
  }

  predicate SameStamp(a: Item, b: Item) {
    a.meta.updatedAt == b.meta.updatedAt && a.meta.deleted == b.meta.deleted
  }

  /** The tie rule: an equal stamp leaves zones and records alone, and leaves a
      default alone when its switch and note agree. */
  predicate TieKeeps(cur: Item, x: Item) {
    cur.UpstreamDefault? && x.UpstreamDefault? ==> cur.enabled == x.enabled && cur.note == x.note
  }

  /** Whether the incoming `x` replaces `cur`. */
  predicate Wins(x: Item, cur: Item) {
    Older(cur, x) || (SameStamp(cur, x) && !TieKeeps(cur, x))
  }

  predicate InWindow(x: Item, now: Time, skew: int) {
    skew > 0 && x.meta.updatedAt != 0 ==> -skew <= now - x.meta.updatedAt <= skew
  }

  predicate Admits(x: Item, now: Time, skew: int) {
    !x.meta.doNotSync && InWindow(x, now, skew)
  }

  /** The items that pass a test, in order. */
  function Filter(xs: seq<Item>, keep: Item -> bool): seq<Item> {
    if xs == [] then []
    else
      var n := |xs| - 1;
      Filter(xs[..n], keep) + (if keep(xs[n]) then [xs[n]] else [])
  }

  lemma {:induction false} FilterMembers(xs: seq<Item>, keep: Item -> bool)
    ensures forall x :: x in Filter(xs, keep) <==> x in xs && keep(x)
  {
    if xs != [] {
      var n := |xs| - 1;
      FilterMembers(xs[..n], keep);
      assert forall x :: x in xs <==> x in xs[..n] || x == xs[n];
    }
  }

  lemma {:induction false} FilterAll(xs: seq<Item>, keep: Item -> bool)
    requires forall x :: x in xs ==> keep(x)
    ensures Filter(xs, keep) == xs
  {
    if xs != [] {
      assert xs[|xs| - 1] in xs;
      FilterAll(xs[..|xs| - 1], keep);
    }
  }

  lemma FilterSnoc(xs: seq<Item>, x: Item, keep: Item -> bool)
    ensures Filter(xs + [x], keep) == if keep(x) then Filter(xs, keep) + [x] else Filter(xs, keep)
  {
    assert (xs + [x])[..|xs|] == xs;
  }

  function Admitted(xs: seq<Item>, now: Time, skew: int): seq<Item> {
    Filter(xs, x => Admits(x, now, skew))
  }

  // ----- merging one slice

  /** The last position that holds key `k`, or -1. */
  function LastIndex(items: seq<Item>, k: string): (i: int)
    ensures -1 <= i < |items|
    ensures i >= 0 ==> Key(items[i]) == k
    ensures forall j :: i < j < |items| ==> Key(items[j]) != k
  {
    if items == [] then -1
    else if Key(items[|items| - 1]) == k then |items| - 1
    else LastIndex(items[..|items| - 1], k)
  }

  /** Folds one admitted item in. */
  function Put(items: seq<Item>, x: Item): seq<Item>
  {
    var i := LastIndex(items, Key(x));
    if i < 0 then (if x.meta.deleted then items else items + [x])
    else if Wins(x, items[i]) then items[i := x]
    else items
  }

  function PutAll(items: seq<Item>, xs: seq<Item>): seq<Item>
  {
    if xs == [] then items else Put(PutAll(items, xs[..|xs| - 1]), xs[|xs| - 1])
  }

  function MergedSlice(items: seq<Item>, incoming: seq<Item>, now: Time, skew: int): seq<Item> {
    PutAll(items, Admitted(incoming, now, skew))
  }

  lemma {:induction false} PutAllMembers(items: seq<Item>, xs: seq<Item>, y: Item)
    requires y in PutAll(items, xs)
    ensures y in items || y in xs
  {
    if xs != [] {
      var n := |xs| - 1;
      if y in PutAll(items, xs[..n]) {
        PutAllMembers(items, xs[..n], y);
      } else {
        assert y == xs[n];
      }
    }
  }

  /** Everything in a merged slice was local, or came in and was admitted. */
  lemma MergedMembers(items: seq<Item>, incoming: seq<Item>, now: Time, skew: int)
    ensures var r := MergedSlice(items, incoming, now, skew);
            forall i :: 0 <= i < |r| ==> r[i] in items || (r[i] in incoming && Admits(r[i], now, skew))
  {
    var r := MergedSlice(items, incoming, now, skew);
    forall i | 0 <= i < |r| ensures r[i] in items || (r[i] in incoming && Admits(r[i], now, skew)) {
      PutAllMembers(items, Admitted(incoming, now, skew), r[i]);
      FilterMembers(incoming, x => Admits(x, now, skew));
    }
  }

  function MergedFile(f: File, env: Envelope, now: Time, skew: int): File {
    MergedMembers(f.defaults, env.defaults, now, skew);
    MergedMembers(f.zones, env.zones, now, skew);
    MergedMembers(f.records, env.records, now, skew);
    var defaults := MergedSlice(f.defaults, env.defaults, now, skew);
    f.(defaults := defaults,
       nilDefaults := f.nilDefaults && defaults == [],
       zones := MergedSlice(f.zones, env.zones, now, skew),
       records := MergedSlice(f.records, env.records, now, skew),
       settings := if env.settings.Some? && !f.doNotSyncSettings && f.updated < env.serverTime
                   then env.settings.value else f.settings)
  }

  lemma MergedFileSlice(f: File, env: Envelope, now: Time, skew: int, kind: Kind)
    ensures Slice(MergedFile(f, env, now, skew), kind)
         == MergedSlice(Slice(f, kind), EnvSlice(env, kind), now, skew)
  {
  }

  // ----- bookkeeping

  function Live(items: seq<Item>): nat {
    if items == [] then 0
    else Live(items[..|items| - 1]) + (if items[|items| - 1].meta.deleted then 0 else 1)
  }

  lemma {:induction false} LiveUpdate(items: seq<Item>, i: nat, x: Item)
    requires i < |items|
    ensures Live(items[i := x])
         == Live(items) - (if items[i].meta.deleted then 0 else 1) + (if x.meta.deleted then 0 else 1)
  {
    var n := |items| - 1;
    var after := items[i := x];
    if i == n {
      assert after[..n] == items[..n];
    } else {
      assert after[..n] == items[..n][i := x];
      LiveUpdate(items[..n], i, x);
    }
  }

  lemma LiveSnoc(items: seq<Item>, x: Item)
    ensures Live(items + [x]) == Live(items) + (if x.meta.deleted then 0 else 1)
  {
    assert (items + [x])[..|items|] == items;
  }

  function Total(r: MergeResult): nat {
    r.added + r.updated + r.deleted + r.skipped + r.conflicts + r.rejected
  }

  /** What the counters, going from `r0` to `r` over `n` incoming items, promise
      about the growth of a slice and of its live part. */
  ghost predicate Accounts(growth: int, liveGrowth: int, n: int, r0: MergeResult, r: MergeResult) {
    Total(r) == Total(r0) + n
    && growth == r.added - r0.added
    && liveGrowth == (r.added - r0.added) + (r.updated - r0.updated) - (r.deleted - r0.deleted)
  }

  ghost predicate Balanced(before: seq<Item>, after: seq<Item>, n: nat, r0: MergeResult, r: MergeResult) {
    Accounts(|after| - |before|, Live(after) - Live(before), n, r0, r)
  }

  /** The side index: every key, mapped to its last position. */
  ghost predicate Indexes(idx: map<string, int>, items: seq<Item>) {
    forall k :: (k in idx <==> LastIndex(items, k) >= 0) && (k in idx ==> idx[k] == LastIndex(items, k))
  }

  lemma LastIndexSnoc(items: seq<Item>, x: Item, k: string)
    ensures LastIndex(items + [x], k) == if Key(x) == k then |items| else LastIndex(items, k)
  {
    assert (items + [x])[..|items|] == items;
  }

  lemma {:induction false} LastIndexUpdate(items: seq<Item>, i: nat, x: Item, k: string)
    requires i < |items| && Key(items[i]) == Key(x)
    ensures LastIndex(items[i := x], k) == LastIndex(items, k)
  {
    var n := |items| - 1;
    var after := items[i := x];
    if i == n {
      assert after[..n] == items[..n];
    } else {
      assert after[..n] == items[..n][i := x];
      LastIndexUpdate(items[..n], i, x, k);
    }
  }

  lemma IndexesSnoc(idx: map<string, int>, items: seq<Item>, x: Item)
    requires Indexes(idx, items)
    ensures Indexes(idx[Key(x) := |items|], items + [x])
  {
    forall k { LastIndexSnoc(items, x, k); }
  }

  lemma IndexesUpdate(idx: map<string, int>, items: seq<Item>, i: nat, x: Item)
    requires Indexes(idx, items) && i < |items| && Key(items[i]) == Key(x)
    ensures Indexes(idx, items[i := x])
  {
    forall k { LastIndexUpdate(items, i, x, k); }
  }

  method BuildIndex(items: seq<Item>) returns (idx: map<string, int>)
    ensures Indexes(idx, items)
  {
    idx := map[];
    for i := 0 to |items|
      invariant Indexes(idx, items[..i])
    {
      assert items[..i + 1] == items[..i] + [items[i]];
      IndexesSnoc(idx, items[..i], items[i]);
      idx := idx[Key(items[i]) := i];
    }
    assert items[..|items|] == items;
  }

  datatype Fate = Added | Updated | Deleted | Skipped | Conflict | Rejected

  /** What a merge reports about a key that is already held: a replacement counts as
      a deletion, a revival or a resolved conflict; anything kept is skipped when
      the stamps agree and a conflict otherwise. */
  function HeldFate(cur: Item, x: Item): Fate {
    if !Wins(x, cur) then (if SameStamp(cur, x) then Skipped else Conflict)
    else if x.meta.deleted && !cur.meta.deleted then Deleted
    else if cur.meta.deleted && !x.meta.deleted then Updated
    else Conflict
  }

  function FateOf(items: seq<Item>, x: Item, now: Time, skew: int): Fate {
    var i := LastIndex(items, Key(x));
    if x.meta.doNotSync then Skipped
    else if !InWindow(x, now, skew) then Rejected
    else if i < 0 then (if x.meta.deleted then Skipped else Added)
    else HeldFate(items[i], x)
  }

  function Count(r: MergeResult, fate: Fate): MergeResult {
    match fate
    case Added => r.(added := r.added + 1)
    case Updated => r.(updated := r.updated + 1)
    case Deleted => r.(deleted := r.deleted + 1)
    case Skipped => r.(skipped := r.skipped + 1)
    case Conflict => r.(conflicts := r.conflicts + 1)
    case Rejected => r.(rejected := r.rejected + 1)
  }

  /** One incoming item's effect on the slice. */
  function Absorb(items: seq<Item>, x: Item, now: Time, skew: int): seq<Item> {
    if Admits(x, now, skew) then Put(items, x) else items
  }

  /** The merge, item by item. */
  function Absorbed(items: seq<Item>, incoming: seq<Item>, now: Time, skew: int): seq<Item> {
    if incoming == [] then items
    else Absorb(Absorbed(items, incoming[..|incoming| - 1], now, skew), incoming[|incoming| - 1], now, skew)
  }

  lemma {:induction false} AbsorbedIsMerged(items: seq<Item>, incoming: seq<Item>, now: Time, skew: int)
    ensures Absorbed(items, incoming, now, skew) == MergedSlice(items, incoming, now, skew)
  {
    if incoming != [] {
      var before, x := incoming[..|incoming| - 1], incoming[|incoming| - 1];
      AbsorbedIsMerged(items, before, now, skew);
      assert incoming == before + [x];
      FilterSnoc(before, x, y => Admits(y, now, skew));
      var sofar := Admitted(before, now, skew);
      assert (sofar + [x])[..|sofar|] == sofar;
    }
  }

  /** The counters after merging `incoming`, item by item. */
  function Tally(local: seq<Item>, incoming: seq<Item>, now: Time, skew: int, r0: MergeResult): MergeResult {
    if incoming == [] then r0
    else
      var n := |incoming| - 1;
      Count(Tally(local, incoming[..n], now, skew, r0),
            FateOf(Absorbed(local, incoming[..n], now, skew), incoming[n], now, skew))
  }

  lemma HeldFateBalances(items: seq<Item>, i: nat, x: Item, r: MergeResult)
    requires i < |items|
    ensures Balanced(items, if Wins(x, items[i]) then items[i := x] else items, 1, r, Count(r, HeldFate(items[i], x)))
  {
    LiveUpdate(items, i, x);
  }

  lemma NewFateBalances(items: seq<Item>, x: Item, r: MergeResult)
    ensures Balanced(items, if x.meta.deleted then items else items + [x], 1, r,
                     Count(r, if x.meta.deleted then Skipped else Added))
  {
    LiveSnoc(items, x);
  }

  lemma LeftOutBalances(items: seq<Item>, r: MergeResult, fate: Fate)
    requires fate.Skipped? || fate.Rejected?
    ensures Balanced(items, items, 1, r, Count(r, fate))
  {
  }

  /** Each item moves exactly the counter that matches what it did to the slice. */
  lemma FateBalances(items: seq<Item>, x: Item, now: Time, skew: int, r: MergeResult)
    ensures Balanced(items, Absorb(items, x, now, skew), 1, r, Count(r, FateOf(items, x, now, skew)))
  {
    var i := LastIndex(items, Key(x));
    if !Admits(x, now, skew) {
      LeftOutBalances(items, r, FateOf(items, x, now, skew));
    } else if i < 0 {
      NewFateBalances(items, x, r);
    } else {
      HeldFateBalances(items, i, x, r);
    }
  }

  /** The branches for a key that is already held, in the source's order; returns
      whether to replace. */
  method Decide(cur: Item, x: Item, r0: MergeResult) returns (replace: bool, r: MergeResult)
    ensures replace <==> Wins(x, cur)
    ensures r == Count(r0, HeldFate(cur, x))
  {
    if x.meta.deleted && !cur.meta.deleted {
      if cur.meta.updatedAt > x.meta.updatedAt {
        return false, r0.(conflicts := r0.conflicts + 1);
      }
      return true, r0.(deleted := r0.deleted + 1);
    }
    if cur.meta.deleted && !x.meta.deleted {
      if x.meta.updatedAt > cur.meta.updatedAt {
        return true, r0.(updated := r0.updated + 1);
      } else {
        return false, r0.(conflicts := r0.conflicts + 1);
      }
    }
    if cur.meta.updatedAt > x.meta.updatedAt {
      return false, r0.(conflicts := r0.conflicts + 1);
    }
    if cur.meta.updatedAt == x.meta.updatedAt && TieKeeps(cur, x) {
      return false, r0.(skipped := r0.skipped + 1);
    }
    return true, r0.(conflicts := r0.conflicts + 1);
  }

  /** Folds one incoming item into slice, side index and counters. */
  method MergeOne(items: seq<Item>, idx: map<string, int>, x: Item, now: Time, skew: int, r: MergeResult)
    returns (items': seq<Item>, idx': map<string, int>, r': MergeResult)
    requires Indexes(idx, items)
    ensures items' == Absorb(items, x, now, skew)
    ensures Indexes(idx', items')
    ensures r' == Count(r, FateOf(items, x, now, skew))
  {
    items', idx' := items, idx;
    if x.meta.doNotSync {
      return items, idx, r.(skipped := r.skipped + 1);
    }
    if skew > 0 && x.meta.updatedAt != 0 {
      var dt := now - x.meta.updatedAt;
      if dt < -skew || dt > skew {
        return items, idx, r.(rejected := r.rejected + 1);
      }
    }
    var k := Key(x);
    if k !in idx {
      if x.meta.deleted {
        return items, idx, r.(skipped := r.skipped + 1);
      }
      IndexesSnoc(idx, items, x);
      return items + [x], idx[k := |items|], r.(added := r.added + 1);
    }
    var i := idx[k];
    var replace;
    replace, r' := Decide(items[i], x, r);
    if replace {
      IndexesUpdate(idx, items, i, x);
      items' := items[i := x];
    }
  }

  lemma AbsorbedSnoc(local: seq<Item>, incoming: seq<Item>, x: Item, now: Time, skew: int, r0: MergeResult)
    ensures Absorbed(local, incoming + [x], now, skew) == Absorb(Absorbed(local, incoming, now, skew), x, now, skew)
    ensures Tally(local, incoming + [x], now, skew, r0)
         == Count(Tally(local, incoming, now, skew, r0),
                  FateOf(Absorbed(local, incoming, now, skew), x, now, skew))
  {
    assert (incoming + [x])[..|incoming|] == incoming;
  }

  lemma BalancedThen(a: seq<Item>, b: seq<Item>, c: seq<Item>, n: nat,
                     r0: MergeResult, r1: MergeResult, r2: MergeResult)
    requires Balanced(a, b, n, r0, r1) && Balanced(b, c, 1, r1, r2)
    ensures Balanced(a, c, n + 1, r0, r2)
  {
  }

  /** Bookkeeping is conserved, for any local slice and any incoming items. */
  lemma {:induction false} TallyBalances(local: seq<Item>, incoming: seq<Item>, now: Time, skew: int, r0: MergeResult)
    ensures Balanced(local, Absorbed(local, incoming, now, skew), |incoming|, r0,
                     Tally(local, incoming, now, skew, r0))
  {
    if incoming != [] {
      var before, x := incoming[..|incoming| - 1], incoming[|incoming| - 1];
      var items, r := Absorbed(local, before, now, skew), Tally(local, before, now, skew, r0);
      TallyBalances(local, before, now, skew, r0);
      FateBalances(items, x, now, skew, r);
      BalancedThen(local, items, Absorb(items, x, now, skew), |before|, r0, r,
                   Count(r, FateOf(items, x, now, skew)));
    }
  }

  lemma PrefixSnoc(xs: seq<Item>, n: nat)
    requires n < |xs|
    ensures xs[..n + 1] == xs[..n] + [xs[n]]
  {
  }

  /** One of the three merge loops: slice, side index and counters in step. */
  method MergeSlice(local: seq<Item>, incoming: seq<Item>, now: Time, skew: int, r0: MergeResult)
    returns (items: seq<Item>, r: MergeResult)
    ensures items == MergedSlice(local, incoming, now, skew)
    ensures r == Tally(local, incoming, now, skew, r0)
  {
    var idx := BuildIndex(local);
    items, r := local, r0;
    ghost var done: seq<Item> := [];
    for n := 0 to |incoming|
      invariant done == incoming[..n]
      invariant items == Absorbed(local, done, now, skew)
      invariant Indexes(idx, items)
      invariant r == Tally(local, done, now, skew, r0)
    {
      PrefixSnoc(incoming, n);
      AbsorbedSnoc(local, done, incoming[n], now, skew, r0);
      items, idx, r := MergeOne(items, idx, incoming[n], now, skew, r);
      done := done + [incoming[n]];
    }
    assert done == incoming;
    AbsorbedIsMerged(local, incoming, now, skew);
  }

  const NOTHING := MergeResult(0, 0, 0, 0, 0, 0)

  /** The counters of a whole merge. */
  function TallyFile(f: File, env: Envelope, now: Time, skew: int): MergeResult {
    var r1 := Tally(f.defaults, env.defaults, now, skew, NOTHING);
    var r2 := Tally(f.zones, env.zones, now, skew, r1);
    Tally(f.records, env.records, now, skew, r2)
  }

  /** All three loops, on values. */
  method MergeItems(f: File, env: Envelope, now: Time, skew: int)
    returns (defaults: seq<Default>, zones: seq<Zone>, records: seq<Record>, r: MergeResult)
    ensures defaults == MergedSlice(f.defaults, env.defaults, now, skew)
    ensures zones == MergedSlice(f.zones, env.zones, now, skew)
    ensures records == MergedSlice(f.records, env.records, now, skew)
    ensures r == TallyFile(f, env, now, skew)
  {
    MergedMembers(f.defaults, env.defaults, now, skew);
    MergedMembers(f.zones, env.zones, now, skew);
    MergedMembers(f.records, env.records, now, skew);
    var ds, zs, rs;
    ds, r := MergeSlice(f.defaults, env.defaults, now, skew, NOTHING);
    zs, r := MergeSlice(f.zones, env.zones, now, skew, r);
    rs, r := MergeSlice(f.records, env.records, now, skew, r);
    defaults, zones, records := ds, zs, rs;
  }

  /** Adding up all three slices, the six counters account for every incoming item,
      for the growth and for the change in live items. */
  lemma MergeConserves(f: File, env: Envelope, now: Time, skew: int)
    ensures var r := TallyFile(f, env, now, skew);
            var g := MergedFile(f, env, now, skew);
            && Total(r) == |env.defaults| + |env.zones| + |env.records|
            && Size(g) == Size(f) + r.added
            && LiveItems(g) + r.deleted == LiveItems(f) + r.added + r.updated
  {
    var r1 := Tally(f.defaults, env.defaults, now, skew, NOTHING);
    var r2 := Tally(f.zones, env.zones, now, skew, r1);
    SliceBalances(f.defaults, env.defaults, now, skew, NOTHING);
    SliceBalances(f.zones, env.zones, now, skew, r1);
    SliceBalances(f.records, env.records, now, skew, r2);
    ThreeAccounts(f, MergedFile(f, env, now, skew), |env.defaults|, |env.zones|, |env.records|,
                  r1, r2, TallyFile(f, env, now, skew));
  }

  lemma ThreeAccounts(f: File, g: File, nd: nat, nz: nat, nr: nat, r1: MergeResult, r2: MergeResult, r3: MergeResult)
    requires Balanced(f.defaults, g.defaults, nd, NOTHING, r1)
    requires Balanced(f.zones, g.zones, nz, r1, r2)
    requires Balanced(f.records, g.records, nr, r2, r3)
    ensures Total(r3) == nd + nz + nr
    ensures Size(g) == Size(f) + r3.added
    ensures LiveItems(g) + r3.deleted == LiveItems(f) + r3.added + r3.updated
  {
    AccountsAddUp(|g.defaults| - |f.defaults|, Live(g.defaults) - Live(f.defaults), nd,
                  |g.zones| - |f.zones|, Live(g.zones) - Live(f.zones), nz,
                  |g.records| - |f.records|, Live(g.records) - Live(f.records), nr, r1, r2, r3);
  }

  lemma AccountsAddUp(g1: int, l1: int, n1: int, g2: int, l2: int, n2: int, g3: int, l3: int, n3: int,
                      r1: MergeResult, r2: MergeResult, r3: MergeResult)
    requires Accounts(g1, l1, n1, NOTHING, r1) && Accounts(g2, l2, n2, r1, r2) && Accounts(g3, l3, n3, r2, r3)
    ensures Total(r3) == n1 + n2 + n3
    ensures g1 + g2 + g3 == r3.added
    ensures l1 + l2 + l3 + r3.deleted == r3.added + r3.updated
  {
  }

  lemma SliceBalances(local: seq<Item>, incoming: seq<Item>, now: Time, skew: int, r0: MergeResult)
    ensures Balanced(local, MergedSlice(local, incoming, now, skew), |incoming|, r0,
                     Tally(local, incoming, now, skew, r0))
  {
    TallyBalances(local, incoming, now, skew, r0);
    AbsorbedIsMerged(local, incoming, now, skew);
  }

  /** Merges an envelope into a file in place and reports what each item did. */
  method Merge(local: ConfigFile, env: Envelope, now: Time, skew: int) returns (r: MergeResult)
    modifies local
    ensures local.Snapshot() == MergedFile(old(local.Snapshot()), env, now, skew)
    ensures r == TallyFile(old(local.Snapshot()), env, now, skew)
  {
    var defaults, zones, records;
    defaults, zones, records, r := MergeItems(local.Snapshot(), env, now, skew);
    local.nilDefaults := local.nilDefaults && defaults == [];
    local.defaults, local.zones, local.records := defaults, zones, records;
    if env.settings.Some? && !local.doNotSyncSettings {
      if local.updated < env.serverTime {
        local.settings := env.settings.value;
      }
    }
  }

  function Size(f: File): nat {
    |f.defaults| + |f.zones| + |f.records|
  }

  function LiveItems(f: File): nat {
    Live(f.defaults) + Live(f.zones) + Live(f.records)
  }
}

/** Building envelopes and manifests, and the exchange of whole files between two
    nodes (internal/sync/sync.go). */
module Exchange {
  import opened Text
  import opened Config
  import opened Merge
  import opened Convergence
  import opened Ties

  // ----- export

  function ExportSlice(items: seq<Item>, peer: string): seq<Item> {
    Filter(items, x => Eligible(x, peer))
  }

  lemma ExportMembers(items: seq<Item>, peer: string)
    ensures forall x :: x in ExportSlice(items, peer) <==> x in items && Eligible(x, peer)
  {
    FilterMembers(items, x => Eligible(x, peer));
  }

  lemma ExportTyped(items: seq<Item>, peer: string)
    ensures forall i :: 0 <= i < |ExportSlice(items, peer)| ==> ExportSlice(items, peer)[i] in items
  {
    FilterMembers(items, x => Eligible(x, peer));
  }

  function Exported(f: File, instance: string, seqNo: nat, peer: string, now: Time): Envelope {
    ExportTyped(f.defaults, peer);
    ExportTyped(f.zones, peer);
    ExportTyped(f.records, peer);
    Envelope(instance, seqNo, now,
             ExportSlice(f.defaults, peer), ExportSlice(f.zones, peer), ExportSlice(f.records, peer),
             if f.doNotSyncSettings then None else Some(f.settings))
  }

  lemma ExportedSlice(f: File, instance: string, seqNo: nat, peer: string, now: Time, kind: Kind)
    ensures EnvSlice(Exported(f, instance, seqNo, peer, now), kind) == ExportSlice(Slice(f, kind), peer)
  {
  }

  method FilterSlice(items: seq<Item>, peer: string) returns (out: seq<Item>)
    ensures out == ExportSlice(items, peer)
  {
    out := [];
    for i := 0 to |items|
      invariant out == ExportSlice(items[..i], peer)
    {
      FilterSnoc(items[..i], items[i], x => Eligible(x, peer));
      assert items[..i + 1] == items[..i] + [items[i]];
      if Eligible(items[i], peer) {
        out := out + [items[i]];
      }
    }
    assert items[..|items|] == items;
  }

  method FilterForExport(instance: string, seqNo: nat, f: File, peer: string, now: Time) returns (env: Envelope)
    ensures env == Exported(f, instance, seqNo, peer, now)
    ensures forall kind, x :: x in EnvSlice(env, kind) <==> x in Slice(f, kind) && Eligible(x, peer)
  {
    var ds := FilterSlice(f.defaults, peer);
    var zs := FilterSlice(f.zones, peer);
    var rs := FilterSlice(f.records, peer);
    ExportTyped(f.defaults, peer);
    ExportTyped(f.zones, peer);
    ExportTyped(f.records, peer);
    var settings := if !f.doNotSyncSettings then Some(f.settings) else None;
    env := Envelope(instance, seqNo, now, ds, zs, rs, settings);
    forall kind, x ensures x in EnvSlice(env, kind) <==> x in Slice(f, kind) && Eligible(x, peer) {
      ExportMembers(Slice(f, kind), peer);
    }
  }

  /** The live, eligible items counted by the manifest loops. */
  method CountEligible(items: seq<Item>, peer: string) returns (n: nat)
    ensures n == Live(ExportSlice(items, peer))
  {
    n := 0;
    for i := 0 to |items|
      invariant n == Live(ExportSlice(items[..i], peer))
    {
      var x := items[i];
      FilterSnoc(items[..i], x, y => Eligible(y, peer));
      assert items[..i + 1] == items[..i] + [x];
      LiveSnoc(ExportSlice(items[..i], peer), x);
      if !x.meta.deleted && Eligible(x, peer) {
        n := n + 1;
      }
    }
    assert items[..|items|] == items;
  }

  datatype ItemCount = ItemCount(upstreamDefaults: nat, forwardZones: nat, staticRecords: nat)

  datatype Manifest = Manifest(instanceId: string, seqNo: nat, counts: ItemCount, serverTime: Time)

  function CountOf(c: ItemCount, kind: Kind): nat {
    match kind
    case Defaults => c.upstreamDefaults
    case Zones => c.forwardZones
    case Records => c.staticRecords
  }

  /** The counts are those of the live items in the envelope for the same peer. */
  method BuildManifest(instance: string, seqNo: nat, f: File, peer: string, now: Time) returns (m: Manifest)
    ensures m.instanceId == instance && m.seqNo == seqNo && m.serverTime == now
    ensures forall kind ::
              CountOf(m.counts, kind) == Live(EnvSlice(Exported(f, instance, seqNo, peer, now), kind))
    ensures m.counts.upstreamDefaults == Live(ExportSlice(f.defaults, peer))
    ensures m.counts.forwardZones == Live(ExportSlice(f.zones, peer))
    ensures m.counts.staticRecords == Live(ExportSlice(f.records, peer))
  {
    var d := CountEligible(f.defaults, peer);
    var z := CountEligible(f.zones, peer);
    var r := CountEligible(f.records, peer);
    m := Manifest(instance, seqNo, ItemCount(d, z, r), now);
  }

  // ----- bootstrap

  function LiveOnly(xs: seq<Item>): seq<Item> {
    Filter(xs, (x: Item) => !x.meta.deleted)
  }

  lemma {:induction false} LiveOnlyCount(xs: seq<Item>)
    ensures |LiveOnly(xs)| == Live(xs)
  {
    if xs != [] {
      LiveOnlyCount(xs[..|xs| - 1]);
    }
  }

  lemma {:induction false} FilterDistinct(items: seq<Item>, keep: Item -> bool)
    requires Distinct(items)
    ensures Distinct(Filter(items, keep))
  {
    if items != [] {
      var n := |items| - 1;
      FilterDistinct(items[..n], keep);
      FilterMembers(items[..n], keep);
      var sofar := Filter(items[..n], keep);
      forall i | 0 <= i < |sofar| ensures Key(sofar[i]) != Key(items[n]) {
        assert sofar[i] in items[..n];
      }
    }
  }

  lemma PutNewKey(items: seq<Item>, x: Item)
    requires forall i :: 0 <= i < |items| ==> Key(items[i]) != Key(x)
    ensures Put(items, x) == if x.meta.deleted then items else items + [x]
  {
    assert LastIndex(items, Key(x)) < 0;
  }

  lemma LiveOnlyAvoids(xs: seq<Item>, k: string)
    requires forall i :: 0 <= i < |xs| ==> Key(xs[i]) != k
    ensures forall i :: 0 <= i < |LiveOnly(xs)| ==> Key(LiveOnly(xs)[i]) != k
  {
    FilterMembers(xs, (y: Item) => !y.meta.deleted);
    forall i | 0 <= i < |LiveOnly(xs)| ensures Key(LiveOnly(xs)[i]) != k {
      assert LiveOnly(xs)[i] in xs;
    }
  }

  lemma LiveOnlySnoc(xs: seq<Item>, x: Item)
    requires forall i :: 0 <= i < |xs| ==> Key(xs[i]) != Key(x)
    ensures Put(LiveOnly(xs), x) == LiveOnly(xs + [x])
  {
    LiveOnlyAvoids(xs, Key(x));
    PutNewKey(LiveOnly(xs), x);
    FilterSnoc(xs, x, (y: Item) => !y.meta.deleted);
  }

  lemma PutAllSnoc(items: seq<Item>, xs: seq<Item>, x: Item)
    ensures PutAll(items, xs + [x]) == Put(PutAll(items, xs), x)
  {
    assert (xs + [x])[..|xs|] == xs;
  }

  lemma IntoNothingNext(xs: seq<Item>, x: Item)
    requires PutAll([], xs) == LiveOnly(xs) && forall i :: 0 <= i < |xs| ==> Key(xs[i]) != Key(x)
    ensures PutAll([], xs + [x]) == LiveOnly(xs + [x])
  {
    PutAllSnoc([], xs, x);
    LiveOnlySnoc(xs, x);
  }

  lemma {:induction false} PutAllIntoNothing(xs: seq<Item>)
    requires Distinct(xs)
    ensures PutAll([], xs) == LiveOnly(xs)
  {
    if xs != [] {
      var before, x := xs[..|xs| - 1], xs[|xs| - 1];
      assert xs == before + [x];
      PutAllIntoNothing(before);
      IntoNothingNext(before, x);
    }
  }

  lemma {:induction false} LiveFilter(xs: seq<Item>, keep: Item -> bool)
    ensures Live(Filter(xs, keep)) <= Live(xs)
    ensures Live(Filter(xs, keep)) == Live(xs) <==> forall x :: x in xs && !x.meta.deleted ==> keep(x)
  {
    if xs != [] {
      var before, x := xs[..|xs| - 1], xs[|xs| - 1];
      LiveFilter(before, keep);
      assert forall y :: y in xs <==> y in before || y == x;
      assert xs == before + [x];
      FilterSnoc(before, x, keep);
      LiveSnoc(Filter(before, keep), x);
    }
  }

  /** A node without items that merges an export ends with exactly the sender's
      eligible live items that are inside the clock window, in order. They are as
      many as the sender's manifest counts exactly when all of those items are
      inside the window: the window looks at each item's own stamp, so what was
      last edited too long ago never reaches a new node. */
  lemma BootstrapMatchesManifest(
      f: File, empty: File, instance: string, seqNo: nat, peer: string, sent: Time, now: Time, skew: int, kind: Kind)
    requires Slice(empty, kind) == [] && Distinct(Slice(f, kind))
    ensures var env := Exported(f, instance, seqNo, peer, sent);
            var got := Slice(MergedFile(empty, env, now, skew), kind);
            && got == LiveOnly(Admitted(EnvSlice(env, kind), now, skew))
            && (|got| == Live(EnvSlice(env, kind))
                <==> forall x :: x in Slice(f, kind) && Eligible(x, peer) && !x.meta.deleted ==> InWindow(x, now, skew))
  {
    var env := Exported(f, instance, seqNo, peer, sent);
    var xs := EnvSlice(env, kind);
    ExportedSlice(f, instance, seqNo, peer, sent, kind);
    MergedFileSlice(empty, env, now, skew, kind);
    FilterDistinct(Slice(f, kind), x => Eligible(x, peer));
    FilterDistinct(xs, x => Admits(x, now, skew));
    PutAllIntoNothing(Admitted(xs, now, skew));
    LiveOnlyCount(Admitted(xs, now, skew));
    LiveFilter(xs, x => Admits(x, now, skew));
    ExportMembers(Slice(f, kind), peer);
    assert forall x :: x in xs ==> (Admits(x, now, skew) <==> InWindow(x, now, skew));
  }

  // ----- two nodes

  /** Every item is meant for the peer and inside the receiver's clock window. */
  ghost predicate Shareable(items: seq<Item>, peer: string, now: Time, skew: int) {
    forall x :: x in items ==> Eligible(x, peer) && Admits(x, now, skew)
  }

  /** The file a node holds after hearing from another node's current state. */
  function Heard(receiver: File, sender: File, id: string, peer: string, sent: Time, now: Time, skew: int): File {
    MergedFile(receiver, Exported(sender, id, 0, peer, sent), now, skew)
  }

  lemma HeardSlice(receiver: File, sender: File, id: string, peer: string, sent: Time, now: Time, skew: int, kind: Kind)
    ensures Slice(Heard(receiver, sender, id, peer, sent, now, skew), kind)
         == PutAll(Slice(receiver, kind), Admitted(ExportSlice(Slice(sender, kind), peer), now, skew))
    ensures Shareable(Slice(sender, kind), peer, now, skew) ==>
            Slice(Heard(receiver, sender, id, peer, sent, now, skew), kind)
            == PutAll(Slice(receiver, kind), Slice(sender, kind))
  {
    ExportedSlice(sender, id, 0, peer, sent, kind);
    MergedFileSlice(receiver, Exported(sender, id, 0, peer, sent), now, skew, kind);
    var xs := Slice(sender, kind);
    if Shareable(xs, peer, now, skew) {
      FilterAll(xs, x => Eligible(x, peer));
      FilterAll(xs, x => Admits(x, now, skew));
    }
  }

  /** Nothing a sender could export, to any peer at any time, changes the receiver. */
  lemma HeardNothingNew(
      receiver: File, sender: File, id: string, peer: string, sent: Time, now: Time, skew: int, kind: Kind)
    requires forall x :: x in Slice(sender, kind) ==> Idle(Lookup(Slice(receiver, kind), Key(x)), x)
    ensures Slice(Heard(receiver, sender, id, peer, sent, now, skew), kind) == Slice(receiver, kind)
  {
    HeardSlice(receiver, sender, id, peer, sent, now, skew, kind);
    var xs := Admitted(ExportSlice(Slice(sender, kind), peer), now, skew);
    ExportMembers(Slice(sender, kind), peer);
    FilterMembers(ExportSlice(Slice(sender, kind), peer), x => Admits(x, now, skew));
    NothingToDo(Slice(receiver, kind), xs);
  }

  /** Two nodes, per kind of item: `b` hears from `a`, then `a` from the new `b`.
      From then on no exchange in either direction, at any time and with any
      window, changes an item; and the live views agree for every key exactly
      when no shared key was held in two equally stamped live versions that the
      tie rule keeps apart. */
  lemma PairConverges(a: File, b: File, kind: Kind, idA: string, idB: string, peerA: string, peerB: string,
                      t1: Time, now1: Time, t2: Time, now2: Time, skew: int)
    requires Distinct(Slice(a, kind)) && Distinct(Slice(b, kind))
    requires Shareable(Slice(a, kind), peerB, now1, skew)
    requires Shareable(Slice(a, kind), peerA, now2, skew) && Shareable(Slice(b, kind), peerA, now2, skew)
    ensures var b1 := Heard(b, a, idA, peerB, t1, now1, skew);
            var a1 := Heard(a, b1, idB, peerA, t2, now2, skew);
            && (forall peer, t, now, w ::
                  Slice(Heard(b1, a1, idA, peer, t, now, w), kind) == Slice(b1, kind)
                  && Slice(Heard(a1, b1, idB, peer, t, now, w), kind) == Slice(a1, kind))
            && ((forall k :: LiveOf(Lookup(Slice(a1, kind), k)) == LiveOf(Lookup(Slice(b1, kind), k)))
                <==> NoneStuck(Slice(a, kind), Slice(b, kind)))
  {
    var b1 := Heard(b, a, idA, peerB, t1, now1, skew);
    var a1 := Heard(a, b1, idB, peerA, t2, now2, skew);
    HeardSlice(b, a, idA, peerB, t1, now1, skew, kind);
    assert Shareable(Slice(b1, kind), peerA, now2, skew) by {
      forall x | x in Slice(b1, kind) ensures Eligible(x, peerA) && Admits(x, now2, skew) {
        PutAllMembers(Slice(b, kind), Slice(a, kind), x);
      }
    }
    HeardSlice(a, b1, idB, peerA, t2, now2, skew, kind);
    ExchangeSlices(Slice(a, kind), Slice(b, kind));
    forall peer, t, now, w
      ensures Slice(Heard(b1, a1, idA, peer, t, now, w), kind) == Slice(b1, kind)
           && Slice(Heard(a1, b1, idB, peer, t, now, w), kind) == Slice(a1, kind)
    {
      HeardNothingNew(b1, a1, idA, peer, t, now, w, kind);
      HeardNothingNew(a1, b1, idB, peer, t, now, w, kind);
    }
  }

  /** With stamps that determine versions no key is stuck. */
  lemma StampsDetermineNoneStuck(a: seq<Item>, b: seq<Item>)
    requires forall x, y :: x in a && y in b && Key(x) == Key(y) && SameStamp(x, y) ==> x == y
    ensures NoneStuck(a, b)
  {
  }

  // ----- what the hypotheses are for

  /** Two nodes that both send before either receives: the live views agree for every
      key exactly when shared keys with equally stamped live versions hold equal
      items. `PairConverges` settles more, because there the second sender has
      already heard the first. */
  lemma SimultaneousExchange(a: File, b: File, kind: Kind, idA: string, idB: string, peerA: string, peerB: string,
                             t1: Time, now1: Time, t2: Time, now2: Time, skew: int)
    requires Distinct(Slice(a, kind)) && Distinct(Slice(b, kind))
    requires Shareable(Slice(a, kind), peerB, now1, skew) && Shareable(Slice(b, kind), peerA, now2, skew)
    ensures var b1 := Heard(b, a, idA, peerB, t1, now1, skew);
            var a1 := Heard(a, b, idB, peerA, t2, now2, skew);
            SameLiveViews(Slice(a1, kind), Slice(b1, kind)) <==> TiesAgree(Slice(a, kind), Slice(b, kind))
  {
    HeardSlice(b, a, idA, peerB, t1, now1, skew, kind);
    HeardSlice(a, b, idB, peerA, t2, now2, skew, kind);
    SimultaneousSlices(Slice(a, kind), Slice(b, kind));
  }

  /** Two zones edited at the same instant on two nodes stay apart over any number of
      rounds, whatever else the nodes hold. */
  lemma TiedZonesNeverMeet(ps: seq<Pair>, x: Zone, y: Zone, n: nat)
    requires Rounds(ps) && n < |ps| && HeldAs(ps[0], Key(x), x, y) && SameStamp(x, y)
    ensures HeldAs(ps[n], Key(x), x, y)
  {
    TiedRounds(ps, Key(x), x, y, n);
  }

  /** Two defaults tied with different notes or switches change places in every round
      in which both nodes send before either receives, for ever. */
  lemma TiedDefaultsSwap(ps: seq<Pair>, x: Default, y: Default, n: nat)
    requires Rounds(ps) && n < |ps| && HeldAs(ps[0], Key(x), x, y) && SameStamp(x, y)
    requires x.enabled != y.enabled || x.note != y.note
    ensures if n % 2 == 0 then HeldAs(ps[n], Key(x), x, y) else HeldAs(ps[n], Key(x), y, x)
  {
    TiedRounds(ps, Key(x), x, y, n);
  }
}

/** What a merge lets in and how it counts, in stamps and flags alone
    (internal/sync/sync.go). */
module Admission {
  import opened Text
  import opened Decimal
  import opened Config
  import opened Merge
  import opened Convergence
  import opened Exchange
  import opened Order

  /** Everything new in a merged slice was sent, is not private, and bears a stamp no more
      than the window away from the clock, in either direction. */
  lemma NewIsInWindow(items: seq<Item>, incoming: seq<Item>, now: Time, skew: int, y: Item)
    requires y in MergedSlice(items, incoming, now, skew) && y !in items
    ensures y in incoming && !y.meta.doNotSync
    ensures skew > 0 && y.meta.updatedAt != 0 ==> now - skew <= y.meta.updatedAt <= now + skew
  {
    PutAllMembers(items, Admitted(incoming, now, skew), y);
    FilterMembers(incoming, x => Admits(x, now, skew));
  }

  /** The window is open for this stamp. */
  predicate Timely(t: Time, now: Time, skew: int) {
    skew <= 0 || t == 0 || now - skew <= t <= now + skew
  }

  /** `r` is later than `x`, or as late and dead, or as late and `x` is live. */
  predicate AtLeastAsNew(r: Item, x: Item) {
    r.meta.updatedAt > x.meta.updatedAt
    || (r.meta.updatedAt == x.meta.updatedAt && (r.meta.deleted || !x.meta.deleted))
  }

  /** And a timely version that is not private counts: a live one of an absent key gets the
      key in, and a held key ends no older than it. */
  lemma TimelyIsLetIn(items: seq<Item>, incoming: seq<Item>, now: Time, skew: int, x: Item)
    requires x in incoming && !x.meta.doNotSync && Timely(x.meta.updatedAt, now, skew)
    ensures var before, after := Lookup(items, Key(x)), Lookup(MergedSlice(items, incoming, now, skew), Key(x));
            && (before.None? && !x.meta.deleted ==> after.Some?)
            && (before.Some? ==> after.Some? && AtLeastAsNew(after.value, x) && AtLeastAsNew(after.value, before.value))
  {
    var xs := Admitted(incoming, now, skew);
    FilterMembers(incoming, y => Admits(y, now, skew));
    FilterMembers(xs, y => Key(y) == Key(x));
    assert x in Copies(xs, Key(x));
    SliceMergeRefinesJoin(items, xs, Key(x));
    if Lookup(items, Key(x)).Some? {
      ResolveHeld(Lookup(items, Key(x)).value, Copies(xs, Key(x)));
    } else {
      ResolveAbsent(Copies(xs, Key(x)));
    }
  }

  /** A single timely version of an absent key gets in unless it is dead. */
  lemma OnlyCopyGetsIn(items: seq<Item>, incoming: seq<Item>, now: Time, skew: int, x: Item)
    requires Distinct(incoming) && x in incoming && !x.meta.doNotSync && Timely(x.meta.updatedAt, now, skew)
    requires Lookup(items, Key(x)).None?
    ensures Lookup(MergedSlice(items, incoming, now, skew), Key(x)) == if x.meta.deleted then None else Some(x)
  {
    var xs := Admitted(incoming, now, skew);
    FilterMembers(incoming, y => Admits(y, now, skew));
    FilterMembers(xs, y => Key(y) == Key(x));
    SliceMergeRefinesJoin(items, xs, Key(x));
    ResolveAbsent(Copies(xs, Key(x)));
    var c := Copies(xs, Key(x));
    assert x in c;
    forall y | y in c ensures y == x {
      LookupMember(incoming, y);
      LookupMember(incoming, x);
    }
  }

  /** Both are defaults with different switches or notes. */
  predicate DefaultsDisagree(c: Item, x: Item) {
    c.UpstreamDefault? && x.UpstreamDefault? && (c.enabled != x.enabled || c.note != x.note)
  }

  /** When the incoming version replaces the held one. */
  lemma ReplacesIff(x: Item, c: Item)
    ensures Wins(x, c) <==>
            || x.meta.updatedAt > c.meta.updatedAt
            || (x.meta.updatedAt == c.meta.updatedAt && x.meta.deleted && !c.meta.deleted)
            || (x.meta.updatedAt == c.meta.updatedAt && x.meta.deleted == c.meta.deleted && DefaultsDisagree(c, x))
  {
  }

  /** How an item is counted, one counter at a time. */
  lemma CountedAs(items: seq<Item>, x: Item, now: Time, skew: int)
    ensures var fate, held := FateOf(items, x, now, skew), Lookup(items, Key(x));
            var in', t := !x.meta.doNotSync && Timely(x.meta.updatedAt, now, skew), x.meta.updatedAt;
            && (fate.Rejected? <==> !x.meta.doNotSync && !Timely(t, now, skew))
            && (fate.Added? <==> in' && held.None? && !x.meta.deleted)
            && (fate.Deleted? <==>
                  in' && held.Some? && x.meta.deleted && !held.value.meta.deleted && t >= held.value.meta.updatedAt)
            && (fate.Updated? <==>
                  in' && held.Some? && !x.meta.deleted && held.value.meta.deleted && t > held.value.meta.updatedAt)
            && (fate.Skipped? <==>
                  || x.meta.doNotSync
                  || (in' && held.None? && x.meta.deleted)
                  || (in' && held.Some? && t == held.value.meta.updatedAt
                      && x.meta.deleted == held.value.meta.deleted && !DefaultsDisagree(held.value, x)))
  {
  }

  /** The settings block is taken over exactly when one is sent, the file does not keep its
      own to itself, and the sender's clock is past the file's last change; nothing
      else in the header moves. */
  lemma SettingsTakenIff(f: File, env: Envelope, now: Time, skew: int)
    ensures var g := MergedFile(f, env, now, skew);
            && (env.settings.Some? && !f.doNotSyncSettings && env.serverTime > f.updated
                ==> g.settings == env.settings.value)
            && (env.settings.None? || f.doNotSyncSettings || env.serverTime <= f.updated
                ==> g.settings == f.settings)
            && g.version == f.version && g.updated == f.updated && g.updatedBy == f.updatedBy
            && g.peers == f.peers && g.doNotSyncSettings == f.doNotSyncSettings
  {
  }

  // ----- export

  lemma FilterPicksNext(xs: seq<Item>, x: Item, keep: Item -> bool)
    requires Picked(xs, keep, Filter(xs, keep))
    ensures Picked(xs + [x], keep, Filter(xs + [x], keep))
  {
    PickedSnoc(xs, x, keep, Filter(xs, keep));
    FilterSnoc(xs, x, keep);
  }

  lemma {:induction false} FilterPicks(xs: seq<Item>, keep: Item -> bool)
    ensures Picked(xs, keep, Filter(xs, keep))
  {
    if xs == [] {
      PickedNone(keep);
    } else {
      var before, x := xs[..|xs| - 1], xs[|xs| - 1];
      FilterPicks(before, keep);
      FilterPicksNext(before, x, keep);
      assert before + [x] == xs;
    }
  }

  /** An item goes to a peer exactly when it is not private and lists no peers, or lists
      that one up to case and surrounding blanks. */
  lemma EligibleIff(x: Item, peer: string)
    ensures Eligible(x, peer) <==>
            && !x.meta.doNotSync
            && (x.meta.syncPeers == []
                || exists p :: p in x.meta.syncPeers && ToLower(TrimSpace(p)) == ToLower(TrimSpace(peer)))
  {
    NamesMember(x.meta.syncPeers, PeerKey(peer));
    if x.meta.syncPeers != [] && Names(x.meta.syncPeers, PeerKey(peer)) {
      var p :| p in x.meta.syncPeers && PeerKey(p) == PeerKey(peer);
    }
    if p :| p in x.meta.syncPeers && ToLower(TrimSpace(p)) == ToLower(TrimSpace(peer)) {
      assert PeerKey(p) == PeerKey(peer);
    }
  }

  /** An envelope holds, per kind and in order, exactly those items. */
  lemma ExportPicks(f: File, instance: string, seqNo: nat, peer: string, now: Time, kind: Kind)
    ensures Picked(Slice(f, kind), x => Eligible(x, peer), EnvSlice(Exported(f, instance, seqNo, peer, now), kind))
  {
    ExportedSlice(f, instance, seqNo, peer, now, kind);
    FilterPicks(Slice(f, kind), x => Eligible(x, peer));
  }

  /** Zones and records are matched by ID, defaults by address up to case and by port. */
  lemma MatchedBy(x: Item, y: Item)
    requires x.UpstreamDefault? ==> IsInt64(x.port)
    requires y.UpstreamDefault? ==> IsInt64(y.port)
    ensures !x.UpstreamDefault? ==> Key(x) == x.id
    ensures x.UpstreamDefault? && y.UpstreamDefault? ==>
            (Key(x) == Key(y) <==> ToLower(x.address) == ToLower(y.address) && x.port == y.port)
  {
    if x.UpstreamDefault? && y.UpstreamDefault? {
      UpstreamKeyInjective(x.address, x.port, y.address, y.port);
    }
  }

  /** Each fate moves its own counter by one and no other. */
  lemma CountedOnce(r: MergeResult, fate: Fate)
    ensures var q := Count(r, fate);
            && q.added == r.added + (if fate.Added? then 1 else 0)
            && q.updated == r.updated + (if fate.Updated? then 1 else 0)
            && q.deleted == r.deleted + (if fate.Deleted? then 1 else 0)
            && q.skipped == r.skipped + (if fate.Skipped? then 1 else 0)
            && q.conflicts == r.conflicts + (if fate.Conflict? then 1 else 0)
            && q.rejected == r.rejected + (if fate.Rejected? then 1 else 0)
  {
  }
}

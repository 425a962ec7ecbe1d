/** Merging the same envelope again, when it may repeat a key: nothing stops a file from
    doing so (internal/sync/sync.go). */
module Repeats {
  import opened Text
  import opened Config
  import opened Merge
  import opened Convergence

  // ----- copies of one key

  /** The position of the first live copy, or the number of copies. */
  function FirstLive(c: seq<Item>): (f: nat)
    ensures f <= |c| && (f < |c| ==> !c[f].meta.deleted)
    ensures forall j :: 0 <= j < f ==> c[j].meta.deleted
  {
    if c == [] then 0
    else if !c[0].meta.deleted then 0
    else 1 + FirstLive(c[1..])
  }

  ghost predicate BeatsAll(t: Item, xs: seq<Item>) {
    forall x :: x in xs ==> Older(x, t)
  }

  /** Some tombstone before the first live copy is newer than every copy from there on: an
      empty slice drops it the first time and takes it the second. */
  ghost predicate DroppedBeats(c: seq<Item>) {
    var f := FirstLive(c);
    f < |c| && exists j :: 0 <= j < f && BeatsAll(c[j], c[f..])
  }

  /** The tie rule lets no version replace an equally stamped one of its key. */
  ghost predicate TiesKept(xs: seq<Item>) {
    forall x, y :: x in xs && y in xs && Key(x) == Key(y) && SameStamp(x, y) ==> TieKeeps(x, y)
  }

  /** Tombstones before a live copy leave no trace on an absent key. */
  lemma DroppedFirst(dead: seq<Item>, x: Item, rest: seq<Item>)
    requires (forall y :: y in dead ==> y.meta.deleted) && !x.meta.deleted
    ensures Resolve(None, dead + ([x] + rest)) == Resolve(Some(x), rest)
  {
    ResolveConcat(None, dead, [x] + rest);
    ResolveAbsent(dead);
    ResolveConcat(None, [x], rest);
    assert Resolve(None, [x]) == Join(Resolve(None, []), x);
  }

  ghost predicate Newest(r: Option<Item>, xs: seq<Item>) {
    r.Some? && r.value in xs && forall x :: x in xs ==> !Older(r.value, x)
  }

  lemma TailOutcome(dead: seq<Item>, x: Item, rest: seq<Item>)
    requires (forall y :: y in dead ==> y.meta.deleted) && !x.meta.deleted
    ensures Newest(Resolve(None, dead + ([x] + rest)), [x] + rest)
  {
    DroppedFirst(dead, x, rest);
    ResolveHeld(x, rest);
    assert forall y :: y in [x] + rest <==> y == x || y in rest;
  }

  lemma SplitAt(c: seq<Item>, f: nat)
    requires f < |c|
    ensures c == c[..f] + ([c[f]] + c[f + 1..]) && c[f..] == [c[f]] + c[f + 1..]
  {
  }

  /** An absent key ends at a newest copy from the first live one on. */
  lemma AbsentOutcome(c: seq<Item>)
    requires FirstLive(c) < |c|
    ensures Newest(Resolve(None, c), c[FirstLive(c)..])
  {
    var f := FirstLive(c);
    SplitAt(c, f);
    TailOutcome(c[..f], c[f], c[f + 1..]);
  }

  lemma AllDead(c: seq<Item>)
    requires FirstLive(c) == |c|
    ensures Resolve(None, c) == None
  {
    ResolveAbsent(c);
  }

  /** A held version is replaced by some copy, or wins against them all. */
  lemma {:induction false} HeldOrReplaced(cur: Item, c: seq<Item>)
    ensures var r := Resolve(Some(cur), c);
            r.Some? && (r.value in c || (r.value == cur && forall x :: x in c ==> !Wins(x, cur)))
  {
    if c != [] {
      var n := |c| - 1;
      HeldOrReplaced(cur, c[..n]);
      assert forall x :: x in c <==> x in c[..n] || x == c[n];
    }
  }

  /** After a merge a held key has nothing to learn from the same copies. */
  lemma HeldLearnsNothing(cur: Item, c: seq<Item>)
    requires forall x, y :: x in c && y in c && SameStamp(x, y) ==> TieKeeps(x, y)
    ensures var r := Resolve(Some(cur), c); r.Some? && forall x :: x in c ==> !Wins(x, r.value)
  {
    ResolveHeld(cur, c);
    HeldOrReplaced(cur, c);
  }

  /** An absent key neither, unless a dropped tombstone beats what was kept. */
  lemma AbsentLearnsNothing(c: seq<Item>)
    requires forall x, y :: x in c && y in c && SameStamp(x, y) ==> TieKeeps(x, y)
    requires !DroppedBeats(c)
    ensures forall x :: x in c ==> Idle(Resolve(None, c), x)
  {
    var f := FirstLive(c);
    if f == |c| {
      AllDead(c);
    } else {
      AbsentOutcome(c);
      var r := Resolve(None, c).value;
      forall x | x in c ensures !Wins(x, r) {
        NotBeaten(c, r, x);
      }
    }
  }

  lemma NotBeaten(c: seq<Item>, r: Item, x: Item)
    requires !DroppedBeats(c) && FirstLive(c) < |c| && x in c && Newest(Some(r), c[FirstLive(c)..])
    ensures !Older(r, x)
  {
    var f := FirstLive(c);
    var i :| 0 <= i < |c| && c[i] == x;
    if i >= f {
      assert x == c[f..][i - f];
    } else {
      assert !BeatsAll(c[i], c[f..]);
      NewestNotBeaten(r, x, c[f..]);
    }
  }

  lemma NewestNotBeaten(r: Item, t: Item, xs: seq<Item>)
    requires Newest(Some(r), xs) && !BeatsAll(t, xs)
    ensures !Older(r, t)
  {
    var y :| y in xs && !Older(y, t);
  }

  lemma DroppedReturns(c: seq<Item>)
    requires DroppedBeats(c)
    ensures Resolve(Resolve(None, c), c) != Resolve(None, c)
  {
    AbsentOutcome(c);
    var r, f := Resolve(None, c).value, FirstLive(c);
    var j :| 0 <= j < f && BeatsAll(c[j], c[f..]);
    ResolveHeld(r, c);
    assert c[j] in c && Older(r, c[j]);
  }

  // ----- slices

  lemma CopiesMembers(xs: seq<Item>, k: string)
    ensures forall x :: x in Copies(xs, k) <==> x in xs && Key(x) == k
  {
    FilterMembers(xs, x => Key(x) == k);
  }

  lemma LearnsNothing(items: seq<Item>, xs: seq<Item>, x: Item)
    requires TiesKept(xs) && x in xs && !DroppedBeats(Copies(xs, Key(x)))
    ensures Idle(Lookup(PutAll(items, xs), Key(x)), x)
  {
    var c := Copies(xs, Key(x));
    CopiesMembers(xs, Key(x));
    SliceMergeRefinesJoin(items, xs, Key(x));
    var cur := Lookup(items, Key(x));
    if cur.Some? {
      HeldLearnsNothing(cur.value, c);
    } else {
      AbsentLearnsNothing(c);
    }
  }

  ghost predicate Idempotent(xs: seq<Item>) {
    forall items :: PutAll(PutAll(items, xs), xs) == PutAll(items, xs)
  }

  ghost predicate NoneDroppedBeats(xs: seq<Item>) {
    forall k :: !DroppedBeats(Copies(xs, k))
  }

  lemma AgainChangesNothing(items: seq<Item>, xs: seq<Item>)
    requires TiesKept(xs) && NoneDroppedBeats(xs)
    ensures PutAll(PutAll(items, xs), xs) == PutAll(items, xs)
  {
    forall x | x in xs ensures Idle(Lookup(PutAll(items, xs), Key(x)), x) {
      LearnsNothing(items, xs, x);
    }
    NothingToDo(PutAll(items, xs), xs);
  }

  lemma AgainChangesEmpty(xs: seq<Item>, k: string)
    requires DroppedBeats(Copies(xs, k))
    ensures PutAll(PutAll([], xs), xs) != PutAll([], xs)
  {
    var c := Copies(xs, k);
    DroppedReturns(c);
    SliceMergeRefinesJoin([], xs, k);
    SliceMergeRefinesJoin(PutAll([], xs), xs, k);
  }

  /** Merging the same items a second time changes no slice exactly when, for every key, no
      tombstone before the first live copy is newer than all the copies from there on. */
  lemma IdempotentIff(xs: seq<Item>)
    requires TiesKept(xs)
    ensures Idempotent(xs) <==> NoneDroppedBeats(xs)
  {
    if NoneDroppedBeats(xs) {
      forall items ensures PutAll(PutAll(items, xs), xs) == PutAll(items, xs) {
        AgainChangesNothing(items, xs);
      }
    } else {
      var k :| DroppedBeats(Copies(xs, k));
      AgainChangesEmpty(xs, k);
    }
  }

  // ----- cases

  /** For zones and records that is the exact condition without further hypothesis. */
  lemma ZonesAndRecordsIdempotentIff(xs: seq<Item>)
    requires forall x :: x in xs ==> !x.UpstreamDefault?
    ensures Idempotent(xs) <==> NoneDroppedBeats(xs)
  {
    IdempotentIff(xs);
  }

  /** Merging an envelope without repeated keys a second time changes nothing. */
  lemma MergeIdempotent(items: seq<Item>, xs: seq<Item>)
    requires Distinct(xs)
    ensures PutAll(PutAll(items, xs), xs) == PutAll(items, xs)
  {
    assert TiesKept(xs);
    forall k ensures !DroppedBeats(Copies(xs, k)) {
      CopiesDistinct(xs, k);
    }
    AgainChangesNothing(items, xs);
  }

  lemma CopiesOfPair(x: Item, y: Item)
    requires Key(x) == Key(y)
    ensures Copies([x, y], Key(x)) == [x, y]
  {
    FilterAll([x, y], z => Key(z) == Key(x));
  }

  /** A tombstone followed by a live copy of its key is harmless exactly when the live copy
      is later. */
  lemma RepeatedKeyIff(dead: Item, alive: Item)
    requires Key(dead) == Key(alive) && dead.meta.deleted && !alive.meta.deleted
    ensures Idempotent([dead, alive]) <==> dead.meta.updatedAt < alive.meta.updatedAt
  {
    var xs := [dead, alive];
    CopiesOfPair(dead, alive);
    assert forall x :: x in xs ==> x == dead || x == alive;
    assert TiesKept(xs);
    IdempotentIff(xs);
    PairDrops(dead, alive);
    if dead.meta.updatedAt < alive.meta.updatedAt {
      forall k ensures !DroppedBeats(Copies(xs, k)) {
        if k != Key(dead) {
          CopiesMembers(xs, k);
          assert |Copies(xs, k)| > 0 ==> Copies(xs, k)[0] in Copies(xs, k);
        }
      }
    }
  }

  lemma PairDrops(dead: Item, alive: Item)
    requires dead.meta.deleted && !alive.meta.deleted
    ensures DroppedBeats([dead, alive]) <==> dead.meta.updatedAt >= alive.meta.updatedAt
  {
    var c := [dead, alive];
    assert FirstLive(c) == 1;
    assert c[1..] == [alive];
    assert alive in c[1..];
    assert Older(alive, dead) <==> dead.meta.updatedAt >= alive.meta.updatedAt;
    if Older(alive, dead) {
      assert Older(alive, c[0]);
    }
  }

  lemma ResolvePair(cur: Option<Item>, x: Item, y: Item)
    ensures Resolve(cur, [x, y]) == Join(Join(cur, x), y)
  {
    assert [x, y][..1] == [x] && [x][..0] == [];
    assert Resolve(cur, [x]) == Join(Resolve(cur, []), x);
  }

  /** The tombstones on the way to `last`, and back again. */
  lemma TiedResolves(a: Default, b: Default, alive: Default, last: Default)
    requires a.meta.deleted && SameStamp(a, b) && SameStamp(a, last) && Older(alive, last) && !alive.meta.deleted
    requires a.note != b.note && last.note == b.note && !a.enabled && !b.enabled && !last.enabled
    ensures Resolve(None, [a, b] + [alive, last]) == Some(last)
    ensures Resolve(Some(last), [a, b] + [alive, last]) == Some(b)
  {
    ResolveConcat(None, [a, b], [alive, last]);
    ResolvePair(None, a, b);
    ResolvePair(None, alive, last);
    ResolveConcat(Some(last), [a, b], [alive, last]);
    ResolvePair(Some(last), a, b);
    ResolvePair(Some(b), alive, last);
  }

  /** Why ties matter among defaults: equally stamped tombstones with alternating notes. No
      dropped one beats the outcome, and yet the second merge ends at another. */
  lemma TiedTombstonesUnsettled(a: Default, b: Default, alive: Default, last: Default, c: seq<Item>)
    requires c == [a, b] + [alive, last] && forall x :: x in c ==> Key(x) == Key(a)
    requires a.meta.deleted && SameStamp(a, b) && SameStamp(a, last) && Older(alive, last) && !alive.meta.deleted
    requires a.note != b.note && last.note == b.note && !a.enabled && !b.enabled && !last.enabled && last != b
    ensures !DroppedBeats(c) && !Idempotent(c)
  {
    TiedNotDropped(c, last);
    TiedResolves(a, b, alive, last);
    AgainDiffers(c, Key(a));
  }

  lemma TiedNotDropped(c: seq<Item>, last: Item)
    requires |c| == 4 && c[3] == last && !c[2].meta.deleted && last.meta.deleted
    requires SameStamp(c[0], last) && SameStamp(c[1], last)
    ensures !DroppedBeats(c)
  {
    assert FirstLive(c) == 2;
    assert c[2..][1] == last;
    assert last in c[2..];
  }

  lemma AgainDiffers(c: seq<Item>, k: string)
    requires forall x :: x in c ==> Key(x) == k
    requires Resolve(Resolve(None, c), c) != Resolve(None, c)
    ensures !Idempotent(c)
  {
    FilterAll(c, x => Key(x) == k);
    SliceMergeRefinesJoin([], c, k);
    SliceMergeRefinesJoin(PutAll([], c), c, k);
  }
}

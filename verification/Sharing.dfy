/** The list of peers, which a copied file shares with the published one: what its edits
    do when the save is refused (internal/config/config.go, internal/config/store.go,
    internal/server/server.go). */
module Sharing {
  import opened Text
  import opened Config

  /** A request on the list; an empty URL and a missing switch leave the field alone. */
  datatype Change =
    | AddPeer(p: Peer)
    | UpdatePeer(name: string, url: string, enabled: Option<bool>)
    | DeletePeer(name: string)

  /** The first peer of that name, or -1. */
  function Find(list: seq<Peer>, name: string): (i: int)
    ensures -1 <= i < |list|
    ensures i >= 0 ==> list[i].name == name
    ensures forall j :: 0 <= j < (if i < 0 then |list| else i) ==> list[j].name != name
  {
    if list == [] then -1
    else if list[0].name == name then 0
    else
      var i := Find(list[1..], name);
      if i < 0 then -1 else i + 1
  }

  function Edited(p: Peer, url: string, enabled: Option<bool>): Peer {
    p.(url := if url == "" then p.url else url, enabled := if enabled.None? then p.enabled else enabled.value)
  }

  function Without(list: seq<Peer>, i: nat): seq<Peer>
    requires i < |list|
  {
    list[..i] + list[i + 1..]
  }

  /** What the request asks for, or a refusal by the mutation itself. */
  function Applied(list: seq<Peer>, c: Change, urlOk: string -> bool): Option<seq<Peer>> {
    match c
    case AddPeer(p) => if Find(list, p.name) >= 0 then None else Some(list + [p])
    case UpdatePeer(name, url, enabled) =>
      var i := Find(list, name);
      if i < 0 || (url != "" && !urlOk(url)) then None else Some(list[i := Edited(list[i], url, enabled)])
    case DeletePeer(name) =>
      var i := Find(list, name);
      if i < 0 then None else Some(Without(list, i))
  }

  /** What the list published before reads as afterwards, whether or not the save commits. */
  function Residue(list: seq<Peer>, c: Change, urlOk: string -> bool): seq<Peer> {
    var r := Applied(list, c, urlOk);
    if r.None? then list
    else
      match c
      case AddPeer(_) => list
      case UpdatePeer(_, _, _) => r.value
      case DeletePeer(_) => r.value + [list[|list| - 1]]
  }

  /** A Go slice: a window on an array that other windows may share. */
  datatype Window = Window(arr: array<Peer>, len: nat)

  ghost predicate Fits(w: Window) {
    w.len <= w.arr.Length
  }

  ghost function Contents(w: Window): seq<Peer>
    requires Fits(w)
    reads w.arr
  {
    w.arr[..w.len]
  }

  method FindIn(w: Window, name: string) returns (i: int)
    requires Fits(w)
    ensures i == Find(Contents(w), name)
  {
    for j := 0 to w.len
      invariant forall k :: 0 <= k < j ==> w.arr[k].name != name
    {
      if w.arr[j].name == name {
        return j;
      }
    }
    return -1;
  }

  /** Go's append of one element: in place when there is room behind the window. */
  method Append(w: Window, p: Peer) returns (r: Window)
    requires Fits(w)
    modifies w.arr
    ensures Fits(r) && (r.arr == w.arr || fresh(r.arr))
    ensures Contents(r) == old(Contents(w)) + [p] && Contents(w) == old(Contents(w))
  {
    if w.len < w.arr.Length {
      w.arr[w.len] := p;
      return Window(w.arr, w.len + 1);
    }
    var bigger := new Peer[2 * w.len + 1](_ => p);
    for i := 0 to w.len
      invariant bigger[..i] == w.arr[..i] && bigger[w.len] == p
      invariant w.arr[..] == old(w.arr[..])
    {
      bigger[i] := w.arr[i];
    }
    return Window(bigger, w.len + 1);
  }

  /** Go's append of the tail onto the head: the tail moves down inside the array. */
  method MoveDown(w: Window, i: nat) returns (r: Window)
    requires Fits(w) && i < w.len
    modifies w.arr
    ensures r == Window(w.arr, w.len - 1)
    ensures Contents(w) == Without(old(Contents(w)), i) + [old(Contents(w))[w.len - 1]]
  {
    ghost var before := w.arr[..];
    for j := i to w.len - 1
      invariant forall k :: 0 <= k < i ==> w.arr[k] == before[k]
      invariant forall k :: i <= k < j ==> w.arr[k] == before[k + 1]
      invariant forall k :: j <= k < w.arr.Length ==> w.arr[k] == before[k]
    {
      w.arr[j] := w.arr[j + 1];
    }
    return Window(w.arr, w.len - 1);
  }

  /** The fields that are given, written into the array. */
  method EditAt(w: Window, i: nat, url: string, enabled: Option<bool>)
    requires Fits(w) && i < w.len
    modifies w.arr
    ensures Contents(w) == old(Contents(w))[i := Edited(old(Contents(w))[i], url, enabled)]
  {
    if url != "" { w.arr[i] := w.arr[i].(url := url); }
    if enabled.Some? { w.arr[i] := w.arr[i].(enabled := enabled.value); }
  }

  /** One request's mutation, on a copy that shares the array. */
  method Mutate(w: Window, c: Change, urlOk: string -> bool) returns (r: Option<Window>)
    requires Fits(w)
    modifies w.arr
    ensures Contents(w) == Residue(old(Contents(w)), c, urlOk)
    ensures r.Some? <==> Applied(old(Contents(w)), c, urlOk).Some?
    ensures r.Some? ==> Fits(r.value) && (r.value.arr == w.arr || fresh(r.value.arr))
                        && Contents(r.value) == Applied(old(Contents(w)), c, urlOk).value
  {
    match c
    case AddPeer(p) =>
      var i := FindIn(w, p.name);
      if i >= 0 { return None; }
      var grown := Append(w, p);
      return Some(grown);
    case UpdatePeer(name, url, enabled) =>
      var i := FindIn(w, name);
      if i < 0 || (url != "" && !urlOk(url)) { return None; }
      EditAt(w, i, url, enabled);
      return Some(w);
    case DeletePeer(name) =>
      var i := FindIn(w, name);
      if i < 0 { return None; }
      var cut := MoveDown(w, i);
      return Some(cut);
  }

  /** What the store publishes after one request. */
  function Next(list: seq<Peer>, a: Attempt, urlOk: string -> bool): seq<Peer> {
    var r := Applied(list, a.c, urlOk);
    if a.commits && r.Some? then r.value else Residue(list, a.c, urlOk)
  }

  /** A request, and whether everything after its mutation goes well. */
  datatype Attempt = Attempt(c: Change, commits: bool)

  class PeerStore {
    var published: Window

    ghost predicate Valid()
      reads this
    {
      Fits(published)
    }

    constructor (w: Window)
      requires Fits(w)
      ensures Valid() && published == w
    {
      published := w;
    }

    /** A save: the draft is a copy of the window, not of the array. */
    method Save(a: Attempt, urlOk: string -> bool) returns (ok: bool)
      requires Valid()
      modifies this, published.arr
      ensures Valid()
      ensures ok <==> a.commits && Applied(old(Contents(published)), a.c, urlOk).Some?
      ensures Contents(published) == Next(old(Contents(published)), a, urlOk)
    {
      var draft := Mutate(published, a.c, urlOk);
      if draft.None? || !a.commits { return false; }
      published := draft.value;
      return true;
    }
  }

  // ----- when a refused save leaves the published list alone

  /** The request would write nothing new into the shared array: it adds; or it asks for
      what is already there; or the peer it removes is followed by copies of itself only. */
  ghost predicate Harmless(list: seq<Peer>, c: Change, urlOk: string -> bool) {
    Applied(list, c, urlOk).None?
    || match c
       case AddPeer(_) => true
       case UpdatePeer(name, url, enabled) =>
         var p := list[Find(list, name)];
         (url == "" || url == p.url) && (enabled.None? || enabled.value == p.enabled)
       case DeletePeer(name) =>
         forall j :: Find(list, name) <= j < |list| ==> list[j] == list[Find(list, name)]
  }

  lemma {:induction false} ConstantTail(list: seq<Peer>, i: nat, j: nat)
    requires i <= j < |list| && forall k :: i <= k < |list| - 1 ==> list[k] == list[k + 1]
    ensures list[j] == list[i]
  {
    if j > i {
      ConstantTail(list, i, j - 1);
      assert list[j - 1] == list[j - 1 + 1];
    }
  }

  lemma MovedDownSame(list: seq<Peer>, i: nat)
    requires i < |list|
    ensures Without(list, i) + [list[|list| - 1]] == list <==> forall j :: i <= j < |list| ==> list[j] == list[i]
  {
    var r := Without(list, i) + [list[|list| - 1]];
    assert forall k :: i <= k < |list| - 1 ==> r[k] == list[k + 1];
    if r == list {
      forall j | i <= j < |list| ensures list[j] == list[i] {
        ConstantTail(list, i, j);
      }
    }
  }

  /** A refused request leaves the published list alone exactly when it is harmless. */
  lemma RefusedUnseenIff(list: seq<Peer>, c: Change, urlOk: string -> bool)
    ensures Residue(list, c, urlOk) == list <==> Harmless(list, c, urlOk)
  {
    if Applied(list, c, urlOk).Some? {
      match c
      case AddPeer(_) =>
      case UpdatePeer(name, url, enabled) =>
        var i := Find(list, name);
        var e := Edited(list[i], url, enabled);
        assert list[i := e][i] == e;
        assert list[i := list[i]] == list;
      case DeletePeer(name) =>
        MovedDownSame(list, Find(list, name));
    }
  }

  ghost predicate DistinctNames(list: seq<Peer>) {
    forall i, j :: 0 <= i < j < |list| ==> list[i].name != list[j].name
  }

  /** With distinct names a refused delete goes unseen only for the last peer. */
  lemma RefusedDeleteUnseenIff(list: seq<Peer>, name: string, urlOk: string -> bool)
    requires DistinctNames(list)
    ensures Residue(list, DeletePeer(name), urlOk) == list <==> Find(list, name) < 0 || Find(list, name) == |list| - 1
  {
    RefusedUnseenIff(list, DeletePeer(name), urlOk);
    var i := Find(list, name);
    if 0 <= i < |list| - 1 {
      assert list[i].name != list[i + 1].name;
    }
  }

  /** Two peers, the first of which is deleted and the save refused: the published list
      now names the second one twice, and a second attempt no longer finds the first. */
  lemma RefusedDeleteShows(p: Peer, q: Peer, urlOk: string -> bool)
    requires p.name != q.name
    ensures Residue([p, q], DeletePeer(p.name), urlOk) == [q, q]
    ensures Applied([q, q], DeletePeer(p.name), urlOk).None?
  {
    var list := [p, q];
    assert Find(list, p.name) == 0;
    assert Without(list, 0) == [q];
    assert forall j :: 0 <= j < 2 ==> [q, q][j].name != p.name;
  }

  // ----- whole runs

  /** What the store publishes after a run of requests. */
  function After(list: seq<Peer>, run: seq<Attempt>, urlOk: string -> bool): seq<Peer> {
    if run == [] then list else Next(After(list, run[..|run| - 1], urlOk), run[|run| - 1], urlOk)
  }

  /** What it should publish: the committed requests, and nothing else. */
  function Intended(list: seq<Peer>, run: seq<Attempt>, urlOk: string -> bool): seq<Peer> {
    if run == [] then list
    else
      var before, a := Intended(list, run[..|run| - 1], urlOk), run[|run| - 1];
      var r := Applied(before, a.c, urlOk);
      if a.commits && r.Some? then r.value else before
  }

  ghost predicate Faithful(list: seq<Peer>, run: seq<Attempt>, urlOk: string -> bool) {
    forall n :: 0 <= n <= |run| ==> After(list, run[..n], urlOk) == Intended(list, run[..n], urlOk)
  }

  /** Every refused request was harmless when it came. */
  ghost predicate RefusalsHarmless(list: seq<Peer>, run: seq<Attempt>, urlOk: string -> bool) {
    forall n :: 0 <= n < |run| && !run[n].commits ==> Harmless(After(list, run[..n], urlOk), run[n].c, urlOk)
  }

  lemma AfterNext(list: seq<Peer>, run: seq<Attempt>, urlOk: string -> bool, n: nat)
    requires n < |run|
    ensures After(list, run[..n + 1], urlOk) == Next(After(list, run[..n], urlOk), run[n], urlOk)
    ensures var before := Intended(list, run[..n], urlOk);
            var r := Applied(before, run[n].c, urlOk);
            Intended(list, run[..n + 1], urlOk) == if run[n].commits && r.Some? then r.value else before
  {
    assert run[..n + 1][..n] == run[..n];
  }

  lemma {:induction false} HarmlessRunFaithful(list: seq<Peer>, run: seq<Attempt>, urlOk: string -> bool, n: nat)
    requires RefusalsHarmless(list, run, urlOk) && n <= |run|
    ensures After(list, run[..n], urlOk) == Intended(list, run[..n], urlOk)
  {
    if n > 0 {
      HarmlessRunFaithful(list, run, urlOk, n - 1);
      AfterNext(list, run, urlOk, n - 1);
      RefusedUnseenIff(After(list, run[..n - 1], urlOk), run[n - 1].c, urlOk);
    }
  }

  /** Over a whole run the published list is at every point the committed requests' and
      nothing else's exactly when every refused request was harmless when it came. */
  lemma FaithfulIff(list: seq<Peer>, run: seq<Attempt>, urlOk: string -> bool)
    ensures Faithful(list, run, urlOk) <==> RefusalsHarmless(list, run, urlOk)
  {
    if RefusalsHarmless(list, run, urlOk) {
      forall n | 0 <= n <= |run| ensures After(list, run[..n], urlOk) == Intended(list, run[..n], urlOk) {
        HarmlessRunFaithful(list, run, urlOk, n);
      }
    } else {
      var n :| 0 <= n < |run| && !run[n].commits && !Harmless(After(list, run[..n], urlOk), run[n].c, urlOk);
      AfterNext(list, run, urlOk, n);
      RefusedUnseenIff(After(list, run[..n], urlOk), run[n].c, urlOk);
      assert After(list, run[..n], urlOk) == Intended(list, run[..n], urlOk)
        ==> After(list, run[..n + 1], urlOk) != Intended(list, run[..n + 1], urlOk);
    }
  }

  // ----- what a request asks for

  ghost predicate NoneNamed(list: seq<Peer>, name: string) {
    forall i :: 0 <= i < |list| ==> list[i].name != name
  }

  /** The first peer of that name is at `h`. */
  ghost predicate FirstNamed(list: seq<Peer>, name: string, h: int) {
    0 <= h < |list| && list[h].name == name && NoneNamed(list[..h], name)
  }

  lemma FindIs(list: seq<Peer>, name: string)
    ensures Find(list, name) < 0 <==> NoneNamed(list, name)
    ensures Find(list, name) >= 0 ==> FirstNamed(list, name, Find(list, name))
  {
  }

  /** A peer is added at the end unless its name is taken. */
  lemma AddSays(list: seq<Peer>, p: Peer, urlOk: string -> bool)
    ensures Applied(list, AddPeer(p), urlOk) == if NoneNamed(list, p.name) then Some(list + [p]) else None
  {
    FindIs(list, p.name);
  }

  /** An update changes the first peer of that name, and of it the fields that are given. */
  lemma UpdateSays(list: seq<Peer>, name: string, url: string, enabled: Option<bool>, urlOk: string -> bool, h: int)
    requires FirstNamed(list, name, h)
    ensures var r := Applied(list, UpdatePeer(name, url, enabled), urlOk);
            && (r.Some? <==> url == "" || urlOk(url))
            && (r.Some? ==>
                  && |r.value| == |list| && (forall i :: 0 <= i < |list| && i != h ==> r.value[i] == list[i])
                  && r.value[h].name == name
                  && r.value[h].url == (if url != "" then url else list[h].url)
                  && r.value[h].enabled == (if enabled.Some? then enabled.value else list[h].enabled))
  {
    FindIs(list, name);
    assert Find(list, name) == h;
  }

  /** A delete takes out the first peer of that name. */
  lemma DeleteSays(list: seq<Peer>, name: string, urlOk: string -> bool, h: int)
    requires FirstNamed(list, name, h)
    ensures Applied(list, DeletePeer(name), urlOk) == Some(list[..h] + list[h + 1..])
  {
    FindIs(list, name);
    assert Find(list, name) == h;
  }

  /** Neither finds a name that is not there. */
  lemma MissingSays(list: seq<Peer>, name: string, url: string, enabled: Option<bool>, urlOk: string -> bool)
    requires NoneNamed(list, name)
    ensures Applied(list, UpdatePeer(name, url, enabled), urlOk).None? && Applied(list, DeletePeer(name), urlOk).None?
  {
    FindIs(list, name);
  }
}

/** Normalising an item's list of peers (internal/server/server.go) and what that
    does to who receives the item (internal/config/config.go). */
module PeerList {
  import opened Text
  import opened Config

  predicate Blank(p: string) {
    TrimSpace(p) == ""
  }

  function AddName(sofar: seq<string>, q: string): seq<string> {
    var p := TrimSpace(q);
    if p == "" || Names(sofar, ToLower(p)) then sofar else sofar + [p]
  }

  /** Trimmed names, blanks dropped, first spelling of each name kept. */
  function Normal(peers: seq<string>): seq<string> {
    if peers == [] then [] else AddName(Normal(peers[..|peers| - 1]), peers[|peers| - 1])
  }

  method NormalizePeerList(peers: seq<string>) returns (out: seq<string>)
    ensures out == Normal(peers)
  {
    out := [];
    var seen: set<string> := {};
    for i := 0 to |peers|
      invariant out == Normal(peers[..i])
      invariant forall key :: key in seen <==> Names(out, key)
    {
      assert peers[..i + 1][..i] == peers[..i];
      var p := TrimSpace(peers[i]);
      if p == "" { continue; }
      var key := ToLower(p);
      if key in seen { continue; }
      forall k ensures Names(out + [p], k) <==> Names(out, k) || k == key {
        TrimSpaceIdempotent(peers[i]);
        NamesSnoc(out, p, k);
      }
      seen := seen + {key};
      out := out + [p];
    }
    assert peers[..|peers|] == peers;
  }

  lemma NamesSnoc(peers: seq<string>, p: string, key: string)
    ensures Names(peers + [p], key) <==> Names(peers, key) || PeerKey(p) == key
  {
    assert (peers + [p])[..|peers|] == peers;
  }

  predicate IsTrimmedName(p: string) {
    p != "" && TrimSpace(p) == p
  }

  ghost predicate AllTrimmedNames(peers: seq<string>) {
    forall i :: 0 <= i < |peers| ==> IsTrimmedName(peers[i])
  }

  ghost predicate KeysDistinct(peers: seq<string>) {
    forall i, j :: 0 <= i < j < |peers| ==> PeerKey(peers[i]) != PeerKey(peers[j])
  }

  /** Every entry is a trimmed, non-blank name, and no two differ only by case. */
  ghost predicate Clean(peers: seq<string>) {
    AllTrimmedNames(peers) && KeysDistinct(peers)
  }

  lemma TrimmedKey(p: string)
    ensures PeerKey(TrimSpace(p)) == PeerKey(p) == ToLower(TrimSpace(p))
    ensures TrimSpace(p) != "" ==> IsTrimmedName(TrimSpace(p))
  {
    TrimSpaceIdempotent(p);
  }

  lemma NewKeyDistinct(peers: seq<string>, p: string, key: string)
    requires KeysDistinct(peers) && key == PeerKey(p)
    ensures KeysDistinct(peers + [p]) <==> !Names(peers, key)
  {
    NamesMember(peers, key);
    var all := peers + [p];
    if !Names(peers, key) {
      forall i, j | 0 <= i < j < |all| ensures PeerKey(all[i]) != PeerKey(all[j]) {
        assert i < |peers| && all[i] == peers[i] && peers[i] in peers;
      }
    } else {
      var q :| q in peers && PeerKey(q) == key;
      var i :| 0 <= i < |peers| && peers[i] == q;
      assert all[i] == q && all[|peers|] == p;
    }
  }

  lemma {:induction false} NormalIsClean(peers: seq<string>)
    ensures Clean(Normal(peers))
  {
    if peers != [] {
      var n := |peers| - 1;
      NormalIsClean(peers[..n]);
      TrimmedKey(peers[n]);
      NewKeyDistinct(Normal(peers[..n]), TrimSpace(peers[n]), ToLower(TrimSpace(peers[n])));
    }
  }

  lemma CleanPrefix(peers: seq<string>, n: nat)
    requires Clean(peers) && n < |peers|
    ensures Clean(peers[..n]) && IsTrimmedName(peers[n])
    ensures n == |peers| - 1 ==> !Names(peers[..n], PeerKey(peers[n]))
  {
    if n == |peers| - 1 {
      NewKeyDistinct(peers[..n], peers[n], PeerKey(peers[n]));
      assert peers[..n] + [peers[n]] == peers;
    }
  }

  lemma {:induction false} CleanIsNormal(peers: seq<string>)
    requires Clean(peers)
    ensures Normal(peers) == peers
  {
    if peers != [] {
      var n := |peers| - 1;
      CleanPrefix(peers, n);
      CleanIsNormal(peers[..n]);
      assert peers == peers[..n] + [peers[n]];
    }
  }

  lemma NormalIdempotent(peers: seq<string>)
    ensures Normal(Normal(peers)) == Normal(peers)
  {
    NormalIsClean(peers);
    CleanIsNormal(Normal(peers));
  }

  lemma EmptyKeyIsBlank(p: string)
    ensures PeerKey(p) == "" <==> Blank(p)
  {
  }

  /** Adding one name to a list that already has the same named keys. */
  lemma NormalStepNames(sofar: seq<string>, before: seq<string>, q: string, key: string)
    requires Names(sofar, key) <==> key != "" && Names(before, key)
    ensures Names(AddName(sofar, q), key) <==> key != "" && Names(before + [q], key)
  {
    TrimmedKey(q);
    EmptyKeyIsBlank(q);
    NamesSnoc(before, q, key);
    NamesSnoc(sofar, TrimSpace(q), key);
  }

  /** The same names, save the blank one. */
  lemma {:induction false} NormalKeepsNames(peers: seq<string>, key: string)
    ensures Names(Normal(peers), key) <==> key != "" && Names(peers, key)
  {
    if peers != [] {
      var before, q := peers[..|peers| - 1], peers[|peers| - 1];
      NormalKeepsNames(before, key);
      NormalStepNames(Normal(before), before, q, key);
      assert before + [q] == peers;
    }
  }

  ghost predicate HasBlank(peers: seq<string>) {
    exists p :: p in peers && Blank(p)
  }

  ghost predicate HasName(peers: seq<string>) {
    exists p :: p in peers && !Blank(p)
  }

  lemma NormalEmptyIff(peers: seq<string>)
    ensures Normal(peers) == [] <==> !HasName(peers)
  {
    NormalIsClean(peers);
    if Normal(peers) != [] {
      var key := PeerKey(Normal(peers)[0]);
      EmptyKeyIsBlank(Normal(peers)[0]);
      NamesMember(Normal(peers), key);
      assert Normal(peers)[0] in Normal(peers);
      NormalKeepsNames(peers, key);
      NamesMember(peers, key);
      var p :| p in peers && PeerKey(p) == key;
      EmptyKeyIsBlank(p);
    }
    if HasName(peers) {
      var p :| p in peers && !Blank(p);
      EmptyKeyIsBlank(p);
      NamesMember(peers, PeerKey(p));
      NormalKeepsNames(peers, PeerKey(p));
    }
  }

  /** Exactly when normalising leaves the verdict for a peer alone. A list of
      nothing but blanks, which reached no named peer, becomes the empty list,
      which reaches all of them. */
  lemma NormalisingPreservesVerdict(doNotSync: bool, peers: seq<string>, peer: string)
    ensures SyncsToPeer(doNotSync, Normal(peers), peer) == SyncsToPeer(doNotSync, peers, peer)
       <==> doNotSync || peers == []
            || (if Blank(peer) then !(HasBlank(peers) && HasName(peers)) else HasName(peers))
  {
    var key := PeerKey(peer);
    EmptyKeyIsBlank(peer);
    NormalKeepsNames(peers, key);
    NormalEmptyIff(peers);
    if peers != [] {
      BlankNames(peers);
      if !HasName(peers) {
        OnlyBlankNames(peers, key);
        assert peers[0] in peers;
      }
    }
  }

  lemma BlankNames(peers: seq<string>)
    ensures Names(peers, "") <==> HasBlank(peers)
  {
    NamesMember(peers, "");
    if Names(peers, "") {
      var p :| p in peers && PeerKey(p) == "";
      EmptyKeyIsBlank(p);
    }
    if HasBlank(peers) {
      var p :| p in peers && Blank(p);
      EmptyKeyIsBlank(p);
    }
  }

  lemma OnlyBlankNames(peers: seq<string>, key: string)
    requires !HasName(peers)
    ensures Names(peers, key) ==> key == ""
  {
    NamesMember(peers, key);
    if Names(peers, key) {
      var p :| p in peers && PeerKey(p) == key;
      EmptyKeyIsBlank(p);
    }
  }

  // ----- which spellings are kept, and in which order

  /** A name that is not blank and has not come before, up to case and blanks. */
  ghost predicate FirstOfItsName(peers: seq<string>, i: int) {
    0 <= i < |peers| && TrimSpace(peers[i]) != ""
    && forall j :: 0 <= j < i ==> ToLower(TrimSpace(peers[j])) != ToLower(TrimSpace(peers[i]))
  }

  /** One more entry adds its trimmed form at the end exactly when it is the first of its
      name. */
  lemma NormalGrows(peers: seq<string>, q: string)
    ensures Normal(peers + [q])
         == if FirstOfItsName(peers + [q], |peers|) then Normal(peers) + [TrimSpace(q)] else Normal(peers)
  {
    var all, key := peers + [q], ToLower(TrimSpace(q));
    assert all[..|peers|] == peers;
    NormalKeepsNames(peers, key);
    NamesMember(peers, key);
    if Names(peers, key) {
      var p :| p in peers && PeerKey(p) == key;
      var j :| 0 <= j < |peers| && peers[j] == p;
      assert all[j] == p;
    } else {
      forall j | 0 <= j < |peers| ensures ToLower(TrimSpace(all[j])) != key {
        assert all[j] in peers && PeerKey(all[j]) == ToLower(TrimSpace(all[j]));
      }
    }
  }
}

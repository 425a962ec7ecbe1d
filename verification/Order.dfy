/** Picking elements out of a sequence: what filtering loops owe. */
module Order {

  /** Positions below `n`, each before the next. */
  ghost predicate Rising(at: seq<int>, n: nat) {
    (forall a :: 0 <= a < |at| ==> 0 <= at[a] < n)
    && (forall a, b :: 0 <= a < b < |at| ==> at[a] < at[b])
  }

  /** `ys` sits in `xs` at those positions, which are exactly the ones that pass. */
  ghost predicate PickedAt<T>(xs: seq<T>, keep: T -> bool, ys: seq<T>, at: seq<int>) {
    Rising(at, |xs|) && |ys| == |at|
    && (forall a :: 0 <= a < |at| ==> ys[a] == xs[at[a]])
    && (forall i :: 0 <= i < |xs| ==> (i in at <==> keep(xs[i])))
  }

  /** `ys` are the elements of `xs` that pass, in order and with their repeats. */
  ghost predicate Picked<T>(xs: seq<T>, keep: T -> bool, ys: seq<T>) {
    exists at :: PickedAt(xs, keep, ys, at)
  }

  lemma PickedNone<T>(keep: T -> bool)
    ensures Picked([], keep, [])
  {
    assert PickedAt([], keep, [], []);
  }

  lemma PositionsSnoc(at: seq<int>, n: nat, i: int)
    ensures i in at + [n] <==> i in at || i == n
  {
  }

  lemma PickedOneMore<T>(xs: seq<T>, x: T, keep: T -> bool, ys: seq<T>, at: seq<int>)
    requires PickedAt(xs, keep, ys, at) && keep(x)
    ensures PickedAt(xs + [x], keep, ys + [x], at + [|xs|])
  {
    var all := xs + [x];
    forall i | 0 <= i < |all| ensures i in at + [|xs|] <==> keep(all[i]) {
      PositionsSnoc(at, |xs|, i);
      if i < |xs| { assert all[i] == xs[i]; }
    }
  }

  lemma PickedNoMore<T>(xs: seq<T>, x: T, keep: T -> bool, ys: seq<T>, at: seq<int>)
    requires PickedAt(xs, keep, ys, at) && !keep(x)
    ensures PickedAt(xs + [x], keep, ys, at)
  {
    var all := xs + [x];
    forall i | 0 <= i < |all| ensures i in at <==> keep(all[i]) {
      if i < |xs| { assert all[i] == xs[i]; }
    }
  }

  lemma PickedSnoc<T>(xs: seq<T>, x: T, keep: T -> bool, ys: seq<T>)
    requires Picked(xs, keep, ys)
    ensures Picked(xs + [x], keep, if keep(x) then ys + [x] else ys)
  {
    var at :| PickedAt(xs, keep, ys, at);
    if keep(x) {
      PickedOneMore(xs, x, keep, ys, at);
    } else {
      PickedNoMore(xs, x, keep, ys, at);
    }
  }

  lemma PickedMembers<T>(xs: seq<T>, keep: T -> bool, ys: seq<T>)
    requires Picked(xs, keep, ys)
    ensures forall y :: y in ys <==> y in xs && keep(y)
  {
    var at :| PickedAt(xs, keep, ys, at);
    forall y ensures y in ys <==> y in xs && keep(y) {
      if y in ys {
        var a :| 0 <= a < |ys| && ys[a] == y;
        assert at[a] in at;
      }
      if y in xs && keep(y) {
        var i :| 0 <= i < |xs| && xs[i] == y;
        var a :| 0 <= a < |at| && at[a] == i;
        assert ys[a] == y;
      }
    }
  }
}

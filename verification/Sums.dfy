/** Sums of a weight over a sequence. */
module Sums {
  function SumBy<T>(xs: seq<T>, weight: T -> int): int {
    if xs == [] then 0 else weight(xs[0]) + SumBy(xs[1..], weight)
  }

  lemma ConcatAssoc<T>(xs: seq<T>, ys: seq<T>, zs: seq<T>)
    ensures xs + (ys + zs) == (xs + ys) + zs
  {
  }

  lemma ConcatHead<T>(xs: seq<T>, ys: seq<T>)
    requires xs != []
    ensures (xs + ys)[0] == xs[0] && (xs + ys)[1..] == xs[1..] + ys
  {
  }

  lemma DropNext<T>(xs: seq<T>, n: nat)
    requires n < |xs|
    ensures xs[n..][1..] == xs[n + 1..]
  {
  }

  lemma UpdateElsewhere<T>(xs: seq<T>, i: nat, x: T)
    requires i < |xs|
    ensures forall t :: 0 <= t < |xs| && t != i ==> xs[i := x][t] == xs[t]
  {
  }

  lemma SumOne<T>(x: T, weight: T -> int)
    ensures SumBy([x], weight) == weight(x)
  {
    assert [x][1..] == [];
  }

  lemma {:induction false} SumConcat<T>(xs: seq<T>, ys: seq<T>, weight: T -> int)
    ensures SumBy(xs + ys, weight) == SumBy(xs, weight) + SumBy(ys, weight)
  {
    if xs == [] {
      assert xs + ys == ys;
    } else {
      assert (xs + ys)[1..] == xs[1..] + ys;
      SumConcat(xs[1..], ys, weight);
    }
  }

  lemma {:induction false} SumUpdate<T>(xs: seq<T>, i: nat, x: T, weight: T -> int)
    requires i < |xs|
    ensures SumBy(xs[i := x], weight) == SumBy(xs, weight) - weight(xs[i]) + weight(x)
  {
    if i == 0 {
      assert xs[0 := x][1..] == xs[1..];
    } else {
      assert xs[i := x][1..] == xs[1..][i - 1 := x];
      SumUpdate(xs[1..], i - 1, x, weight);
    }
  }

  lemma {:induction false} SumNonNegative<T>(xs: seq<T>, weight: T -> int)
    requires forall x :: x in xs ==> weight(x) >= 0
    ensures SumBy(xs, weight) >= 0
    ensures forall x :: x in xs ==> weight(x) <= SumBy(xs, weight)
  {
    if xs != [] {
      SumNonNegative(xs[1..], weight);
    }
  }

  /** Reversing a sequence and changing its elements without changing their weight keeps the sum. */
  lemma {:induction false} SumReversed<S, T>(xs: seq<S>, ys: seq<T>, weight: S -> int, weight': T -> int)
    requires |xs| == |ys|
    requires forall k :: 0 <= k < |xs| ==> weight(xs[k]) == weight'(ys[|ys| - 1 - k])
    ensures SumBy(xs, weight) == SumBy(ys, weight')
  {
    if xs != [] {
      var n := |ys| - 1;
      assert ys == ys[..n] + [ys[n]];
      SumConcat(ys[..n], [ys[n]], weight');
      assert weight(xs[0]) == weight'(ys[n]);
      assert SumBy([ys[n]], weight') == weight'(ys[n]);
      forall k | 0 <= k < |xs[1..]|
        ensures weight(xs[1..][k]) == weight'(ys[..n][|ys[..n]| - 1 - k])
      {
        assert weight(xs[k + 1]) == weight'(ys[|ys| - 1 - (k + 1)]);
      }
      SumReversed(xs[1..], ys[..n], weight, weight');
    }
  }
}

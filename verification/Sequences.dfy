/** Sequence operations shared by the model: pandas-style boolean-mask filtering,
    the order-preserving subsequence relation, and the numpy reductions
    `max`, `sum` and `mean` over exact reals. */
module Seqs {

  function Min(a: nat, b: nat): nat {
    if a <= b then a else b
  }

  /** `xs` can be obtained from `ys` by deleting elements, keeping the order. */
  predicate IsSubsequence<T(==)>(xs: seq<T>, ys: seq<T>)
    decreases |ys|
  {
    if |xs| == 0 then true
    else if |ys| == 0 then false
    else (xs[0] == ys[0] && IsSubsequence(xs[1..], ys[1..])) || IsSubsequence(xs, ys[1..])
  }

  lemma {:induction false} SubsequenceTransitive<T>(xs: seq<T>, ys: seq<T>, zs: seq<T>)
    requires IsSubsequence(xs, ys) && IsSubsequence(ys, zs)
    ensures IsSubsequence(xs, zs)
    decreases |zs|
  {
    if |xs| == 0 {
    } else if IsSubsequence(ys, zs[1..]) {
      SubsequenceTransitive(xs, ys, zs[1..]);
    } else {
      assert ys[0] == zs[0] && IsSubsequence(ys[1..], zs[1..]);
      if xs[0] == ys[0] && IsSubsequence(xs[1..], ys[1..]) {
        SubsequenceTransitive(xs[1..], ys[1..], zs[1..]);
      } else {
        SubsequenceTransitive(xs, ys[1..], zs[1..]);
      }
    }
  }

  /** `df[mask]`: the elements of `s` that satisfy `keep`, in their original order. */
  function Filter<T(==)>(s: seq<T>, keep: T -> bool): (r: seq<T>)
    ensures forall x | x in r :: x in s && keep(x)
    ensures forall x | x in s && keep(x) :: x in r
    ensures forall x | x in s :: multiset(r)[x] == if keep(x) then multiset(s)[x] else 0
    ensures IsSubsequence(r, s)
    ensures |r| <= |s|
    decreases |s|
  {
    if |s| == 0 then []
    else
      var rest := Filter(s[1..], keep);
      FilterCountStep(s, keep, rest);
      if keep(s[0]) then
        assert ([s[0]] + rest)[1..] == rest;
        [s[0]] + rest
      else rest
  }

  /** The multiplicities of a filter step: keeping or dropping the head of `s`
      in front of a filter of its tail. */
  lemma FilterCountStep<T>(s: seq<T>, keep: T -> bool, rest: seq<T>)
    requires |s| > 0
    requires forall x | x in rest :: x in s[1..]
    requires forall x | x in s[1..] :: multiset(rest)[x] == if keep(x) then multiset(s[1..])[x] else 0
    ensures var r := if keep(s[0]) then [s[0]] + rest else rest;
      forall x | x in s :: multiset(r)[x] == if keep(x) then multiset(s)[x] else 0
  {
    var r := if keep(s[0]) then [s[0]] + rest else rest;
    assert s == [s[0]] + s[1..];
    assert multiset(s) == multiset{s[0]} + multiset(s[1..]);
    forall x | x in s
      ensures multiset(r)[x] == if keep(x) then multiset(s)[x] else 0
    {
      if x !in s[1..] {
        assert multiset(rest)[x] == 0 && multiset(s[1..])[x] == 0;
      }
    }
  }

  /** Filtering by a predicate every element already satisfies changes nothing. */
  lemma {:induction false} FilterAllKept<T>(s: seq<T>, keep: T -> bool)
    requires forall i | 0 <= i < |s| :: keep(s[i])
    ensures Filter(s, keep) == s
    decreases |s|
  {
    if |s| > 0 {
      FilterAllKept(s[1..], keep);
    }
  }

  /** Two filters in a row are one filter by the conjunction. */
  lemma {:induction false} FilterFilter<T>(s: seq<T>, first: T -> bool, second: T -> bool, both: T -> bool)
    requires forall x :: both(x) == (first(x) && second(x))
    ensures Filter(Filter(s, first), second) == Filter(s, both)
    decreases |s|
  {
    if |s| > 0 {
      FilterFilter(s[1..], first, second, both);
    }
  }

  /** numpy's `max` of a non-empty array. */
  function Max(xs: seq<real>): (m: real)
    requires |xs| > 0
    ensures forall i | 0 <= i < |xs| :: xs[i] <= m
    ensures exists i | 0 <= i < |xs| :: xs[i] == m
  {
    if |xs| == 1 then xs[0]
    else
      var rest := Max(xs[1..]);
      assert forall i | 1 <= i < |xs| :: xs[i] == xs[1..][i - 1];
      if xs[0] >= rest then xs[0] else rest
  }

  function Sum(xs: seq<real>): real {
    if |xs| == 0 then 0.0 else xs[0] + Sum(xs[1..])
  }

  /** numpy's `mean` of a non-empty array. */
  function Mean(xs: seq<real>): real
    requires |xs| > 0
  {
    Sum(xs) / |xs| as real
  }

  predicate AllNonNegative(xs: seq<real>) {
    forall i | 0 <= i < |xs| :: xs[i] >= 0.0
  }

  lemma {:induction false} SumBounds(xs: seq<real>, bound: real)
    requires AllNonNegative(xs)
    requires forall i | 0 <= i < |xs| :: xs[i] <= bound
    ensures 0.0 <= Sum(xs) <= |xs| as real * bound
    decreases |xs|
  {
    if |xs| > 0 {
      assert forall i | 0 <= i < |xs| - 1 :: xs[1..][i] == xs[i + 1];
      SumBounds(xs[1..], bound);
    }
  }

  /** For non-negative data the mean lies between 0 and the maximum. */
  lemma {:induction false} MeanBetweenZeroAndMax(xs: seq<real>)
    requires |xs| > 0
    requires AllNonNegative(xs)
    ensures 0.0 <= Mean(xs) <= Max(xs)
  {
    SumBounds(xs, Max(xs));
    QuotientBounds(Sum(xs), |xs| as real, Max(xs));
  }

  lemma QuotientBounds(total: real, n: real, bound: real)
    requires n > 0.0
    requires 0.0 <= total <= n * bound
    ensures 0.0 <= total / n <= bound
  {
    var q := total / n;
    assert q * n == total;
    if q > bound {
      assert q * n > bound * n;
    }
  }
}

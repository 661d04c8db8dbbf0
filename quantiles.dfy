/**
  pandas' default quantile (`interpolation='linear'`) over exact reals, and
  the sort it is computed on.
 */
module Quantiles {

  predicate Sorted(x: seq<real>)
  {
    forall i, j :: 0 <= i <= j < |x| ==> x[i] <= x[j]
  }

  function Insert(v: real, x: seq<real>): (r: seq<real>)
    requires Sorted(x)
    ensures Sorted(r)
    ensures multiset(r) == multiset(x) + multiset{v}
  {
    if x == [] || v <= x[0] then [v] + x
    else
      var rest := Insert(v, x[1..]);
      assert multiset(x) == multiset{x[0]} + multiset(x[1..]) by {
        assert x == [x[0]] + x[1..];
      }
      LowerBoundOfInsert(x[0], v, x[1..], rest);
      [x[0]] + rest
  }

  lemma LowerBoundOfInsert(b: real, v: real, x: seq<real>, r: seq<real>)
    requires b <= v && (forall i :: 0 <= i < |x| ==> b <= x[i])
    requires Sorted(r) && multiset(r) == multiset(x) + multiset{v}
    ensures Sorted([b] + r)
  {
    forall j | 0 <= j < |r|
      ensures b <= r[j]
    {
      assert r[j] in multiset(r);
      if r[j] != v {
        assert r[j] in multiset(x);
        assert r[j] in x;
      }
    }
  }

  /** The ascending arrangement of a column's values. */
  function Sort(x: seq<real>): (r: seq<real>)
    ensures Sorted(r)
    ensures multiset(r) == multiset(x)
  {
    if x == [] then []
    else
      assert x == [x[0]] + x[1..];
      Insert(x[0], Sort(x[1..]))
  }

  /** A multiset has only one ascending arrangement, so the quantiles of a column do not depend on its row order. */
  lemma {:induction false} SortedUnique(a: seq<real>, b: seq<real>)
    requires Sorted(a) && Sorted(b) && multiset(a) == multiset(b)
    ensures a == b
    decreases |a|
  {
    assert |a| == |multiset(a)| == |b|;
    if a != [] {
      assert a[0] in multiset(b) && b[0] in multiset(a);
      assert a[0] == b[0];
      assert a == [a[0]] + a[1..] && b == [b[0]] + b[1..];
      assert multiset(a) == multiset{a[0]} + multiset(a[1..]);
      assert multiset(b) == multiset{b[0]} + multiset(b[1..]);
      forall y ensures multiset(a[1..])[y] == multiset(b[1..])[y] {
        assert multiset(a)[y] == multiset(b)[y];
      }
      assert multiset(a[1..]) == multiset(b[1..]);
      SortedUnique(a[1..], b[1..]);
    }
  }

  /** The fractional position `(n - 1) * p` of the `p`-quantile among `n` sorted values. */
  function Rank(n: nat, p: real): real
  {
    (n - 1) as real * p
  }

  lemma NonnegativeProduct(a: real, b: real)
    requires 0.0 <= a && 0.0 <= b
    ensures 0.0 <= a * b
  {
  }

  /** The rank of a probability lies between the first and the last index. */
  lemma RankBounds(n: nat, p: real)
    requires n > 0 && 0.0 <= p <= 1.0
    ensures 0.0 <= Rank(n, p) <= (n - 1) as real
  {
    var c := (n - 1) as real;
    NonnegativeProduct(c, p);
    NonnegativeProduct(c, 1.0 - p);
    assert c - Rank(n, p) == c * (1.0 - p);
  }

  /** Index of the sorted value at or below the `p`-quantile. */
  function LowIndex(n: nat, p: real): (k: nat)
    requires n > 0 && 0.0 <= p <= 1.0
    ensures k < n
    ensures k as real <= Rank(n, p) < k as real + 1.0
  {
    RankBounds(n, p);
    var k := Rank(n, p).Floor;
    assert k as real <= (n - 1) as real;
    k
  }

  /** Index of the sorted value at or above the `p`-quantile. */
  function HighIndex(n: nat, p: real): (k: nat)
    requires n > 0 && 0.0 <= p <= 1.0
    ensures LowIndex(n, p) <= k < n
  {
    if LowIndex(n, p) + 1 < n then LowIndex(n, p) + 1 else LowIndex(n, p)
  }

  lemma MulLeft(a: real, b: real, c: real)
    requires a <= b && 0.0 <= c
    ensures a * c <= b * c && c * a <= c * b
  {
    assert (b - a) * c >= 0.0;
  }

  /** The point a fraction `t` of the way from `lo` to `hi`. */
  function Lerp(lo: real, hi: real, t: real): real
  {
    lo + t * (hi - lo)
  }

  lemma Between(lo: real, hi: real, t: real)
    requires lo <= hi && 0.0 <= t <= 1.0
    ensures lo <= Lerp(lo, hi, t) <= hi
  {
    MulLeft(0.0, t, hi - lo);
    MulLeft(t, 1.0, hi - lo);
  }

  /**
    `Series.quantile(p)` of the sorted values `x`: at rank `h = (n - 1) * p`,
    the point `h - floor h` of the way from `x[floor h]` to `x[floor h + 1]`
    (just `x[n - 1]` when `h` is the last index).
   */
  function Quantile(x: seq<real>, p: real): (q: real)
    requires |x| > 0 && Sorted(x) && 0.0 <= p <= 1.0
    ensures x[LowIndex(|x|, p)] <= q <= x[HighIndex(|x|, p)]
    ensures Rank(|x|, p) == LowIndex(|x|, p) as real ==> q == x[LowIndex(|x|, p)]
    ensures x[0] <= q <= x[|x| - 1]
  {
    var lo := LowIndex(|x|, p);
    var t := Rank(|x|, p) - lo as real;
    if lo + 1 < |x| then
      Between(x[lo], x[lo + 1], t);
      Lerp(x[lo], x[lo + 1], t)
    else x[lo]
  }

  lemma LerpMonotone(lo: real, hi: real, t1: real, t2: real)
    requires lo <= hi && t1 <= t2
    ensures Lerp(lo, hi, t1) <= Lerp(lo, hi, t2)
  {
    MulLeft(t1, t2, hi - lo);
  }

  lemma RankMonotone(n: nat, p1: real, p2: real)
    requires n > 0 && p1 <= p2
    ensures Rank(n, p1) <= Rank(n, p2)
  {
    var c := (n - 1) as real;
    NonnegativeProduct(c, p2 - p1);
    assert Rank(n, p2) - Rank(n, p1) == c * (p2 - p1);
  }

  /** A higher probability never gives a lower quantile. */
  lemma QuantileMonotone(x: seq<real>, p1: real, p2: real)
    requires |x| > 0 && Sorted(x) && 0.0 <= p1 <= p2 <= 1.0
    ensures Quantile(x, p1) <= Quantile(x, p2)
  {
    var n := |x|;
    RankMonotone(n, p1, p2);
    var lo1, lo2 := LowIndex(n, p1), LowIndex(n, p2);
    if lo1 < lo2 {
      assert Quantile(x, p1) <= x[HighIndex(n, p1)] <= x[lo2] <= Quantile(x, p2);
    } else {
      assert lo1 as real <= Rank(n, p1) <= Rank(n, p2) < lo2 as real + 1.0;
      SameCellMonotone(x, p1, p2);
    }
  }

  /** Two probabilities whose ranks fall between the same pair of sorted values. */
  lemma SameCellMonotone(x: seq<real>, p1: real, p2: real)
    requires |x| > 0 && Sorted(x) && 0.0 <= p1 <= p2 <= 1.0
    requires LowIndex(|x|, p1) == LowIndex(|x|, p2) && Rank(|x|, p1) <= Rank(|x|, p2)
    ensures Quantile(x, p1) <= Quantile(x, p2)
  {
    var lo := LowIndex(|x|, p1);
    if lo + 1 < |x| {
      LerpMonotone(x[lo], x[lo + 1], Rank(|x|, p1) - lo as real, Rank(|x|, p2) - lo as real);
    }
  }
}

/**
  The three outlier passes of `load_and_preprocess`: each keeps the rows whose
  value lies within 1.5 spreads of the 5th and 95th percentiles of the column,
  computed over the rows that survived the earlier passes.
 */
module OutlierFilter {
  import opened Aggregation
  import opened Quantiles
  import opened Subsequences

  /** The metric a pass filters on. */
  datatype Column = Amount | Frequency | MostRecentEngagement

  const LowerQuantile: real := 0.05
  const UpperQuantile: real := 0.95
  const Whisker: real := 1.5

  function Value(c: Customer, col: Column): real
  {
    match col
    case Amount => c.amount
    case Frequency => c.frequency as real
    case MostRecentEngagement => c.mostRecentEngagement as real
  }

  /** A column of the frame, in row order. */
  function ColumnValues(cs: seq<Customer>, col: Column): (vs: seq<real>)
    ensures |vs| == |cs| && forall i :: 0 <= i < |cs| ==> vs[i] == Value(cs[i], col)
  {
    seq(|cs|, i requires 0 <= i < |cs| => Value(cs[i], col))
  }

  /** The percentiles `q1`, `q2` of a pass and the closed interval they admit. */
  datatype Fence = Fence(q1: real, q2: real) {
    function Iqr(): real { q2 - q1 }
    function Lower(): real { q1 - Whisker * Iqr() }
    function Upper(): real { q2 + Whisker * Iqr() }
    /** The mask of one pass, both bounds inclusive; it always admits the band between the two percentiles. */
    predicate Admits(v: real)
      ensures q1 <= v <= q2 ==> Admits(v)
    {
      Lower() <= v && v <= Upper()
    }
  }

  /** Lines 42-44 (and 48-50, 54-56): the fence of one column of a non-empty frame. */
  function FenceOf(cs: seq<Customer>, col: Column): (f: Fence)
    requires |cs| > 0
    ensures f.q1 <= f.q2
    ensures forall v :: f.q1 <= v <= f.q2 ==> f.Admits(v)
  {
    var x := Sort(ColumnValues(cs, col));
    assert |x| == |multiset(x)| == |cs|;
    QuantileMonotone(x, LowerQuantile, UpperQuantile);
    Fence(Quantile(x, LowerQuantile), Quantile(x, UpperQuantile))
  }

  /** The boolean mask `(v >= q1 - 1.5*iqr) & (v <= q2 + 1.5*iqr)` applied to a frame. */
  function Select(cs: seq<Customer>, col: Column, f: Fence): (r: seq<Customer>)
    ensures IsSubsequence(r, cs)
    ensures forall c :: multiset(r)[c] == if f.Admits(Value(c, col)) then multiset(cs)[c] else 0
    decreases |cs|
  {
    if cs == [] then []
    else
      assert cs == [cs[0]] + cs[1..];
      var rest := Select(cs[1..], col, f);
      if f.Admits(Value(cs[0], col)) then
        assert ([cs[0]] + rest)[1..] == rest;
        [cs[0]] + rest
      else rest
  }

  /** One outlier pass. A frame with no rows has no percentiles (NaN), and the mask keeps nothing. */
  function Pass(cs: seq<Customer>, col: Column): (r: seq<Customer>)
    ensures IsSubsequence(r, cs)
    ensures cs == [] ==> r == []
    ensures cs != [] ==> forall c :: multiset(r)[c] == if FenceOf(cs, col).Admits(Value(c, col)) then multiset(cs)[c] else 0
    ensures cs != [] ==> r != []
  {
    if cs == [] then []
    else
      var r := Select(cs, col, FenceOf(cs, col));
      FenceAdmitsSomeRow(cs, col);
      assert r != [] by {
        var c :| c in cs && FenceOf(cs, col).Admits(Value(c, col));
        assert c in multiset(cs);
        assert c in multiset(r);
      }
      r
  }

  /** Some row of a non-empty frame always lies inside its own fence. */
  lemma FenceAdmitsSomeRow(cs: seq<Customer>, col: Column)
    requires |cs| > 0
    ensures exists c :: c in cs && FenceOf(cs, col).Admits(Value(c, col))
  {
    var vs := ColumnValues(cs, col);
    var x := Sort(vs);
    assert |x| == |multiset(x)| == |cs|;
    SortedWithinFence(x);
    var k :| 0 <= k < |x| && Fence(Quantile(x, LowerQuantile), Quantile(x, UpperQuantile)).Admits(x[k]);
    assert x[k] in multiset(vs);
    var i :| 0 <= i < |vs| && vs[i] == x[k];
    assert cs[i] in cs;
  }

  /**
    Some sorted value lies within the fence: the only value of a single row,
    the greater of two, and otherwise a value between the two percentiles.
   */
  lemma SortedWithinFence(x: seq<real>)
    requires |x| > 0 && Sorted(x)
    ensures exists k :: 0 <= k < |x| && Fence(Quantile(x, LowerQuantile), Quantile(x, UpperQuantile)).Admits(x[k])
  {
    var n := |x|;
    var q1, q2 := Quantile(x, LowerQuantile), Quantile(x, UpperQuantile);
    QuantileMonotone(x, LowerQuantile, UpperQuantile);
    if n == 1 {
      assert Fence(q1, q2).Admits(x[0]);
    } else if n == 2 {
      assert LowIndex(n, LowerQuantile) == 0 && LowIndex(n, UpperQuantile) == 0;
      assert q1 == x[0] + 0.05 * (x[1] - x[0]);
      assert q2 == x[0] + 0.95 * (x[1] - x[0]);
      assert Fence(q1, q2).Admits(x[1]);
    } else {
      var lo1, lo2 := LowIndex(n, LowerQuantile), LowIndex(n, UpperQuantile);
      assert Rank(n, UpperQuantile) - Rank(n, LowerQuantile) == 0.9 * (n - 1) as real;
      assert lo1 + 1 <= lo2;
      assert q1 <= x[HighIndex(n, LowerQuantile)] == x[lo1 + 1] <= x[lo2] <= q2;
      assert Fence(q1, q2).Admits(x[lo1 + 1]);
    }
  }

  /** Which rows survive one pass of a non-empty frame: exactly those inside the fence of that frame. */
  lemma PassMembership(cs: seq<Customer>, col: Column, c: Customer)
    requires cs != []
    ensures c in Pass(cs, col) <==> c in cs && FenceOf(cs, col).Admits(Value(c, col))
  {
    assert c in Pass(cs, col) <==> c in multiset(Pass(cs, col));
    assert c in cs <==> c in multiset(cs);
  }

  /** Every row whose value lies between the two percentiles survives its pass. */
  lemma PassKeepsPercentileBand(cs: seq<Customer>, col: Column, c: Customer)
    requires c in cs
    requires FenceOf(cs, col).q1 <= Value(c, col) <= FenceOf(cs, col).q2
    ensures c in Pass(cs, col)
  {
    PassMembership(cs, col, c);
  }

  /** The fence of a column depends only on the multiset of its values, not on the row order. */
  lemma FenceIgnoresRowOrder(a: seq<Customer>, b: seq<Customer>, col: Column)
    requires |a| > 0
    requires multiset(ColumnValues(a, col)) == multiset(ColumnValues(b, col))
    ensures |b| > 0 && FenceOf(a, col) == FenceOf(b, col)
  {
    assert |b| == |ColumnValues(b, col)| == |multiset(ColumnValues(b, col))| == |a|;
    SortedUnique(Sort(ColumnValues(a, col)), Sort(ColumnValues(b, col)));
  }

  /** Lines 41-57: the Amount, Frequency and Most_Recent_Engagement passes, in that order. */
  function RemoveOutliers(cs: seq<Customer>): (r: seq<Customer>)
    ensures IsSubsequence(r, cs)
    ensures cs != [] ==> r != []
  {
    var afterAmount := Pass(cs, Amount);
    var afterFrequency := Pass(afterAmount, Frequency);
    var r := Pass(afterFrequency, MostRecentEngagement);
    SubsequenceTransitive(r, afterFrequency, afterAmount);
    SubsequenceTransitive(r, afterAmount, cs);
    r
  }

  /**
    A customer is retained exactly when each of its three metrics lies inside
    the fence computed over the rows that survived the earlier passes.
   */
  lemma RemoveOutliersMembership(cs: seq<Customer>, c: Customer)
    ensures c in RemoveOutliers(cs) <==>
      && c in cs
      && FenceOf(cs, Amount).Admits(Value(c, Amount))
      && FenceOf(Pass(cs, Amount), Frequency).Admits(Value(c, Frequency))
      && FenceOf(Pass(Pass(cs, Amount), Frequency), MostRecentEngagement).Admits(Value(c, MostRecentEngagement))
  {
    if cs != [] {
      var afterAmount := Pass(cs, Amount);
      var afterFrequency := Pass(afterAmount, Frequency);
      PassMembership(cs, Amount, c);
      PassMembership(afterAmount, Frequency, c);
      PassMembership(afterFrequency, MostRecentEngagement, c);
    }
  }

  /** A mask that admits every row keeps the frame as it is. */
  lemma {:induction false} SelectAdmitted(cs: seq<Customer>, col: Column, f: Fence)
    requires forall c :: c in cs ==> f.Admits(Value(c, col))
    ensures Select(cs, col, f) == cs
    decreases |cs|
  {
    if cs != [] {
      assert cs[0] in cs;
      SelectAdmitted(cs[1..], col, f);
    }
  }

  /** The smallest sorted value is at or above the lower fence, the largest at or below the upper. */
  lemma SmallSortedWithinFence(x: seq<real>)
    requires 0 < |x| <= 12 && Sorted(x)
    ensures Fence(Quantile(x, LowerQuantile), Quantile(x, UpperQuantile)).Lower() <= x[0]
    ensures x[|x| - 1] <= Fence(Quantile(x, LowerQuantile), Quantile(x, UpperQuantile)).Upper()
  {
    var n := |x|;
    if n == 2 {
      assert LowIndex(n, LowerQuantile) == 0 && LowIndex(n, UpperQuantile) == 0;
      assert Quantile(x, LowerQuantile) == x[0] + 0.05 * (x[1] - x[0]);
      assert Quantile(x, UpperQuantile) == x[0] + 0.95 * (x[1] - x[0]);
    } else if n > 2 {
      SeveralSortedWithinFence(x);
    }
  }

  lemma SeveralSortedWithinFence(x: seq<real>)
    requires 3 <= |x| <= 12 && Sorted(x)
    ensures Fence(Quantile(x, LowerQuantile), Quantile(x, UpperQuantile)).Lower() <= x[0]
    ensures x[|x| - 1] <= Fence(Quantile(x, LowerQuantile), Quantile(x, UpperQuantile)).Upper()
  {
    var n := |x|;
    var q1, q2 := Quantile(x, LowerQuantile), Quantile(x, UpperQuantile);
    var s := Rank(n, LowerQuantile);
    var t := Rank(n, UpperQuantile) - (n - 2) as real;
    assert s == 0.05 * (n - 1) as real && t == 1.0 - 0.05 * (n - 1) as real;
    assert LowIndex(n, LowerQuantile) == 0;
    assert LowIndex(n, UpperQuantile) == n - 2;
    assert q1 == Lerp(x[0], x[1], s);
    assert q2 == Lerp(x[n - 2], x[n - 1], t);
    assert q1 <= x[1] <= x[n - 2] <= q2;
    FenceReachesMinimum(x[0], x[1], q1, q2, s);
    FenceReachesMaximum(x[n - 2], x[n - 1], q1, q2, t);
  }

  /** Below the 60% point between the two smallest values, the lower fence reaches the smallest. */
  lemma FenceReachesMinimum(lo: real, hi: real, q1: real, q2: real, s: real)
    requires lo <= hi && 0.0 <= s <= 0.6
    requires q1 == Lerp(lo, hi, s) && hi <= q2
    ensures Fence(q1, q2).Lower() <= lo
  {
    MulLeft(s, 1.5 * (1.0 - s), hi - lo);
    assert (1.5 * (1.0 - s)) * (hi - lo) == 1.5 * ((hi - lo) - s * (hi - lo));
  }

  /** Above the 40% point between the two largest values, the upper fence reaches the largest. */
  lemma FenceReachesMaximum(lo: real, hi: real, q1: real, q2: real, t: real)
    requires lo <= hi && 0.4 <= t <= 1.0
    requires q2 == Lerp(lo, hi, t) && q1 <= lo
    ensures hi <= Fence(q1, q2).Upper()
  {
    var d := hi - lo;
    MulLeft(1.0, 2.5 * t, d);
    var td := t * d;
    assert d <= 2.5 * td by {
      assert 1.0 * d == d;
      assert (2.5 * t) * d == 2.5 * td;
    }
    assert q2 == lo + td;
    assert Fence(q1, q2).Upper() == q2 + 1.5 * (q2 - q1);
    assert q2 - q1 >= td;
  }

  /**
    A frame of at most 12 rows passes every outlier pass unchanged: no
    value can fall outside 1.5 spreads of the 5th and 95th percentiles.
   */
  lemma SmallFrameUnchanged(cs: seq<Customer>, col: Column)
    requires |cs| <= 12
    ensures Pass(cs, col) == cs
  {
    if cs != [] {
      var vs := ColumnValues(cs, col);
      var x := Sort(vs);
      assert |x| == |multiset(x)| == |cs|;
      SmallSortedWithinFence(x);
      var f := FenceOf(cs, col);
      forall c | c in cs
        ensures f.Admits(Value(c, col))
      {
        var i :| 0 <= i < |cs| && cs[i] == c;
        assert vs[i] in multiset(x);
        var k :| 0 <= k < |x| && x[k] == vs[i];
        assert x[0] <= x[k] <= x[|x| - 1];
      }
      SelectAdmitted(cs, col, f);
    }
  }

  lemma SmallFrameNoOutliers(cs: seq<Customer>)
    requires |cs| <= 12
    ensures RemoveOutliers(cs) == cs
  {
    SmallFrameUnchanged(cs, Amount);
    SmallFrameUnchanged(cs, Frequency);
    SmallFrameUnchanged(cs, MostRecentEngagement);
  }
}

// smasher/verify.py: did an intervention improve the markouts? Welch's t-test.

module Welch {
  import opened Averages

  function SquaresAround(s: seq<real>, mean: real): real {
    if s == [] then 0.0
    else
      var d := s[|s| - 1] - mean;
      SquaresAround(s[..|s| - 1], mean) + d * d
  }

  /** The sample variance; 0 for fewer than two samples. */
  function Variance(s: seq<real>, mean: real): real {
    if |s| < 2 then 0.0 else SquaresAround(s, mean) / (|s| - 1) as real
  }

  /** The variance of a sample's mean. */
  function MeanVariance(s: seq<real>): real
    requires s != []
  {
    Variance(s, Mean(s)) / |s| as real
  }

  /** The approximate one-tailed critical value. */
  function TCritical(df: real, alpha: real): real {
    if df <= 0.0 then 10.0
    else
      var z := if alpha == 0.05 then 1.645 else if alpha == 0.01 then 2.326 else if alpha == 0.10 then 1.282 else 1.645;
      if df > 100.0 then z else z + (z * z * z + z) / (4.0 * df)
  }

  /** Welch-Satterthwaite degrees of freedom for mean variances x, y of samples of p + 1 and q + 1. */
  function DegreesOfFreedom(x: real, y: real, p: nat, q: nat): real
    requires 0 < p && 0 < q
  {
    var den := x * x / p as real + y * y / q as real;
    if den > 0.0 then (x + y) * (x + y) / den else 1.0
  }

  datatype Verdict = Verdict(improved: bool, meanBefore: real, meanAfter: real, deltaBps: real,
                             samplesBefore: nat, samplesAfter: nat)

  datatype Outcome = TooFew | ZeroDivision | Compared(verdict: Verdict)

  /** The comparison. `se` stands for math.sqrt of the summed mean variances, its non-negative root. */
  function Compare(before: seq<real>, after: seq<real>, minSamples: int, alpha: real, se: real): Outcome {
    if |before| < minSamples || |after| < minSamples then TooFew
    else if before == [] || after == [] then ZeroDivision
    else
      var meanB, meanA := Mean(before), Mean(after);
      var delta := meanA - meanB;
      var x, y := MeanVariance(before), MeanVariance(after);
      if se <= 0.0 then Compared(Verdict(delta > 0.0, meanB, meanA, delta, |before|, |after|))
      else if |before| == 1 || |after| == 1 then ZeroDivision
      else
        var df := DegreesOfFreedom(x, y, |before| - 1, |after| - 1);
        Compared(Verdict(delta / se > TCritical(df, alpha), meanB, meanA, delta, |before|, |after|))
  }

  ghost predicate IsRoot(se: real, before: seq<real>, after: seq<real>) {
    before != [] && after != [] ==> 0.0 <= se && se * se == MeanVariance(before) + MeanVariance(after)
  }

  // ── What is computed ──

  /** The squares add up over the samples; one adds its squared distance from the mean. */
  lemma {:induction false} SquaresAdd(a: seq<real>, b: seq<real>, x: real, mean: real)
    ensures SquaresAround(a + b, mean) == SquaresAround(a, mean) + SquaresAround(b, mean)
    ensures SquaresAround([x], mean) == Times(x - mean, x - mean)
  {
    assert [x][..0] == [];
    if b == [] {
      assert a + b == a;
    } else {
      SquaresSnoc(a, b, mean);
      SquaresAdd(a, b[..|b| - 1], x, mean);
    }
  }

  lemma SquaresSnoc(a: seq<real>, b: seq<real>, mean: real)
    requires b != []
    ensures var n := |b| - 1;
      SquaresAround(a + b, mean) - SquaresAround(a + b[..n], mean)
      == SquaresAround(b, mean) - SquaresAround(b[..n], mean)
  {
    var n := |b| - 1;
    assert (a + b)[..|a + b| - 1] == a + b[..n] && (a + b)[|a + b| - 1] == b[n];
  }

  /** The variance of the mean of n samples times n (n - 1) is the sum of their squares around it. */
  lemma MeanVarianceMeans(s: seq<real>)
    ensures |s| == 1 ==> MeanVariance(s) == 0.0
    ensures |s| >= 2 ==> Times(Times(MeanVariance(s), |s| as real), |s| as real - 1.0) == SquaresAround(s, Mean(s))
  {
    hide SquaresAround, Mean;
    if |s| >= 2 {
      TwiceDivided(SquaresAround(s, Mean(s)), |s| as real);
      assert (|s| - 1) as real == |s| as real - 1.0;
    }
  }

  lemma TwiceDivided(squares: real, n: real)
    requires 2.0 <= n
    ensures Times(Times(squares / (n - 1.0) / n, n), n - 1.0) == squares
  {
    var v := squares / (n - 1.0);
    assert v / n * n == v;
  }

  /** The standard normal quantile for a level; 5 percent stands for a level that is not known. */
  ghost function Quantile(alpha: real): real {
    if alpha == 0.01 then 2.326 else if alpha == 0.10 then 1.282 else 1.645
  }

  /** The critical value exceeds the quantile z by (z^3 + z) / 4 df, up to a hundred degrees of freedom. */
  lemma CriticalMeans(df: real, alpha: real)
    ensures var t, z := TCritical(df, alpha), Quantile(alpha);
      && (df <= 0.0 ==> t == 10.0)
      && (0.0 < df <= 100.0 ==> (t - z) * (4.0 * df) == z * z * z + z)
      && (100.0 < df ==> t == z)
  {
    var z := Quantile(alpha);
    var k := z * z * z + z;
    if 0.0 < df <= 100.0 {
      assert k / (4.0 * df) * (4.0 * df) == k;
    }
  }

  /** The Welch-Satterthwaite equation, cleared of its denominator. */
  lemma DegreesMean(x: real, y: real, p: nat, q: nat)
    requires 0 < p && 0 < q
    ensures var df, den := DegreesOfFreedom(x, y, p, q), x * x / p as real + y * y / q as real;
      if 0.0 < den then df * den == (x + y) * (x + y) else df == 1.0
  {
  }

  /** What a verdict reports: the means, their difference, the numbers of samples. Without any variance an
      improvement is a higher mean. */
  lemma VerdictMeans(before: seq<real>, after: seq<real>, minSamples: int, alpha: real, se: real)
    requires Compare(before, after, minSamples, alpha, se).Compared?
    ensures var v := Compare(before, after, minSamples, alpha, se).verdict;
      && Times(v.meanBefore, |before| as real) == Sum(before) && Times(v.meanAfter, |after| as real) == Sum(after)
      && v.deltaBps == v.meanAfter - v.meanBefore
      && v.samplesBefore == |before| && v.samplesAfter == |after|
      && (se <= 0.0 ==> (v.improved <==> v.meanBefore < v.meanAfter))
  {
    VerdictShape(before, after, minSamples, alpha, se);
    MeanByTimes(before);
    MeanByTimes(after);
    hide *;
  }

  lemma VerdictShape(before: seq<real>, after: seq<real>, minSamples: int, alpha: real, se: real)
    requires Compare(before, after, minSamples, alpha, se).Compared?
    ensures before != [] && after != []
    ensures var v := Compare(before, after, minSamples, alpha, se).verdict;
      && v.meanBefore == Mean(before) && v.meanAfter == Mean(after) && v.deltaBps == v.meanAfter - v.meanBefore
      && v.samplesBefore == |before| && v.samplesAfter == |after|
      && (se <= 0.0 ==> (v.improved <==> v.meanBefore < v.meanAfter))
  {
    hide Mean, MeanVariance, DegreesOfFreedom, TCritical;
  }

  lemma MeanByTimes(s: seq<real>)
    requires s != []
    ensures Times(Mean(s), |s| as real) == Sum(s)
  {
    MeanTimesCount(s);
  }

  // ── The degrees of freedom ──

  lemma {:induction false} SquaresNotNegative(s: seq<real>, mean: real)
    ensures 0.0 <= SquaresAround(s, mean)
  {
    if s != [] {
      SquaresNotNegative(s[..|s| - 1], mean);
      Square(s[|s| - 1] - mean);
    }
  }

  lemma Square(d: real)
    ensures 0.0 <= d * d
  {
  }

  lemma MeanVarianceNotNegative(s: seq<real>)
    requires s != []
    ensures 0.0 <= MeanVariance(s)
  {
    SquaresNotNegative(s, Mean(s));
  }

  lemma QuotientBounds(num: real, den: real, lo: real, hi: real)
    requires 0.0 < den && lo * den <= num <= hi * den
    ensures lo <= num / den <= hi
  {
    assert num / den - lo == (num - lo * den) / den;
    assert hi - num / den == (hi * den - num) / den;
  }

  // The upper bound is the Cauchy-Schwarz inequality.
  lemma CauchySchwarz(x: real, y: real, p: real, q: real)
    requires 0.0 < p && 0.0 < q
    ensures (x + y) * (x + y) <= (p + q) * (x * x / p + y * y / q)
  {
    var u, v := x / p, y / q;
    assert x == u * p && y == v * q;
    assert x * x / p == u * x && y * y / q == v * y;
    assert (p + q) * (u * x + v * y) - (x + y) * (x + y) == p * q * ((u - v) * (u - v)) by {
      Expand(u, v, p, q);
    }
    Square(u - v);
    assert 0.0 <= p * q;
    assert 0.0 <= p * q * ((u - v) * (u - v));
  }

  lemma Expand(u: real, v: real, p: real, q: real)
    ensures (p + q) * (u * (u * p) + v * (v * q)) - (u * p + v * q) * (u * p + v * q)
         == p * q * ((u - v) * (u - v))
  {
  }

  lemma SmallerDegrees(x: real, y: real, p: real, q: real, m: real)
    requires 0.0 <= x && 0.0 <= y && 0.0 < m <= p && m <= q
    ensures m * (x * x / p + y * y / q) <= (x + y) * (x + y)
  {
    ScaledDown(x * x, p, m);
    ScaledDown(y * y, q, m);
    assert 0.0 <= x * y;
    assert (x + y) * (x + y) == x * x + y * y + 2.0 * (x * y);
    assert m * (x * x / p + y * y / q) == m * (x * x / p) + m * (y * y / q);
  }

  lemma ScaledDown(a: real, p: real, m: real)
    requires 0.0 <= a && 0.0 < m <= p
    ensures m * (a / p) <= a
  {
    var b := a / p;
    assert b * p == a && 0.0 <= b;
    assert m * b <= p * b;
  }

  /** The degrees of freedom lie between the smaller sample's and the pooled number. */
  lemma DegreesBounds(x: real, y: real, p: nat, q: nat)
    requires 0.0 <= x && 0.0 <= y && 0.0 < x + y && 0 < p && 0 < q
    ensures var df := DegreesOfFreedom(x, y, p, q);
      (if p <= q then p else q) as real <= df <= (p + q) as real
  {
    var den := x * x / p as real + y * y / q as real;
    PositiveDen(x, y, p as real, q as real);
    CauchySchwarz(x, y, p as real, q as real);
    SmallerDegrees(x, y, p as real, q as real, (if p <= q then p else q) as real);
    QuotientBounds((x + y) * (x + y), den, (if p <= q then p else q) as real, (p + q) as real);
  }

  lemma PositiveDen(x: real, y: real, p: real, q: real)
    requires 0.0 <= x && 0.0 <= y && 0.0 < x + y && 0.0 < p && 0.0 < q
    ensures 0.0 < x * x / p + y * y / q
  {
    NotNegativeQuotient(x, p);
    NotNegativeQuotient(y, q);
  }

  lemma NotNegativeQuotient(x: real, p: real)
    requires 0.0 <= x && 0.0 < p
    ensures 0.0 <= x * x / p
    ensures 0.0 < x ==> 0.0 < x * x / p
  {
    var square := x * x;
    Square(x);
    if 0.0 < x {
      PositiveProduct(x, x, square);
      PositiveQuotient(square, p);
    }
  }

  lemma PositiveProduct(a: real, b: real, product: real)
    requires 0.0 < a && 0.0 < b && product == a * b
    ensures 0.0 < product
  {
  }

  lemma PositiveQuotient(a: real, p: real)
    requires 0.0 < a && 0.0 < p
    ensures 0.0 < a / p
  {
  }

  /** The critical value is positive, and does not grow with the degrees of freedom. */
  lemma CriticalDecreases(df: real, more: real, alpha: real)
    requires 0.0 < df <= more
    ensures 0.0 < TCritical(more, alpha) <= TCritical(df, alpha)
  {
    var z := if alpha == 0.05 then 1.645 else if alpha == 0.01 then 2.326 else if alpha == 0.10 then 1.282 else 1.645;
    var k := z * z * z + z;
    assert 0.0 < k;
    DivideByMore(k, 4.0 * df, 4.0 * more);
    assert 0.0 < k / (4.0 * more);
  }

  lemma DivideByMore(k: real, a: real, b: real)
    requires 0.0 < k && 0.0 < a <= b
    ensures k / b <= k / a
  {
    var u, v := k / a, k / b;
    assert u * a == k && v * b == k && 0.0 < u;
    assert (u - v) * b == u * (b - a);
    assert u - v == (u - v) * b / b;
  }

  // ── The verdict ──

  /** The verdict's critical value is positive. */
  lemma CriticalIsPositive(before: seq<real>, after: seq<real>, alpha: real, se: real)
    requires IsRoot(se, before, after) && 0.0 < se && |before| >= 2 && |after| >= 2
    ensures 0.0 < TCritical(
      DegreesOfFreedom(MeanVariance(before), MeanVariance(after), |before| - 1, |after| - 1), alpha)
  {
    var x, y := MeanVariance(before), MeanVariance(after);
    MeanVarianceNotNegative(before);
    MeanVarianceNotNegative(after);
    hide MeanVariance;
    RootIsPositive(se, x + y);
    DegreesBounds(x, y, |before| - 1, |after| - 1);
    hide DegreesOfFreedom, TCritical;
    var df := DegreesOfFreedom(x, y, |before| - 1, |after| - 1);
    CriticalDecreases(df, df, alpha);
  }

  /** An improvement means a higher mean after. */
  lemma ImprovedMeansHigher(before: seq<real>, after: seq<real>, minSamples: int, alpha: real, se: real)
    requires IsRoot(se, before, after)
    ensures var r := Compare(before, after, minSamples, alpha, se);
      r.Compared? && r.verdict.improved ==> r.verdict.meanBefore < r.verdict.meanAfter
  {
    var r := Compare(before, after, minSamples, alpha, se);
    if r.Compared? && 0.0 < se && r.verdict.improved {
      CriticalIsPositive(before, after, alpha, se);
      hide DegreesOfFreedom, TCritical, MeanVariance, Mean;
      SignOfQuotient(r.verdict.deltaBps, se);
    }
  }

  lemma SignOfQuotient(d: real, se: real)
    requires 0.0 < se && 0.0 < d / se
    ensures 0.0 < d
  {
    assert d == d / se * se;
  }

  /** Swapping the two samples never gives an improvement both ways. */
  lemma NeverBothImproved(a: seq<real>, b: seq<real>, minSamples: int, alpha: real, se: real, se': real)
    requires IsRoot(se, a, b) && IsRoot(se', b, a)
    ensures var r, s := Compare(a, b, minSamples, alpha, se), Compare(b, a, minSamples, alpha, se');
      !(r.Compared? && s.Compared? && r.verdict.improved && s.verdict.improved)
  {
    ImprovedMeansHigher(a, b, minSamples, alpha, se);
    ImprovedMeansHigher(b, a, minSamples, alpha, se');
  }

  /** The test without the root: an improvement is a positive difference of means whose square
      exceeds the squared critical value times the variance of that difference. */
  lemma ImprovedWithoutRoot(before: seq<real>, after: seq<real>, minSamples: int, alpha: real, se: real)
    requires IsRoot(se, before, after) && 0.0 < se
    requires |before| >= 2 && |after| >= 2 && |before| >= minSamples && |after| >= minSamples
    ensures var x, y := MeanVariance(before), MeanVariance(after);
      var t := TCritical(DegreesOfFreedom(x, y, |before| - 1, |after| - 1), alpha);
      var delta := Mean(after) - Mean(before);
      Compare(before, after, minSamples, alpha, se).verdict.improved <==> 0.0 < delta && t * t * (x + y) < delta * delta
  {
    hide DegreesOfFreedom, TCritical, MeanVariance, Mean;
    var x, y := MeanVariance(before), MeanVariance(after);
    var df := DegreesOfFreedom(x, y, |before| - 1, |after| - 1);
    CriticalIsPositive(before, after, alpha, se);
    SquareTest(Mean(after) - Mean(before), se, TCritical(df, alpha), x + y);
  }

  lemma RootIsPositive(se: real, v: real)
    requires 0.0 <= se && se * se == v
    ensures 0.0 < se <==> 0.0 < v
  {
    if 0.0 < se {
      PositiveProduct(se, se, v);
    } else {
      assert v == 0.0 * 0.0 by { assert se == 0.0; }
    }
  }

  lemma SquareTest(delta: real, se: real, t: real, v: real)
    requires 0.0 < se && 0.0 < t && se * se == v
    ensures delta / se > t <==> 0.0 < delta && t * t * v < delta * delta
  {
    var a := t * se;
    assert t * t * v == a * a by {
      assert t * t * (se * se) == (t * se) * (t * se);
    }
    ClearDenominator(delta, se, t);
    CompareSquares(a, delta);
  }

  lemma ClearDenominator(delta: real, se: real, t: real)
    requires 0.0 < se && 0.0 < t
    ensures delta / se > t <==> delta > t * se
    ensures 0.0 < t * se
  {
    var r := delta / se;
    assert r * se == delta;
    assert (r - t) * se == delta - t * se;
  }

  lemma CompareSquares(a: real, b: real)
    requires 0.0 < a
    ensures a < b <==> 0.0 < b && a * a < b * b
  {
    assert b * b - a * a == (b - a) * (b + a);
  }

  /** A comparison of enough samples divides by zero exactly when a sample is empty, or the
      variance is not zero and a sample is single. */
  lemma DividesByZeroWhen(before: seq<real>, after: seq<real>, minSamples: int, alpha: real, se: real)
    requires IsRoot(se, before, after) && |before| >= minSamples && |after| >= minSamples
    ensures Compare(before, after, minSamples, alpha, se).ZeroDivision? <==>
      || before == [] || after == []
      || (0.0 < MeanVariance(before) + MeanVariance(after) && (|before| == 1 || |after| == 1))
  {
    if before != [] && after != [] {
      MeanVarianceNotNegative(before);
      MeanVarianceNotNegative(after);
      RootIsPositive(se, MeanVariance(before) + MeanVariance(after));
    }
  }

  /** One sample before and two different ones after divide by zero. */
  lemma SingleSampleDividesByZero()
    ensures IsRoot(0.5, [0.0], [1.0, 2.0]) && Compare([0.0], [1.0, 2.0], 1, 0.05, 0.5) == ZeroDivision
  {
    var before, after := [0.0], [1.0, 2.0];
    assert after[..1] == [1.0] && [1.0][..0] == [] && before[..0] == [];
    assert Sum(before) == 0.0 && Sum([1.0]) == 1.0 && Sum(after) == 3.0;
    assert Mean(before) == 0.0 && Mean(after) == 1.5;
    assert SquaresAround([1.0], 1.5) == 0.25 && SquaresAround(after, 1.5) == 0.5;
    assert MeanVariance(before) == 0.0 && MeanVariance(after) == 0.25;
  }

  class SmasherVerifier {
    const minSamples: int
    const significance: real
    var before: seq<real>
    var after: seq<real>

    constructor (minSamples: int, significance: real)
      ensures before == [] && after == [] && this.minSamples == minSamples && this.significance == significance
    {
      this.minSamples, this.significance := minSamples, significance;
      before, after := [], [];
    }

    method AddBefore(bps: real)
      modifies this`before
      ensures before == old(before) + [bps]
    {
      before := before + [bps];
    }

    method AddAfter(bps: real)
      modifies this`after
      ensures after == old(after) + [bps]
    {
      after := after + [bps];
    }

    /** Compares the collected samples; `se` is the root that math.sqrt returns. An improvement is
        only ever reported for a higher mean. */
    method CompareSamples(se: real) returns (r: Outcome)
      requires IsRoot(se, before, after)
      ensures r == Compare(before, after, minSamples, significance, se)
      ensures r.TooFew? <==> |before| < minSamples || |after| < minSamples
      ensures r.Compared? && r.verdict.improved ==> r.verdict.meanBefore < r.verdict.meanAfter
    {
      ImprovedMeansHigher(before, after, minSamples, significance, se);
      r := Compare(before, after, minSamples, significance, se);
    }

    method Reset()
      modifies this
      ensures before == [] && after == []
    {
      before, after := [], [];
    }
  }
}

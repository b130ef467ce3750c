/** The access-count trend: the least-squares slope of the counts against the mean, after a test for volatility. */
module AccessTrend {
  import opened Sequences

  datatype AccessTrend = Increasing | Decreasing | Stable | Volatile

  function SumX(n: nat): int {
    if n == 0 then 0 else SumX(n - 1) + (n - 1)
  }

  function SumXX(n: nat): int {
    if n == 0 then 0 else SumXX(n - 1) + (n - 1) * (n - 1)
  }

  function SumY(counts: seq<nat>): nat {
    if counts == [] then 0 else SumY(counts[..|counts| - 1]) + counts[|counts| - 1]
  }

  function SumXY(counts: seq<nat>): int {
    if counts == [] then 0
    else var n := |counts| - 1; SumXY(counts[..n]) + n * counts[n]
  }

  /** The sum of the squared distances from `m`. */
  function Deviation(counts: seq<nat>, m: real): real {
    if counts == [] then 0.0
    else var n := |counts| - 1; Deviation(counts[..n], m) + Square(counts[n] as real - m)
  }

  function Square(x: real): real { x * x }

  function Numerator(counts: seq<nat>): int {
    |counts| * SumXY(counts) - SumX(|counts|) * SumY(counts)
  }

  function Denominator(n: nat): int {
    n * SumXX(n) - SumX(n) * SumX(n)
  }

  function Slope(counts: seq<nat>): real
    requires Denominator(|counts|) != 0
  {
    Numerator(counts) as real / Denominator(|counts|) as real
  }

  function Mean(counts: seq<nat>): real
    requires counts != []
  {
    SumY(counts) as real / |counts| as real
  }

  function Variance(counts: seq<nat>): real
    requires counts != []
  {
    Deviation(counts, Mean(counts)) / |counts| as real
  }

  /** The standard deviation exceeds half the mean; without a square root, as both are non-negative. */
  predicate IsVolatile(counts: seq<nat>)
    requires counts != []
  {
    Mean(counts) > 0.0 && 4.0 * Variance(counts) > Square(Mean(counts))
  }

  function AccessTrendOf(counts: seq<nat>): AccessTrend {
    if |counts| < 2 || Denominator(|counts|) == 0 then Stable
    else if IsVolatile(counts) then Volatile
    else
      var threshold := Mean(counts) * 0.1;
      if Slope(counts) > threshold then Increasing
      else if Slope(counts) < -threshold then Decreasing
      else Stable
  }

  // ---- the denominator ----

  lemma {:induction false} SumXClosed(n: nat)
    ensures 2 * SumX(n) == n * (n - 1)
  {
    if n != 0 {
      SumXClosed(n - 1);
    }
  }

  lemma {:induction false} SumXXClosed(n: nat)
    ensures 6 * SumXX(n) == n * (n - 1) * (2 * n - 1)
  {
    if n != 0 {
      SumXXClosed(n - 1);
      var m := n - 1;
      assert m * (m - 1) * (2 * m - 1) + 6 * (m * m) == n * (n - 1) * (2 * n - 1);
    }
  }

  lemma {:induction false} DenominatorAlgebra(n: int, x: int, xx: int)
    requires 2 * x == n * (n - 1) && 6 * xx == n * (n - 1) * (2 * n - 1)
    ensures 12 * (n * xx - x * x) == n * n * (n * n - 1)
  {
  }

  /** The denominator has a closed form, so its guard against zero never fires once there are two counts. */
  lemma {:induction false} DenominatorPositive(n: nat)
    ensures 12 * Denominator(n) == n * n * (n * n - 1)
    ensures Denominator(n) > 0 <==> n >= 2
  {
    SumXClosed(n);
    SumXXClosed(n);
    DenominatorAlgebra(n, SumX(n), SumXX(n));
    if n >= 2 {
      assert n * n >= 4;
      assert n * n * (n * n - 1) >= 1;
    }
  }

  // ---- the numerator, as a comparison of all pairs ----

  /** How far `y`, put at position `n`, lies above the counts before it, each weighted by its distance. */
  function Rise(counts: seq<nat>, n: nat, y: nat): int {
    if counts == [] then 0
    else var k := |counts| - 1; Rise(counts[..k], n, y) + (n - k) * (y - counts[k])
  }

  /** The sum of `(j - i) * (counts[j] - counts[i])` over all pairs `i < j`. */
  function PairSum(counts: seq<nat>): int {
    if counts == [] then 0
    else var n := |counts| - 1; PairSum(counts[..n]) + Rise(counts[..n], n, counts[n])
  }

  lemma {:induction false} RiseClosed(counts: seq<nat>, n: nat, y: nat)
    ensures Rise(counts, n, y) == y * (n * |counts| - SumX(|counts|)) - n * SumY(counts) + SumXY(counts)
  {
    if counts != [] {
      var k := |counts| - 1;
      RiseClosed(counts[..k], n, y);
      RiseStep(y, n, k, SumX(k), SumY(counts[..k]), SumXY(counts[..k]), counts[k]);
    }
  }

  lemma RiseStep(y: int, n: int, k: int, x: int, sy: int, xy: int, c: int)
    ensures y * (n * k - x) - n * sy + xy + (n - k) * (y - c)
      == y * (n * (k + 1) - (x + k)) - n * (sy + c) + (xy + k * c)
  {
  }

  lemma NumeratorStep(n: int, x: int, sy: int, xy: int, y: int)
    ensures (n + 1) * (xy + n * y) - (x + n) * (sy + y) == n * xy - x * sy + (y * (n * n - x) - n * sy + xy)
  {
  }

  /** The slope's numerator adds up every pair of counts, later minus earlier, weighted by their distance. */
  lemma {:induction false} NumeratorIsPairSum(counts: seq<nat>)
    ensures Numerator(counts) == PairSum(counts)
  {
    if counts != [] {
      var n := |counts| - 1;
      var front, y := counts[..n], counts[n];
      NumeratorIsPairSum(front);
      RiseClosed(front, n, y);
      NumeratorStep(n, SumX(n), SumY(front), SumXY(front), y);
    }
  }

  ghost predicate NeverFalling(counts: seq<nat>) {
    forall i, j :: 0 <= i <= j < |counts| ==> counts[i] <= counts[j]
  }

  ghost predicate NeverRising(counts: seq<nat>) {
    forall i, j :: 0 <= i <= j < |counts| ==> counts[j] <= counts[i]
  }

  lemma Weighted(a: int, b: int)
    requires a >= 0 && b >= 0
    ensures a * b >= 0
  {
  }

  lemma {:induction false} RiseNonNegative(counts: seq<nat>, n: nat, y: nat)
    requires |counts| <= n && forall i :: 0 <= i < |counts| ==> counts[i] <= y
    ensures Rise(counts, n, y) >= 0
  {
    if counts != [] {
      var k := |counts| - 1;
      RiseNonNegative(counts[..k], n, y);
      Weighted(n - k, y - counts[k]);
    }
  }

  lemma {:induction false} PairSumNonNegative(counts: seq<nat>)
    requires NeverFalling(counts)
    ensures PairSum(counts) >= 0
  {
    if counts != [] {
      var n := |counts| - 1;
      PairSumNonNegative(counts[..n]);
      RiseNonNegative(counts[..n], n, counts[n]);
    }
  }

  lemma QuotientNonNegative(a: real, b: real)
    requires a >= 0.0 && b > 0.0
    ensures a / b >= 0.0
  {
  }

  /** Counts that never fall are not reported as decreasing. */
  lemma {:induction false} RisingNotDecreasing(counts: seq<nat>)
    requires NeverFalling(counts)
    ensures AccessTrendOf(counts) != Decreasing
  {
    if |counts| >= 2 {
      NumeratorIsPairSum(counts);
      PairSumNonNegative(counts);
      DenominatorPositive(|counts|);
      QuotientNonNegative(Numerator(counts) as real, Denominator(|counts|) as real);
      QuotientNonNegative(SumY(counts) as real, |counts| as real);
    }
  }

  // ---- reversal ----

  lemma {:induction false} SumYFront(counts: seq<nat>)
    requires counts != []
    ensures SumY(counts) == counts[0] + SumY(counts[1..])
  {
    if |counts| > 1 {
      var n := |counts| - 1;
      SumYFront(counts[..n]);
      assert counts[..n][1..] == counts[1..][..n - 1];
    }
  }

  lemma {:induction false} SumXYFront(counts: seq<nat>)
    requires counts != []
    ensures SumXY(counts) == SumXY(counts[1..]) + SumY(counts[1..])
  {
    if |counts| > 1 {
      var n := |counts| - 1;
      SumXYFront(counts[..n]);
      assert counts[..n][1..] == counts[1..][..n - 1];
      assert n * counts[n] == (n - 1) * counts[n] + counts[n];
    }
  }

  lemma {:induction false} DeviationFront(counts: seq<nat>, m: real)
    requires counts != []
    ensures Deviation(counts, m) == Square(counts[0] as real - m) + Deviation(counts[1..], m)
  {
    if |counts| > 1 {
      var n := |counts| - 1;
      DeviationFront(counts[..n], m);
      assert counts[..n][1..] == counts[1..][..n - 1];
    }
  }

  lemma {:induction false} SumYReverse(counts: seq<nat>)
    ensures SumY(Reverse(counts)) == SumY(counts)
  {
    if counts != [] {
      var rest := Reverse(counts[1..]);
      SumYReverse(counts[1..]);
      SumYFront(counts);
      assert (rest + [counts[0]])[..|rest|] == rest;
    }
  }

  lemma {:induction false} DeviationReverse(counts: seq<nat>, m: real)
    ensures Deviation(Reverse(counts), m) == Deviation(counts, m)
  {
    if counts != [] {
      var rest := Reverse(counts[1..]);
      DeviationReverse(counts[1..], m);
      DeviationFront(counts, m);
      assert (rest + [counts[0]])[..|rest|] == rest;
    }
  }

  lemma SumXYStep(n: int, y: int, sy: int, xy: int)
    ensures (n - 1) * sy - xy + n * y == n * (y + sy) - (xy + sy)
  {
  }

  lemma {:induction false} SumXYReverse(counts: seq<nat>)
    ensures SumXY(Reverse(counts)) == (|counts| - 1) * SumY(counts) - SumXY(counts)
  {
    if counts != [] {
      var tail := counts[1..];
      var rest := Reverse(tail);
      SumXYReverse(tail);
      SumYFront(counts);
      SumXYFront(counts);
      ReverseAt(tail);
      assert (rest + [counts[0]])[..|rest|] == rest;
      SumXYStep(|tail|, counts[0], SumY(tail), SumXY(tail));
    }
  }

  lemma ReverseAlgebra(n: int, x: int, sy: int, xy: int)
    requires 2 * x == n * (n - 1)
    ensures n * ((n - 1) * sy - xy) - x * sy == -(n * xy - x * sy)
  {
  }

  lemma {:induction false} NumeratorReverse(counts: seq<nat>)
    ensures |Reverse(counts)| == |counts| && Numerator(Reverse(counts)) == -Numerator(counts)
  {
    ReverseAt(counts);
    SumYReverse(counts);
    SumXYReverse(counts);
    SumXClosed(|counts|);
    ReverseAlgebra(|counts|, SumX(|counts|), SumY(counts), SumXY(counts));
  }

  function Mirror(t: AccessTrend): AccessTrend {
    match t
    case Increasing => Decreasing
    case Decreasing => Increasing
    case Stable => Stable
    case Volatile => Volatile
  }

  lemma NegatedQuotient(a: int, b: int)
    requires b != 0
    ensures (-a) as real / b as real == -(a as real / b as real)
  {
  }

  lemma {:induction false} SpreadReverse(counts: seq<nat>)
    requires counts != []
    ensures Reverse(counts) != [] && Mean(Reverse(counts)) == Mean(counts)
    ensures Variance(Reverse(counts)) == Variance(counts)
  {
    ReverseAt(counts);
    SumYReverse(counts);
    DeviationReverse(counts, Mean(counts));
  }

  /** Reading the counts backwards swaps increasing with decreasing and leaves stable and volatile alone. */
  lemma {:induction false} AccessTrendMirrors(counts: seq<nat>)
    ensures AccessTrendOf(Reverse(counts)) == Mirror(AccessTrendOf(counts))
  {
    NumeratorReverse(counts);
    if |counts| >= 2 {
      SpreadReverse(counts);
      DenominatorPositive(|counts|);
      QuotientNonNegative(SumY(counts) as real, |counts| as real);
      NegatedQuotient(Numerator(counts), Denominator(|counts|));
    }
  }

  /** Counts that never rise are not reported as increasing. */
  lemma {:induction false} FallingNotIncreasing(counts: seq<nat>)
    requires NeverRising(counts)
    ensures AccessTrendOf(counts) != Increasing
  {
    ReverseAt(counts);
    RisingNotDecreasing(Reverse(counts));
    AccessTrendMirrors(counts);
  }

  // ---- the trend in whole numbers ----

  function SumYY(counts: seq<nat>): nat {
    if counts == [] then 0
    else var n := |counts| - 1; SumYY(counts[..n]) + counts[n] * counts[n]
  }

  /** Twelve times the denominator for `n` counts, divided by `n`. */
  function Weight(n: nat): int { n * (n * n - 1) }

  /** The trend without division, roots or fractions. */
  function IntegerTrend(counts: seq<nat>): AccessTrend {
    var n, total := |counts|, SumY(counts);
    if n < 2 then Stable
    else if 4 * n * SumYY(counts) > 5 * total * total then Volatile
    else if 120 * PairSum(counts) > Weight(n) * total then Increasing
    else if 120 * PairSum(counts) < -(Weight(n) * total) then Decreasing
    else Stable
  }

  lemma DeviationStep(yy: real, s: real, n: real, m: real, y: real)
    ensures (yy - 2.0 * (m * s) + n * (m * m)) + Square(y - m)
      == (yy + y * y) - 2.0 * (m * (s + y)) + (n + 1.0) * (m * m)
  {
    assert Square(y - m) == y * y - 2.0 * (m * y) + m * m;
  }

  function Expanded(yy: int, s: int, n: int, m: real): real {
    yy as real - 2.0 * (m * s as real) + n as real * (m * m)
  }

  lemma ExpandedStep(yy: int, s: int, n: int, m: real, y: int)
    ensures Expanded(yy + y * y, s + y, n + 1, m) == Expanded(yy, s, n, m) + Square(y as real - m)
  {
    DeviationStep(yy as real, s as real, n as real, m, y as real);
    assert (y * y) as real == y as real * y as real;
  }

  lemma {:induction false} DeviationExpanded(counts: seq<nat>, m: real)
    ensures Deviation(counts, m) == Expanded(SumYY(counts), SumY(counts), |counts|, m)
  {
    if counts != [] {
      var n := |counts| - 1;
      DeviationExpanded(counts[..n], m);
      ExpandedStep(SumYY(counts[..n]), SumY(counts[..n]), n, m, counts[n]);
    }
  }

  /** For a mean `m` with `m * n == s`: four variances exceed the squared mean exactly if `4 n yy > 5 s s`. */
  lemma VolatilityAlgebra(n: real, s: real, yy: real, m: real, dev: real)
    requires n > 0.0 && m * n == s && dev == yy - 2.0 * (m * s) + n * (m * m)
    ensures 4.0 * (dev / n) > m * m <==> 4.0 * (n * yy) > 5.0 * (s * s)
  {
    assert n * (m * m) == m * s;
    var v := dev / n;
    assert v * n == yy - m * s;
    OrderTimes(n, 4.0 * v, m * m);
    assert n * (4.0 * v) == 4.0 * (yy - m * s);
    OrderTimes(n, 4.0 * (yy - m * s), m * s);
    assert n * (m * s) == s * s;
    assert n * (4.0 * (yy - m * s)) == 4.0 * (n * yy) - 4.0 * (s * s);
  }

  lemma OrderTimes(k: real, a: real, b: real)
    requires k > 0.0
    ensures k * a > k * b <==> a > b
  {
    if a > b {
      assert k * (a - b) > 0.0;
    } else {
      assert k * (b - a) >= 0.0;
    }
  }

  lemma VolatileNumbers(n: nat, s: nat, yy: nat, m: real, dev: real)
    requires n > 0 && (s == 0 ==> yy == 0) && m == s as real / n as real && dev == Expanded(yy, s, n, m)
    ensures m > 0.0 && 4.0 * (dev / n as real) > Square(m) <==> 4 * n * yy > 5 * s * s
  {
    assert m * n as real == s as real;
    VolatilityAlgebra(n as real, s as real, yy as real, m, dev);
    IntegerVolatility(n, s, yy);
    if s > 0 {
      PositiveQuotient(s as real, n as real);
    }
  }

  lemma {:induction false} VolatileExact(counts: seq<nat>)
    requires counts != []
    ensures IsVolatile(counts) <==> 4 * |counts| * SumYY(counts) > 5 * SumY(counts) * SumY(counts)
  {
    var m := Mean(counts);
    DeviationExpanded(counts, m);
    if SumY(counts) == 0 {
      NoCounts(counts);
    }
    VolatileNumbers(|counts|, SumY(counts), SumYY(counts), m, Deviation(counts, m));
  }

  lemma IntegerVolatility(n: nat, s: nat, yy: nat)
    ensures 4.0 * (n as real * yy as real) > 5.0 * (s as real * s as real) <==> 4 * n * yy > 5 * s * s
  {
    assert (n * yy) as real == n as real * yy as real;
    assert (s * s) as real == s as real * s as real;
    assert 4 * n * yy == 4 * (n * yy) && 5 * s * s == 5 * (s * s);
  }

  lemma PositiveQuotient(a: real, b: real)
    requires a > 0.0 && b > 0.0
    ensures a / b > 0.0
  {
  }

  lemma {:induction false} NoCounts(counts: seq<nat>)
    requires SumY(counts) == 0
    ensures SumYY(counts) == 0
  {
    if counts != [] {
      NoCounts(counts[..|counts| - 1]);
    }
  }

  /** A slope `p / d` against a tenth of the mean `s / n`, where `12 d == n * w`. */
  lemma SlopeAlgebra(slope: real, mean: real, p: real, d: real, s: real, n: real, w: real)
    requires d > 0.0 && 12.0 * d == n * w && slope * d == p && mean * n == s
    ensures slope > mean * 0.1 <==> 120.0 * p > w * s
    ensures slope < -(mean * 0.1) <==> 120.0 * p < -(w * s)
  {
    assert w * s == 12.0 * (d * mean) by {
      assert w * (mean * n) == (n * w) * mean;
    }
    OrderTimes(d, slope, mean * 0.1);
    OrderTimes(d, -(mean * 0.1), slope);
    assert d * (mean * 0.1) == (d * mean) * 0.1;
    assert d * (-(mean * 0.1)) == -((d * mean) * 0.1);
  }

  lemma QuotientTimes(a: real, b: real)
    requires b != 0.0
    ensures (a / b) * b == a
  {
  }

  lemma DenominatorCast(n: nat)
    requires n >= 2
    ensures Denominator(n) > 0 && 12.0 * Denominator(n) as real == n as real * Weight(n) as real
  {
    DenominatorPositive(n);
    assert 12 * Denominator(n) == n * Weight(n);
    CastProduct(n, Weight(n));
  }

  lemma CompareCast(p: int, w: int, s: int)
    ensures 120.0 * p as real > w as real * s as real <==> 120 * p > w * s
    ensures 120.0 * p as real < -(w as real * s as real) <==> 120 * p < -(w * s)
  {
    CastProduct(w, s);
  }

  lemma SlopeNumbers(slope: real, mean: real, p: int, d: int, s: int, n: int, w: int)
    requires d > 0 && n > 0 && 12.0 * d as real == n as real * w as real
    requires slope == p as real / d as real && mean == s as real / n as real
    ensures slope > mean * 0.1 <==> 120 * p > w * s
    ensures slope < -(mean * 0.1) <==> 120 * p < -(w * s)
  {
    QuotientTimes(p as real, d as real);
    QuotientTimes(s as real, n as real);
    SlopeAlgebra(slope, mean, p as real, d as real, s as real, n as real, w as real);
    CompareCast(p, w, s);
  }

  lemma SlopeForm(counts: seq<nat>)
    requires |counts| >= 2 && Denominator(|counts|) > 0
    ensures Slope(counts) == PairSum(counts) as real / Denominator(|counts|) as real
  {
    NumeratorIsPairSum(counts);
  }

  lemma {:induction false} SlopeExact(counts: seq<nat>)
    requires |counts| >= 2 && Denominator(|counts|) > 0
    ensures var w := Weight(|counts|) * SumY(counts);
      && (Slope(counts) > Mean(counts) * 0.1 <==> 120 * PairSum(counts) > w)
      && (Slope(counts) < -(Mean(counts) * 0.1) <==> 120 * PairSum(counts) < -w)
  {
    DenominatorCast(|counts|);
    SlopeForm(counts);
    SlopeNumbers(
      Slope(counts), Mean(counts), PairSum(counts), Denominator(|counts|), SumY(counts), |counts|, Weight(|counts|));
  }

  lemma CastProduct(a: int, b: int)
    ensures (a * b) as real == a as real * b as real
  {
  }

  /** The floating-point style computation is, in exact arithmetic, a comparison of whole numbers. */
  lemma {:induction false} AccessTrendExact(counts: seq<nat>)
    ensures AccessTrendOf(counts) == IntegerTrend(counts)
  {
    if |counts| >= 2 {
      DenominatorPositive(|counts|);
      VolatileExact(counts);
      SlopeExact(counts);
    }
  }
}

/** The ring buffer of pressure readings, and the trend read off its most recent entries. */
module PressureHistory {
  import opened Types
  import opened Sequences

  datatype Entry = Entry(timestamp: nat, global: PressureState)

  lemma WrapOnce(x: nat, capacity: nat)
    requires 0 < capacity && x < 2 * capacity
    ensures x % capacity == if x < capacity then x else x - capacity
  {
    if x >= capacity {
      assert x == capacity * 1 + (x - capacity);
    }
  }

  class PressureHistory {
    var entries: seq<Entry>
    const capacity: nat
    var head: nat
    var count: nat
    ghost var log: seq<Entry>   // everything pushed so far

    /**
     * Slots below `head` belong to the present lap around the buffer, the others to the lap before; the present
     * lap began after `|log| - head` entries.
     */
    ghost predicate Valid()
      reads this
    {
      && (head < capacity || (capacity == 0 && log == [])) && head <= |log|
      && count == |entries|
      && (if head == |log| then |entries| == head else |entries| == capacity && capacity <= |log| - head)
      && (forall i :: 0 <= i < head ==> entries[i] == log[|log| - head + i])
      && (forall i :: head <= i < |entries| ==> entries[i] == log[|log| - head - capacity + i])
    }

    constructor (capacity: nat)
      ensures Valid() && log == [] && this.capacity == capacity
    {
      entries, head, count, log := [], 0, 0, [];
      this.capacity := capacity;
    }

    method Push(entry: Entry)
      requires Valid() && 0 < capacity
      modifies this
      ensures Valid() && log == old(log) + [entry]
      ensures count == if |log| < capacity then |log| else capacity
    {
      if |entries| < capacity {
        entries := entries + [entry];
      } else {
        entries := entries[head := entry];
      }
      WrapOnce(head + 1, capacity);
      head := (head + 1) % capacity;
      count := if count + 1 < capacity then count + 1 else capacity;
      log := log + [entry];
    }

    /** The most recent `n` entries of everything ever pushed, oldest first. */
    method Recent(n: nat) returns (result: seq<Entry>)
      requires Valid()
      ensures result == Suffix(log, if n < count then n else count)
    {
      var take := if n < count then n else count;
      if take == 0 {
        return [];
      }
      result := [];
      for i := 0 to take
        invariant |result| == i
        invariant forall j :: 0 <= j < i ==> result[j] == log[|log| - 1 - j]
      {
        WrapOnce(head + capacity - 1 - i, capacity);
        var idx := if count < capacity then count - 1 - i else (head + capacity - 1 - i) % capacity;
        result := result + [entries[idx]];
      }
      ReverseAt(result);
      result := Reverse(result);
    }

    method Average(n: nat) returns (average: Option<PressureState>)
      requires Valid()
      ensures var window := Suffix(log, if n < count then n else count);
        average == if window == [] then None else Some(MeanState(window))
    {
      var recent := Recent(n);
      if recent == [] {
        return None;
      }
      var mean := AverageOf(recent);
      return Some(mean);
    }

    method Trend(n: nat) returns (trend: PressureTrend)
      requires Valid()
      ensures trend == TrendOf(MaxPressures(Suffix(log, if n < count then n else count)))
    {
      var recent := Recent(n);
      return TrendOf(MaxPressures(recent));
    }
  }

  // ---- averages ----

  function Sum(xs: seq<real>): real {
    if xs == [] then 0.0 else Sum(xs[..|xs| - 1]) + xs[|xs| - 1]
  }

  function Mean(xs: seq<real>): real
    requires xs != []
  {
    Sum(xs) / (|xs| as real)
  }

  function MaxPressures(es: seq<Entry>): (xs: seq<real>)
    ensures |xs| == |es| && forall i :: 0 <= i < |es| ==> xs[i] == es[i].global.MaxPressure()
  {
    seq(|es|, i requires 0 <= i < |es| => es[i].global.MaxPressure())
  }

  /** The readings added up, dimension by dimension. */
  function Total(es: seq<Entry>): PressureState {
    if es == [] then PressureState(0.0, 0.0, 0.0, 0, 0)
    else
      var t, g := Total(es[..|es| - 1]), es[|es| - 1].global;
      PressureState(
        t.memoryPressure + g.memoryPressure, t.vramPressure + g.vramPressure, t.ioPressure + g.ioPressure,
        t.queueDepth + g.queueDepth, t.throughputBps + g.throughputBps)
  }

  function MeanState(es: seq<Entry>): PressureState
    requires es != []
  {
    var t, len := Total(es), |es| as real;
    PressureState(
      t.memoryPressure / len, t.vramPressure / len, t.ioPressure / len, t.queueDepth / |es|, t.throughputBps / |es|)
  }

  method AddUp(es: seq<Entry>) returns (total: PressureState)
    ensures total == Total(es)
  {
    total := PressureState(0.0, 0.0, 0.0, 0, 0);
    for k := 0 to |es|
      invariant total == Total(es[..k])
    {
      assert es[..k + 1][..k] == es[..k];
      var g := es[k].global;
      total := PressureState(
        total.memoryPressure + g.memoryPressure, total.vramPressure + g.vramPressure, total.ioPressure + g.ioPressure,
        total.queueDepth + g.queueDepth, total.throughputBps + g.throughputBps);
    }
    assert es[..|es|] == es;
  }

  method AverageOf(es: seq<Entry>) returns (mean: PressureState)
    requires es != []
    ensures mean == MeanState(es)
  {
    var total := AddUp(es);
    var len := |es| as real;
    return PressureState(
      total.memoryPressure / len, total.vramPressure / len, total.ioPressure / len,
      total.queueDepth / |es|, total.throughputBps / |es|);
  }

  lemma SumNext(xs: seq<real>, x: real)
    ensures Sum(xs + [x]) == Sum(xs) + x
  {
  }

  lemma {:induction false} SumBounds(xs: seq<real>, lo: real, hi: real)
    requires forall i :: 0 <= i < |xs| ==> lo <= xs[i] <= hi
    ensures lo * (|xs| as real) <= Sum(xs) <= hi * (|xs| as real)
  {
    if xs != [] {
      SumBounds(xs[..|xs| - 1], lo, hi);
      Spread(lo, |xs| - 1);
      Spread(hi, |xs| - 1);
    }
  }

  lemma Spread(x: real, n: nat)
    ensures x * ((n + 1) as real) == x * (n as real) + x
  {
  }

  lemma Strict(x: real, y: real, b: real)
    requires x < y && 0.0 < b
    ensures x * b < y * b
  {
  }

  lemma QuotientBounds(a: real, b: real, lo: real, hi: real)
    requires 0.0 < b && lo * b <= a <= hi * b
    ensures lo <= a / b <= hi
  {
    var q := a / b;
    assert q * b == a;
    if q < lo {
      Strict(q, lo, b);
    }
    if hi < q {
      Strict(hi, q, b);
    }
  }

  datatype Dimension = MemoryDimension | VramDimension | IoDimension

  function Get(p: PressureState, d: Dimension): real {
    match d
    case MemoryDimension => p.memoryPressure
    case VramDimension => p.vramPressure
    case IoDimension => p.ioPressure
  }

  /** An average lies between the bounds of what is averaged. */
  lemma MeanWithin(xs: seq<real>, lo: real, hi: real)
    requires xs != [] && forall i :: 0 <= i < |xs| ==> lo <= xs[i] <= hi
    ensures lo <= Mean(xs) <= hi
  {
    SumBounds(xs, lo, hi);
    QuotientBounds(Sum(xs), |xs| as real, lo, hi);
  }

  function Readings(es: seq<Entry>, d: Dimension): (xs: seq<real>)
    ensures |xs| == |es| && forall i :: 0 <= i < |es| ==> xs[i] == Get(es[i].global, d)
  {
    if es == [] then [] else Readings(es[..|es| - 1], d) + [Get(es[|es| - 1].global, d)]
  }

  lemma {:induction false} TotalIsSum(es: seq<Entry>, d: Dimension)
    ensures Get(Total(es), d) == Sum(Readings(es, d))
  {
    if es != [] {
      var n := |es| - 1;
      TotalIsSum(es[..n], d);
      SumNext(Readings(es[..n], d), Get(es[n].global, d));
      match d
      case MemoryDimension =>
      case VramDimension =>
      case IoDimension =>
    }
  }

  /** In each dimension the average over a window lies within whatever bounds the readings lie in. */
  lemma {:induction false} AverageWithinReadings(es: seq<Entry>, d: Dimension, lo: real, hi: real)
    requires es != [] && forall i :: 0 <= i < |es| ==> lo <= Get(es[i].global, d) <= hi
    ensures lo <= Get(MeanState(es), d) <= hi
  {
    AverageIsMean(es, d);
    MeanWithin(Readings(es, d), lo, hi);
  }

  lemma {:induction false} AverageIsMean(es: seq<Entry>, d: Dimension)
    requires es != []
    ensures Get(MeanState(es), d) == Mean(Readings(es, d))
  {
    TotalIsSum(es, d);
    match d
    case MemoryDimension =>
    case VramDimension =>
    case IoDimension =>
  }

  // ---- trend ----

  datatype PressureTrend = Rising | Falling | Stable

  /** The second half of the window against the first, with a tolerance of five hundredths. */
  function TrendOf(window: seq<real>): PressureTrend {
    if |window| < 4 then Stable
    else
      var mid := |window| / 2;
      var diff := Mean(window[mid..]) - Mean(window[..mid]);
      if diff > 0.05 then Rising else if diff < -0.05 then Falling else Stable
  }

  /**
   * Bounds on the two halves of a window decide its trend: rising if the halves are more than the tolerance apart
   * upwards, falling if downwards, and neither if they cannot be that far apart.
   */
  lemma TrendByBounds(window: seq<real>, lo1: real, hi1: real, lo2: real, hi2: real)
    requires |window| >= 4
    requires forall i :: 0 <= i < |window| / 2 ==> lo1 <= window[i] <= hi1
    requires forall i :: |window| / 2 <= i < |window| ==> lo2 <= window[i] <= hi2
    ensures lo2 - hi1 > 0.05 ==> TrendOf(window) == Rising
    ensures hi2 - lo1 < -0.05 ==> TrendOf(window) == Falling
    ensures hi2 - lo1 <= 0.05 ==> TrendOf(window) != Rising
    ensures lo2 - hi1 >= -0.05 ==> TrendOf(window) != Falling
  {
    var mid := |window| / 2;
    MeanWithin(window[..mid], lo1, hi1);
    MeanWithin(window[mid..], lo2, hi2);
  }

  ghost predicate NonDecreasing(xs: seq<real>) {
    forall i, j :: 0 <= i <= j < |xs| ==> xs[i] <= xs[j]
  }

  ghost predicate NonIncreasing(xs: seq<real>) {
    forall i, j :: 0 <= i <= j < |xs| ==> xs[j] <= xs[i]
  }

  /** A window whose pressures never fall is not called falling, and one whose pressures never rise not rising. */
  lemma TrendFollowsWindow(window: seq<real>)
    ensures NonDecreasing(window) ==> TrendOf(window) != Falling
    ensures NonIncreasing(window) ==> TrendOf(window) != Rising
  {
    if |window| >= 4 {
      var mid, n := |window| / 2, |window|;
      if NonDecreasing(window) {
        TrendByBounds(window, window[0], window[mid], window[mid], window[n - 1]);
      }
      if NonIncreasing(window) {
        TrendByBounds(window, window[mid], window[0], window[n - 1], window[mid]);
      }
    }
  }

  lemma {:induction false} SumReverse(xs: seq<real>)
    ensures Sum(Reverse(xs)) == Sum(xs)
  {
    if xs != [] {
      SumReverse(xs[1..]);
      SumNext(Reverse(xs[1..]), xs[0]);
      SumFront(xs);
    }
  }

  lemma {:induction false} SumFront(xs: seq<real>)
    requires xs != []
    ensures Sum(xs) == xs[0] + Sum(xs[1..])
  {
    if |xs| > 1 {
      var front := xs[..|xs| - 1];
      SumFront(front);
      assert xs[1..][..|xs| - 2] == front[1..];
    }
  }

  function Mirror(t: PressureTrend): PressureTrend {
    match t
    case Rising => Falling
    case Falling => Rising
    case Stable => Stable
  }

  lemma {:induction false} MeanReverse(xs: seq<real>)
    requires xs != []
    ensures Reverse(xs) != [] && Mean(Reverse(xs)) == Mean(xs)
  {
    ReverseAt(xs);
    SumReverse(xs);
  }

  lemma {:induction false} HalvesSwap(window: seq<real>, mid: nat)
    requires |window| == 2 * mid
    ensures |Reverse(window)| == |window|
    ensures Reverse(window)[..mid] == Reverse(window[mid..]) && Reverse(window)[mid..] == Reverse(window[..mid])
  {
    var first, second := window[..mid], window[mid..];
    assert window == first + second;
    ReverseConcat(first, second);
    ReverseAt(first);
    ReverseAt(second);
  }

  /** Reading a window of even length backwards turns rising into falling and the other way round. */
  lemma {:induction false} TrendMirrors(window: seq<real>)
    requires |window| % 2 == 0
    ensures TrendOf(Reverse(window)) == Mirror(TrendOf(window))
  {
    var mid := |window| / 2;
    HalvesSwap(window, mid);
    if |window| >= 4 {
      MeanReverse(window[..mid]);
      MeanReverse(window[mid..]);
    }
  }

  // ---- windows of odd length ----

  function Constant(x: real, n: nat): (xs: seq<real>)
    ensures |xs| == n && forall i :: 0 <= i < n ==> xs[i] == x
  {
    seq(n, _ => x)
  }

  lemma {:induction false} SumConstant(x: real, n: nat)
    ensures Sum(Constant(x, n)) == x * (n as real)
  {
    if n > 0 {
      SumConstant(x, n - 1);
      assert Constant(x, n)[..n - 1] == Constant(x, n - 1);
      Spread(x, n - 1);
    }
  }

  /** `m` calm readings, a single full one, then `m` readings just at the tolerance. */
  function Spike(m: nat): (window: seq<real>)
    ensures |window| == 2 * m + 1
  {
    Constant(0.0, m) + [1.0] + Constant(0.05, m)
  }

  /** The middle reading of an odd window counts to the second half, which is enough to make it rise. */
  lemma {:induction false} SpikeRises(m: nat)
    requires m >= 2
    ensures TrendOf(Spike(m)) == Rising
  {
    var w := Spike(m);
    var second := [1.0] + Constant(0.05, m);
    assert |w| / 2 == m && w[..m] == Constant(0.0, m) && w[m..] == second;
    MeanWithin(Constant(0.0, m), 0.0, 0.0);
    SumFront(second);
    assert second[1..] == Constant(0.05, m);
    SumConstant(0.05, m);
    Spread(0.05, m);
    QuotientAbove(Sum(second), (m + 1) as real, 0.05);
  }

  lemma QuotientAbove(a: real, b: real, x: real)
    requires 0.0 < b && x * b < a
    ensures x < a / b
  {
    var q := a / b;
    assert q * b == a;
    if q < x {
      Strict(q, x, b);
    }
  }

  /** Backwards the middle reading still counts to the second half, and the window does not fall. */
  lemma {:induction false} SpikeBackwards(m: nat)
    requires m >= 2
    ensures TrendOf(Reverse(Spike(m))) != Falling
  {
    var w, r := Spike(m), Reverse(Spike(m));
    ReverseAt(w);
    assert |r| / 2 == m;
    forall i | 0 <= i < m ensures r[i] == 0.05 {
      assert r[i] == w[2 * m - i];
    }
    forall i | m <= i < |r| ensures 0.0 <= r[i] <= 1.0 {
      assert r[i] == w[2 * m - i];
    }
    TrendByBounds(r, 0.05, 0.05, 0.0, 1.0);
  }

  ghost predicate Lopsided(window: seq<real>, n: nat) {
    && |window| == n && (forall i :: 0 <= i < n ==> 0.0 <= window[i] <= 1.0)
    && TrendOf(Reverse(window)) != Mirror(TrendOf(window))
  }

  /** Some window of pressures between 0 and 1 fails to mirror exactly for the odd lengths from five on. */
  lemma {:induction false} LopsidedIffOdd(n: nat)
    ensures (exists window :: Lopsided(window, n)) <==> n % 2 == 1 && n >= 5
  {
    if n % 2 == 1 && n >= 5 {
      var m := n / 2;
      SpikeRises(m);
      SpikeBackwards(m);
      assert Lopsided(Spike(m), n);
    } else {
      forall window | |window| == n ensures !Lopsided(window, n) {
        if n % 2 == 0 {
          TrendMirrors(window);
        } else {
          ReverseAt(window);
        }
      }
    }
  }

  // ---- averages and trend without division ----

  function NatSum(xs: seq<nat>): nat {
    if xs == [] then 0 else NatSum(xs[..|xs| - 1]) + xs[|xs| - 1]
  }

  function QueueDepths(es: seq<Entry>): (xs: seq<nat>)
    ensures |xs| == |es| && forall i :: 0 <= i < |es| ==> xs[i] == es[i].global.queueDepth
  {
    if es == [] then [] else QueueDepths(es[..|es| - 1]) + [es[|es| - 1].global.queueDepth]
  }

  function Throughputs(es: seq<Entry>): (xs: seq<nat>)
    ensures |xs| == |es| && forall i :: 0 <= i < |es| ==> xs[i] == es[i].global.throughputBps
  {
    if es == [] then [] else Throughputs(es[..|es| - 1]) + [es[|es| - 1].global.throughputBps]
  }

  lemma NatSumNext(xs: seq<nat>, x: nat)
    ensures NatSum(xs + [x]) == NatSum(xs) + x
  {
    assert (xs + [x])[..|xs|] == xs;
  }

  lemma {:induction false} CountTotals(es: seq<Entry>)
    ensures Total(es).queueDepth == NatSum(QueueDepths(es)) && Total(es).throughputBps == NatSum(Throughputs(es))
  {
    if es != [] {
      var front, g := es[..|es| - 1], es[|es| - 1].global;
      CountTotals(front);
      NatSumNext(QueueDepths(front), g.queueDepth);
      NatSumNext(Throughputs(front), g.throughputBps);
    }
  }

  lemma RoundsDown(total: nat, n: nat)
    requires n > 0
    ensures (total / n) * n <= total < (total / n + 1) * n
  {
    assert total == (total / n) * n + total % n;
    assert (total / n + 1) * n == (total / n) * n + n;
  }

  /** The averages of queue depth and throughput are the means of the readings, rounded down. */
  lemma {:induction false} CountAverages(es: seq<Entry>)
    requires es != []
    ensures var m, n := MeanState(es), |es|;
      && m.queueDepth * n <= NatSum(QueueDepths(es)) < (m.queueDepth + 1) * n
      && m.throughputBps * n <= NatSum(Throughputs(es)) < (m.throughputBps + 1) * n
  {
    CountTotals(es);
    RoundsDown(NatSum(QueueDepths(es)), |es|);
    RoundsDown(NatSum(Throughputs(es)), |es|);
  }

  lemma OrderTimes(k: real, a: real, b: real)
    requires k > 0.0
    ensures k * a > k * b <==> a > b
  {
    if a > b {
      Strict(b, a, k);
    } else if a < b {
      Strict(a, b, k);
    }
  }

  /** Two means `a / m` and `b / n` differ by more than five hundredths, said without division. */
  lemma MeansApart(a: real, m: real, b: real, n: real, x: real, y: real)
    requires m > 0.0 && n > 0.0 && x * m == a && y * n == b
    ensures y - x > 0.05 <==> 20.0 * (m * b - n * a) > m * n
  {
    var k := m * n;
    assert k > 0.0;
    OrderTimes(k, y - x, 0.05);
    assert k * (y - x) == m * b - n * a by {
      assert (m * n) * y == m * (y * n);
      assert (m * n) * x == n * (x * m);
    }
  }

  /** The trend compares the sums of the two halves, each weighted with the length of the other. */
  lemma {:induction false} TrendExact(window: seq<real>)
    requires |window| >= 4
    ensures var mid := |window| / 2;
      var m, n := mid as real, (|window| - mid) as real;
      var first, second := Sum(window[..mid]), Sum(window[mid..]);
      && (TrendOf(window) == Rising <==> 20.0 * (m * second - n * first) > m * n)
      && (TrendOf(window) == Falling <==> 20.0 * (n * first - m * second) > m * n)
  {
    var mid := |window| / 2;
    var m, n := mid as real, (|window| - mid) as real;
    var first, second := window[..mid], window[mid..];
    QuotientTimes(Sum(first), m);
    QuotientTimes(Sum(second), n);
    MeansApart(Sum(first), m, Sum(second), n, Mean(first), Mean(second));
    MeansApart(Sum(second), n, Sum(first), m, Mean(second), Mean(first));
  }

  lemma QuotientTimes(a: real, b: real)
    requires b != 0.0
    ensures (a / b) * b == a
  {
  }
}

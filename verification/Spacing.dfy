/** Events that keep a minimum distance in time, and how many of them fit in a window. */
module Spacing {

  /** Every event happens at least `gap` ticks after every earlier one. */
  ghost predicate SpacedBy(times: seq<int>, gap: int) {
    forall i, j :: 0 <= i < j < |times| ==> times[i] + gap <= times[j]
  }

  lemma {:induction false} SpacingGrows(times: seq<int>, at: int, gap: nat)
    requires SpacedBy(times, gap) && (times != [] ==> times[|times| - 1] + gap <= at)
    ensures SpacedBy(times + [at], gap)
  {
    forall i, j | 0 <= i < j < |times| + 1 ensures (times + [at])[i] + gap <= (times + [at])[j] {
      if j == |times| && i < |times| - 1 {
        assert times[i] + gap <= times[|times| - 1];
      }
    }
  }

  /** How many of `times` fall in the closed window `[lo, hi]`. */
  function CountIn(times: seq<int>, lo: int, hi: int): nat {
    if times == [] then 0
    else CountIn(times[..|times| - 1], lo, hi) + (if lo <= times[|times| - 1] <= hi then 1 else 0)
  }

  lemma {:induction false} CountTimesGap(times: seq<int>, gap: int, lo: int, hi: int, m: int)
    requires 0 < gap && lo <= hi && SpacedBy(times, gap)
    requires forall i :: 0 <= i < |times| ==> times[i] <= m
    ensures CountIn(times, lo, hi) * gap <= if m < lo then 0 else (if m < hi then m else hi) - lo + gap
  {
    if times != [] {
      var last, front := times[|times| - 1], times[..|times| - 1];
      var c := CountIn(front, lo, hi);
      assert SpacedBy(front, gap);
      if lo <= last <= hi {
        forall i | 0 <= i < |front| ensures front[i] <= last - gap {
          assert times[i] + gap <= times[|times| - 1];
        }
        CountTimesGap(front, gap, lo, hi, last - gap);
        Distribute(c, gap);
      } else {
        CountTimesGap(front, gap, lo, hi, m);
      }
    }
  }

  lemma Distribute(c: int, gap: int)
    ensures (c + 1) * gap == c * gap + gap
  {
  }

  lemma DivBound(c: nat, gap: int, width: nat)
    requires 0 < gap && c * gap <= width + gap
    ensures c <= width / gap + 1
  {
    var q := width / gap;
    assert width < q * gap + gap;
    if c >= q + 2 {
      Monotone(q + 2, c, gap);
      Distribute(q, gap);
      Distribute(q + 1, gap);
      assert false;
    }
  }

  lemma Monotone(a: int, b: int, gap: int)
    requires a <= b && 0 < gap
    ensures a * gap <= b * gap
  {
  }

  /** At most `width / gap + 1` events that keep distance `gap` fit in a window of length `width`. */
  lemma WindowBound(times: seq<int>, gap: int, lo: int, width: nat)
    requires 0 < gap && SpacedBy(times, gap)
    ensures CountIn(times, lo, lo + width) <= width / gap + 1
  {
    var m := if times == [] then lo else times[|times| - 1];
    forall i | 0 <= i < |times| ensures times[i] <= m {
      assert i < |times| - 1 ==> times[i] + gap <= times[|times| - 1];
    }
    CountTimesGap(times, gap, lo, lo + width, m);
    DivBound(CountIn(times, lo, lo + width), gap, width);
  }

  /** `n` periods. */
  function Ticks(n: nat, period: nat): nat {
    if n == 0 then 0 else Ticks(n - 1, period) + period
  }

  lemma {:induction false} TicksMultiply(n: nat, period: nat)
    ensures Ticks(n, period) == n * period
  {
    if n > 0 {
      TicksMultiply(n - 1, period);
      assert n * period == (n - 1) * period + period;
    }
  }

  lemma {:induction false} CountAppend(times: seq<int>, at: int, lo: int, hi: int)
    requires lo <= at <= hi
    ensures CountIn(times + [at], lo, hi) == CountIn(times, lo, hi) + 1
  {
  }
}

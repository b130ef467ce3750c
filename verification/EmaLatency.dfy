/** The rolling I/O latency: an exponential moving average over integers, truncated at every update. */
module EmaLatency {

  /** Smoothing factors are stored in millionths. */
  const SCALE: nat := 1_000_000

  /** The factor is clamped to `[0, 1]` before it is encoded. */
  function EncodeFactor(factor: real): (s: nat)
    ensures s <= SCALE
    ensures 0.0 <= factor <= 1.0 ==> s as real <= factor * 1_000_000.0 < s as real + 1.0
    ensures factor >= 1.0 ==> s == SCALE
    ensures factor <= 0.0 ==> s == 0
  {
    var clamped := if factor < 0.0 then 0.0 else if factor > 1.0 then 1.0 else factor;
    (clamped * 1_000_000.0).Floor
  }

  /** One sample folded into the average; zero stands for "no sample yet". */
  function Smooth(s: nat, current: nat, sample: nat): nat
    requires s <= SCALE
  {
    if current == 0 then sample
    else
      NonNegative(s, sample);
      NonNegative(SCALE - s, current);
      (s * sample + (SCALE - s) * current) / SCALE
  }

  lemma NonNegative(a: nat, b: nat)
    ensures 0 <= a * b
  {
  }

  datatype Update = Update(factor: nat, sample: nat)

  ghost predicate ValidUpdates(us: seq<Update>) {
    forall i :: 0 <= i < |us| ==> us[i].factor <= SCALE
  }

  /** The samples folded in one after the other. */
  function Fold(start: nat, us: seq<Update>): nat
    requires ValidUpdates(us)
  {
    if us == [] then start
    else var last := us[|us| - 1]; Smooth(last.factor, Fold(start, us[..|us| - 1]), last.sample)
  }

  // ---- the average stays within the samples ----

  lemma Weighted(s: nat, a: int, b: int, c: int)
    requires s <= SCALE && a <= b && a <= c
    ensures SCALE * a <= s * b + (SCALE - s) * c
  {
    assert s * (b - a) >= 0 && (SCALE - s) * (c - a) >= 0;
    assert s * b + (SCALE - s) * c == SCALE * a + s * (b - a) + (SCALE - s) * (c - a);
  }

  lemma SmoothBetween(s: nat, current: nat, sample: nat, lo: int, hi: int)
    requires s <= SCALE && lo <= current <= hi && lo <= sample <= hi
    ensures lo <= Smooth(s, current, sample) <= hi
  {
    if current != 0 {
      Weighted(s, lo, sample, current);
      Weighted(s, 0 - hi, 0 - sample, 0 - current);
      assert s * (0 - sample) + (SCALE - s) * (0 - current) == 0 - (s * sample + (SCALE - s) * current);
    }
  }

  /**
   * Starting from no samples, the average lies between the smallest and the largest sample seen, whatever the
   * factors were and however often the average was truncated.
   */
  lemma {:induction false} AverageWithinSamples(us: seq<Update>, lo: int, hi: int)
    requires ValidUpdates(us) && us != []
    requires forall i :: 0 <= i < |us| ==> lo <= us[i].sample <= hi
    ensures lo <= Fold(0, us) <= hi
  {
    var front, last := us[..|us| - 1], us[|us| - 1];
    if front == [] {
      assert Fold(0, front) == 0;
    } else {
      AverageWithinSamples(front, lo, hi);
      SmoothBetween(last.factor, Fold(0, front), last.sample, lo, hi);
    }
  }

  // ---- a constant load ----

  /** The change made by one update is the truncated fraction of the distance. */
  lemma SmoothStep(s: nat, current: nat, v: nat)
    requires s <= SCALE && 0 < current
    ensures Smooth(s, current, v) == current + (s * (v - current)) / SCALE
  {
  }

  lemma ProductBounds(s: nat, k: nat)
    requires 0 < s <= SCALE
    ensures k <= s * k <= SCALE * k
  {
  }

  lemma Above(s: nat, current: nat, v: nat)
    requires 0 < s <= SCALE && v < current
    ensures v <= Smooth(s, current, v) < current
  {
    SmoothStep(s, current, v);
    ProductBounds(s, current - v);
    assert s * (v - current) == -(s * (current - v));
  }

  lemma Below(s: nat, current: nat, v: nat)
    requires 0 < s <= SCALE && 0 < current <= v
    ensures current <= Smooth(s, current, v) <= v
    ensures Smooth(s, current, v) == current <==> s * (v - current) < SCALE
  {
    SmoothStep(s, current, v);
    ProductBounds(s, v - current);
  }

  /** A sample equal to `v` leaves the average alone exactly when it is at most `v` and within one truncation of it. */
  lemma Settled(s: nat, current: nat, v: nat)
    requires 0 < s <= SCALE
    ensures Smooth(s, current, v) == current <==>
      current <= v && (current == 0 ==> v == 0) && s * (v - current) < SCALE
  {
    if current == 0 {
    } else if v < current {
      Above(s, current, v);
    } else {
      Below(s, current, v);
    }
  }

  function Distance(a: int, b: int): nat {
    if a < b then b - a else a - b
  }

  function Repeated(s: nat, start: nat, v: nat, n: nat): nat
    requires s <= SCALE
  {
    if n == 0 then start else Smooth(s, Repeated(s, start, v, n - 1), v)
  }

  /** Under a constant load the average never moves away from it. */
  lemma NeverDiverges(s: nat, current: nat, v: nat)
    requires 0 < s <= SCALE
    ensures Distance(Smooth(s, current, v), v) <= Distance(current, v)
  {
    if v < current {
      Above(s, current, v);
    } else if 0 < current {
      Below(s, current, v);
    }
  }

  lemma {:induction false} MovesOrSettled(s: nat, start: nat, v: nat, n: nat)
    requires 0 < s <= SCALE
    ensures Settles(s, Repeated(s, start, v, n), v) || Distance(Repeated(s, start, v, n), v) + n <= Distance(start, v)
  {
    if n > 0 {
      MovesOrSettled(s, start, v, n - 1);
      var before := Repeated(s, start, v, n - 1);
      Settled(s, before, v);
      if before == 0 {
        Settled(s, v, v);
      } else if v < before {
        Above(s, before, v);
      } else {
        Below(s, before, v);
      }
    }
  }

  /** The resting position: never above the load, and less than one truncated step below it. */
  ghost predicate Settles(s: nat, current: nat, v: nat) {
    current <= v && (current == 0 ==> v == 0) && s * (v - current) < SCALE
  }

  /**
   * Under a constant load `v` the average comes to rest after at most `|start - v|` updates and stays there;
   * arriving from above it rests on `v` itself.
   */
  lemma {:induction false} Converges(s: nat, start: nat, v: nat, n: nat)
    requires 0 < s <= SCALE
    requires Distance(start, v) <= n
    ensures Settles(s, Repeated(s, start, v, n), v)
    ensures v <= start ==> Repeated(s, start, v, n) == v
    ensures Smooth(s, Repeated(s, start, v, n), v) == Repeated(s, start, v, n)
  {
    MovesOrSettled(s, start, v, n);
    if v <= start {
      StaysAbove(s, start, v, n);
    }
    Settled(s, v, v);
    Settled(s, Repeated(s, start, v, n), v);
  }

  lemma {:induction false} StaysAbove(s: nat, start: nat, v: nat, n: nat)
    requires 0 < s <= SCALE && v <= start
    ensures v <= Repeated(s, start, v, n)
  {
    if n > 0 {
      StaysAbove(s, start, v, n - 1);
      var before := Repeated(s, start, v, n - 1);
      if v < before {
        Above(s, before, v);
      } else if 0 < before {
        Below(s, before, v);
      }
    }
  }

  lemma {:induction false} StrictProduct(s: nat, d: nat)
    requires s < SCALE && 0 < d
    ensures s * d < SCALE * d
  {
    if d > 1 {
      StrictProduct(s, d - 1);
      assert s * d == s * (d - 1) + s;
    }
  }

  lemma QuotientBelow(x: nat, d: nat)
    requires x < SCALE * d
    ensures x / SCALE < d
  {
  }

  lemma ShortStep(s: nat, d: nat)
    requires s < SCALE && 0 < d
    ensures (s * d) / SCALE < d
  {
    StrictProduct(s, d);
    QuotientBelow(s * d, d);
  }

  lemma StillBelow(s: nat, current: nat, v: nat)
    requires s < SCALE && 0 < current < v
    ensures current <= Smooth(s, current, v) < v
  {
    SmoothStep(s, current, v);
    ShortStep(s, v - current);
  }

  /** A running average below the load moves, if at all, by less than the distance. */
  lemma {:induction false} StaysBelow(s: nat, start: nat, v: nat, n: nat)
    requires s < SCALE && 0 < start < v
    ensures 0 < Repeated(s, start, v, n) < v
  {
    if n > 0 {
      StaysBelow(s, start, v, n - 1);
      var before := Repeated(s, start, v, n - 1);
      StillBelow(s, before, v);
    }
  }

  /** A factor of zero freezes the average once it has a value. */
  lemma {:induction false} Frozen(start: nat, v: nat, n: nat)
    requires 0 < start
    ensures Repeated(0, start, v, n) == start
  {
    if n > 0 {
      Frozen(start, v, n - 1);
      SmoothStep(0, start, v);
    }
  }

  lemma FullWeight(current: nat, sample: nat)
    ensures Smooth(SCALE, current, sample) == sample
  {
  }

  /**
   * A steady load is reached exactly if there was no average yet, or it was equal to the load, or above it and the
   * factor is not zero, or the factor is one: truncation stops every other average short of the load for good.
   */
  lemma {:induction false} ReachesIff(s: nat, start: nat, v: nat)
    requires s <= SCALE
    ensures (exists n: nat :: Repeated(s, start, v, n) == v) <==>
      start == 0 || start == v || (v < start && 0 < s) || s == SCALE
  {
    if start == v {
      assert Repeated(s, start, v, 0) == v;
    } else if start == 0 || s == SCALE {
      FullWeight(start, v);
      assert Repeated(s, start, v, 0) == start;
      assert Repeated(s, start, v, 1) == Smooth(s, start, v) == v;
    } else if s == 0 {
      forall n: nat ensures Repeated(s, start, v, n) != v {
        Frozen(start, v, n);
      }
    } else if v < start {
      Converges(s, start, v, start - v);
    } else {
      forall n: nat ensures Repeated(s, start, v, n) != v {
        StaysBelow(s, start, v, n);
      }
    }
  }

  /** Truncation leaves a permanent error: with the default factor an average of 97 never reaches a steady load of 100. */
  lemma {:induction false} RestsShortOfTheLoad(n: nat)
    ensures Repeated(300_000, 97, 100, n) == 97
  {
    if n > 0 {
      RestsShortOfTheLoad(n - 1);
    }
  }
}

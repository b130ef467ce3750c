/** An interleaving of concurrent latency updates in which as many swaps fail as possible. */
module LockFreeRetries {
  import opened EmaLatency
  import opened LockFreeSteps

  lemma {:induction false} Join(st: State, a: seq<Step>, b: seq<Step>)
    requires Runs(st, a) && Runs(After(st, a), b)
    ensures Runs(st, a + b) && After(st, a + b) == After(After(st, a), b)
    decreases |a|
  {
    if a == [] {
      assert a + b == b;
    } else {
      Join(Next(st, a[0]), a[1..], b);
      assert a + b == [a[0]] + (a[1..] + b);
    }
  }

  /** Updater `i` brings the sample `i + 1`; the first `done` have finished, the others stand at `lo` or, from `split` on, at `hi`. */
  ghost predicate Shape(st: State, n: nat, done: nat, split: nat, lo: Pc, hi: Pc) {
    && |st.updaters| == n && st.factor == SCALE && st.latency == done && |st.commits| == done
    && forall i :: 0 <= i < n ==>
         st.updaters[i].sample == i + 1 && st.updaters[i].pc == if i < done then Done else if i < split then lo else hi
  }

  /** One step after another moves the updaters from `from` on from `hi` to `lo`. */
  lemma {:induction false} LoadFactors(st: State, n: nat, from: nat) returns (steps: seq<Step>)
    requires from <= n && Shape(st, n, 0, from, Ready(SCALE), Start)
    ensures Runs(st, steps)
    ensures Shape(After(st, steps), n, 0, n, Ready(SCALE), Start) && After(st, steps).failures == st.failures
    decreases n - from
  {
    steps := [];
    if from < n {
      var next := Next(st, LoadFactor(from));
      var rest := LoadFactors(next, n, from + 1);
      steps := [LoadFactor(from)] + rest;
    }
  }

  lemma {:induction false} LoadAll(st: State, n: nat, k: nat, from: nat) returns (steps: seq<Step>)
    requires k <= from <= n && Shape(st, n, k, from, Loaded(SCALE, k, k), Ready(SCALE))
    ensures Runs(st, steps)
    ensures Shape(After(st, steps), n, k, n, Loaded(SCALE, k, k), Ready(SCALE)) && After(st, steps).failures == st.failures
    decreases n - from
  {
    steps := [];
    if from < n {
      var next := Next(st, Load(from));
      var rest := LoadAll(next, n, k, from + 1);
      steps := [Load(from)] + rest;
    }
  }

  /** After a success every other load is stale, and every swap from `from` on fails. */
  lemma {:induction false} FailAll(st: State, n: nat, k: nat, from: nat) returns (steps: seq<Step>)
    requires k < from <= n && Shape(st, n, k + 1, from, Ready(SCALE), Loaded(SCALE, k, k))
    ensures Runs(st, steps)
    ensures Shape(After(st, steps), n, k + 1, n, Ready(SCALE), Loaded(SCALE, k, k))
    ensures After(st, steps).failures == st.failures + (n - from)
    decreases n - from
  {
    steps := [];
    if from < n {
      var next := Next(st, Swap(from));
      var rest := FailAll(next, n, k, from + 1);
      steps := [Swap(from)] + rest;
    }
  }

  /** All load, one succeeds, the others fail. */
  lemma {:induction false} Round(st: State, n: nat, k: nat) returns (steps: seq<Step>)
    requires k < n && Shape(st, n, k, n, Ready(SCALE), Start)
    ensures Runs(st, steps)
    ensures Shape(After(st, steps), n, k + 1, n, Ready(SCALE), Start)
    ensures After(st, steps).failures == st.failures + (n - 1 - k)
  {
    var load := LoadAll(st, n, k, k);
    var loaded := After(st, load);
    FullWeight(k, k + 1);
    var swapped := Next(loaded, Swap(k));
    var fail := FailAll(swapped, n, k, k + 1);
    Join(st, load, [Swap(k)] + fail);
    steps := load + ([Swap(k)] + fail);
  }

  lemma {:induction false} Rounds(st: State, n: nat, k: nat) returns (steps: seq<Step>)
    requires k <= n && Shape(st, n, k, n, Ready(SCALE), Start)
    ensures Runs(st, steps)
    ensures 2 * (After(st, steps).failures - st.failures) == (n - k) * (n - k - 1)
    decreases n - k
  {
    steps := [];
    if k < n {
      var round := Round(st, n, k);
      var rest := Rounds(After(st, round), n, k + 1);
      Join(st, round, rest);
      steps := round + rest;
      var m := n - k;
      assert m * (m - 1) == (m - 1) * (m - 2) + 2 * (m - 1);
    }
  }

  /** `n` updaters that overwrite the average with samples of their own, starting from none. */
  function Crowd(n: nat): State {
    State(0, SCALE, seq(n, i requires 0 <= i < n => Updater(i + 1, Start, 0)), [], 0)
  }

  /** The bound is attained: for every `n` some interleaving of `n` updates has exactly `n (n - 1) / 2` failures. */
  lemma {:induction false} RetryBoundIsTight(n: nat) returns (steps: seq<Step>)
    ensures Initial(Crowd(n)) && |Crowd(n).updaters| == n && Runs(Crowd(n), steps)
    ensures 2 * After(Crowd(n), steps).failures == n * (n - 1)
  {
    var begin := LoadFactors(Crowd(n), n, 0);
    var rest := Rounds(After(Crowd(n), begin), n, 0);
    Join(Crowd(n), begin, rest);
    steps := begin + rest;
  }
}

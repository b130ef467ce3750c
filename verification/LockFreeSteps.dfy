/**
 * Concurrent latency updates without a lock. Each updater reads the smoothing factor once, then repeats
 * "load the average, compute, compare-and-swap" until its swap succeeds. Any interleaving of these atomic
 * accesses is allowed, as are changes of the factor by somebody else.
 */
module LockFreeSteps {
  import opened Sequences
  import opened EmaLatency

  /** `at` counts the swaps that had succeeded when `seen` was loaded; the code does not keep it. */
  datatype Pc = Start | Ready(factor: nat) | Loaded(factor: nat, seen: nat, at: nat) | Done

  datatype Updater = Updater(sample: nat, pc: Pc, failures: nat)

  datatype Commit = Commit(who: nat, factor: nat)

  datatype State = State(latency: nat, factor: nat, updaters: seq<Updater>, commits: seq<Commit>, failures: nat)

  datatype Step = SetFactor(value: nat) | LoadFactor(who: nat) | Load(who: nat) | Swap(who: nat)

  ghost predicate Enabled(st: State, step: Step) {
    match step
    case SetFactor(value) => value <= SCALE
    case LoadFactor(i) => i < |st.updaters| && st.updaters[i].pc.Start?
    case Load(i) => i < |st.updaters| && st.updaters[i].pc.Ready?
    case Swap(i) => i < |st.updaters| && st.updaters[i].pc.Loaded? && st.updaters[i].pc.factor <= SCALE
  }

  function WithPc(st: State, i: nat, pc: Pc): seq<Updater>
    requires i < |st.updaters|
  {
    st.updaters[i := st.updaters[i].(pc := pc)]
  }

  ghost function Next(st: State, step: Step): State
    requires Enabled(st, step)
  {
    match step
    case SetFactor(value) => st.(factor := value)
    case LoadFactor(i) => st.(updaters := WithPc(st, i, Ready(st.factor)))
    case Load(i) =>
      st.(updaters := WithPc(st, i, Loaded(st.updaters[i].pc.factor, st.latency, |st.commits|)))
    case Swap(i) =>
      var u := st.updaters[i];
      if st.latency == u.pc.seen then
        st.(latency := Smooth(u.pc.factor, u.pc.seen, u.sample),
            updaters := WithPc(st, i, Done),
            commits := st.commits + [Commit(i, u.pc.factor)])
      else
        st.(updaters := st.updaters[i := Updater(u.sample, Ready(u.pc.factor), u.failures + 1)],
            failures := st.failures + 1)
  }

  ghost predicate Runs(st: State, steps: seq<Step>)
    decreases |steps|
  {
    steps == [] || (Enabled(st, steps[0]) && Runs(Next(st, steps[0]), steps[1..]))
  }

  ghost function After(st: State, steps: seq<Step>): State
    requires Runs(st, steps)
    decreases |steps|
  {
    if steps == [] then st else After(Next(st, steps[0]), steps[1..])
  }

  /** Nobody has started: one updater for each sample, and a factor in range. */
  ghost predicate Initial(st: State) {
    && st.factor <= SCALE && st.commits == [] && st.failures == 0
    && (forall i :: 0 <= i < |st.updaters| ==> st.updaters[i].pc == Start && st.updaters[i].failures == 0)
  }

  // ---- the sequential meaning of a run ----

  ghost predicate CommitsValid(commits: seq<Commit>, n: nat) {
    && (forall k :: 0 <= k < |commits| ==> commits[k].who < n && commits[k].factor <= SCALE)
    && (forall j, k :: 0 <= j < k < |commits| ==> commits[j].who != commits[k].who)
  }

  /** The updates in the order in which their swaps succeeded. */
  ghost function History(commits: seq<Commit>, updaters: seq<Updater>): (us: seq<Update>)
    requires CommitsValid(commits, |updaters|)
    ensures |us| == |commits| && ValidUpdates(us)
  {
    seq(|commits|, k requires 0 <= k < |commits| => Update(commits[k].factor, updaters[commits[k].who].sample))
  }

  /** How often updater `i` may have failed: once for each swap that succeeded before its own. */
  ghost predicate FailuresBounded(st: State, i: nat)
    requires i < |st.updaters|
  {
    var u := st.updaters[i];
    match u.pc
    case Start => u.failures == 0
    case Ready(_) => u.failures <= |st.commits|
    case Loaded(_, seen, at) => u.failures <= at <= |st.commits| && (at == |st.commits| ==> seen == st.latency)
    case Done => exists k :: 0 <= k < |st.commits| && st.commits[k].who == i && u.failures <= k
  }

  ghost predicate FactorOk(pc: Pc) {
    (pc.Ready? || pc.Loaded?) ==> pc.factor <= SCALE
  }

  ghost predicate Inv(st: State, start: nat) {
    && st.factor <= SCALE
    && CommitsValid(st.commits, |st.updaters|)
    && (forall i :: 0 <= i < |st.updaters| ==> FactorOk(st.updaters[i].pc) && FailuresBounded(st, i))
    && (forall k :: 0 <= k < |st.commits| ==> st.updaters[st.commits[k].who].pc == Done)
    && st.latency == Fold(start, History(st.commits, st.updaters))
    && st.failures + |Stale(st)| <= Budget(|st.updaters|, |st.commits|)
  }

  /** Updaters whose next swap may fail: they loaded before the latest successful swap. */
  ghost function Stale(st: State): set<nat> {
    set i: nat | i < |st.updaters| && st.updaters[i].pc.Loaded? && st.updaters[i].pc.at < |st.commits|
  }

  ghost function Unfinished(st: State): set<nat> {
    set i: nat | i < |st.updaters| && st.updaters[i].pc != Done
  }

  /** The k-th success can spoil the load of each of the `n - 1 - k` updaters then unfinished. */
  ghost function Budget(n: nat, k: nat): int {
    if k == 0 then 0 else Budget(n, k - 1) + n - k
  }

  // ---- counting ----

  function Whos(commits: seq<Commit>): set<nat> {
    set k | 0 <= k < |commits| :: commits[k].who
  }

  lemma {:induction false} DistinctWhos(commits: seq<Commit>, n: nat)
    requires CommitsValid(commits, n)
    ensures |Whos(commits)| == |commits|
  {
    if commits != [] {
      var front, last := commits[..|commits| - 1], commits[|commits| - 1];
      DistinctWhos(front, n);
      assert Whos(commits) == Whos(front) + {last.who};
      assert last.who !in Whos(front);
    }
  }

  lemma SubsetSize<T>(a: set<T>, b: set<T>)
    requires a <= b
    ensures |a| <= |b|
  {
    assert b == a + (b - a);
  }

  /** Whoever has committed is done, so at most `n - |commits|` updaters are unfinished. */
  lemma UnfinishedSize(st: State)
    requires CommitsValid(st.commits, |st.updaters|)
    requires forall k :: 0 <= k < |st.commits| ==> st.updaters[st.commits[k].who].pc == Done
    ensures |Unfinished(st)| + |st.commits| <= |st.updaters|
  {
    DistinctWhos(st.commits, |st.updaters|);
    SubsetSize(Unfinished(st) + Whos(st.commits), Span(0, |st.updaters| - 1));
  }

  lemma {:induction false} BudgetClosed(n: nat, k: nat)
    ensures 2 * Budget(n, k) == k * (2 * n - 1 - k)
  {
    if k > 0 {
      BudgetClosed(n, k - 1);
      assert (k - 1) * (2 * n - k) + 2 * n - 2 * k == k * (2 * n - 1 - k);
    }
  }

  lemma BudgetAtMost(n: nat, k: nat)
    requires k <= n
    ensures 2 * Budget(n, k) <= n * (n - 1)
  {
    BudgetClosed(n, k);
    Consecutive(n - k);
    assert n * (n - 1) - k * (2 * n - 1 - k) == (n - k) * (n - k - 1);
  }

  lemma Consecutive(d: nat)
    ensures 0 <= d * (d - 1)
  {
  }

  // ---- what every step keeps ----

  lemma HistorySame(commits: seq<Commit>, a: seq<Updater>, b: seq<Updater>)
    requires |a| == |b| && CommitsValid(commits, |a|)
    requires forall i :: 0 <= i < |a| ==> a[i].sample == b[i].sample
    ensures History(commits, a) == History(commits, b)
  {
  }

  lemma HistoryGrows(commits: seq<Commit>, c: Commit, us: seq<Updater>)
    requires CommitsValid(commits + [c], |us|)
    ensures CommitsValid(commits, |us|) && c.who < |us|
    ensures History(commits + [c], us) == History(commits, us) + [Update(c.factor, us[c.who].sample)]
    ensures History(commits + [c], us)[..|commits|] == History(commits, us)
  {
    var longer := commits + [c];
    assert forall k :: 0 <= k < |commits| ==> longer[k] == commits[k];
    assert longer[|commits|] == c;
  }

  lemma QuietStepKeepsInv(st: State, step: Step, start: nat)
    requires Inv(st, start) && Enabled(st, step) && !step.Swap?
    ensures Inv(Next(st, step), start)
  {
    var st' := Next(st, step);
    HistorySame(st.commits, st.updaters, st'.updaters);
    SubsetSize(Stale(st'), Stale(st));
    forall i | 0 <= i < |st'.updaters| ensures FailuresBounded(st', i) {
      assert FailuresBounded(st, i);
    }
  }

  lemma FailedSwapKeepsInv(st: State, i: nat, start: nat)
    requires Inv(st, start) && Enabled(st, Swap(i)) && st.latency != st.updaters[i].pc.seen
    ensures Inv(Next(st, Swap(i)), start)
  {
    var st' := Next(st, Swap(i));
    HistorySame(st.commits, st.updaters, st'.updaters);
    assert FailuresBounded(st, i);
    assert i in Stale(st);
    SubsetSize(Stale(st'), Stale(st) - {i});
    forall j | 0 <= j < |st'.updaters| ensures FailuresBounded(st', j) {
      assert FailuresBounded(st, j);
    }
  }

  /** The swap sees the average it computed from, so it appends one update to the fold. */
  lemma SwapExtendsFold(st: State, i: nat, start: nat)
    requires Inv(st, start) && Enabled(st, Swap(i)) && st.latency == st.updaters[i].pc.seen
    ensures var st' := Next(st, Swap(i));
      CommitsValid(st'.commits, |st'.updaters|) && st'.latency == Fold(start, History(st'.commits, st'.updaters))
  {
    var st' := Next(st, Swap(i));
    var c := Commit(i, st.updaters[i].pc.factor);
    assert CommitsValid(st'.commits, |st'.updaters|);
    HistorySame(st.commits, st.updaters, st'.updaters);
    HistoryGrows(st.commits, c, st'.updaters);
  }

  lemma SwapKeepsFailuresBounded(st: State, i: nat, start: nat)
    requires Inv(st, start) && Enabled(st, Swap(i)) && st.latency == st.updaters[i].pc.seen
    ensures var st' := Next(st, Swap(i));
      forall j :: 0 <= j < |st'.updaters| ==> FactorOk(st'.updaters[j].pc) && FailuresBounded(st', j)
  {
    var st' := Next(st, Swap(i));
    forall j | 0 <= j < |st'.updaters| ensures FactorOk(st'.updaters[j].pc) && FailuresBounded(st', j) {
      assert FactorOk(st.updaters[j].pc) && FailuresBounded(st, j);
      if j == i {
        assert st'.commits[|st.commits|].who == i;
      } else if st.updaters[j].pc.Done? {
        var k :| 0 <= k < |st.commits| && st.commits[k].who == j && st.updaters[j].failures <= k;
        assert st'.commits[k].who == j;
      }
    }
  }

  /** A success leaves at most the other unfinished updaters with a load that has been overtaken. */
  lemma SwapKeepsBudget(st: State, i: nat, start: nat)
    requires Inv(st, start) && Enabled(st, Swap(i)) && st.latency == st.updaters[i].pc.seen
    requires CommitsValid(Next(st, Swap(i)).commits, |st.updaters|)
    ensures var st' := Next(st, Swap(i));
      st'.failures + |Stale(st')| <= Budget(|st'.updaters|, |st'.commits|)
  {
    var st' := Next(st, Swap(i));
    assert forall k :: 0 <= k < |st'.commits| ==> st'.updaters[st'.commits[k].who].pc == Done;
    UnfinishedSize(st');
    SubsetSize(Stale(st'), Unfinished(st'));
  }

  lemma SuccessfulSwapKeepsInv(st: State, i: nat, start: nat)
    requires Inv(st, start) && Enabled(st, Swap(i)) && st.latency == st.updaters[i].pc.seen
    ensures Inv(Next(st, Swap(i)), start)
  {
    var st' := Next(st, Swap(i));
    SwapExtendsFold(st, i, start);
    SwapKeepsFailuresBounded(st, i, start);
    SwapKeepsBudget(st, i, start);
    assert forall k :: 0 <= k < |st'.commits| ==> st'.updaters[st'.commits[k].who].pc == Done;
  }

  lemma StepKeepsInv(st: State, step: Step, start: nat)
    requires Inv(st, start) && Enabled(st, step)
    ensures Inv(Next(st, step), start)
  {
    if !step.Swap? {
      QuietStepKeepsInv(st, step, start);
    } else if st.latency == st.updaters[step.who].pc.seen {
      SuccessfulSwapKeepsInv(st, step.who, start);
    } else {
      FailedSwapKeepsInv(st, step.who, start);
    }
  }

  lemma {:induction false} RunKeepsInv(st: State, steps: seq<Step>, start: nat)
    requires Inv(st, start) && Runs(st, steps)
    ensures Inv(After(st, steps), start)
    decreases |steps|
  {
    if steps != [] {
      var next := Next(st, steps[0]);
      StepKeepsInv(st, steps[0], start);
      RunKeepsInv(next, steps[1..], start);
    }
  }

  ghost predicate SameWork(a: seq<Updater>, b: seq<Updater>) {
    |a| == |b| && forall i :: 0 <= i < |a| ==> a[i].sample == b[i].sample
  }

  lemma {:induction false} RunKeepsWork(st: State, steps: seq<Step>)
    requires Runs(st, steps)
    ensures SameWork(st.updaters, After(st, steps).updaters)
    decreases |steps|
  {
    if steps != [] {
      var next := Next(st, steps[0]);
      assert SameWork(st.updaters, next.updaters);
      RunKeepsWork(next, steps[1..]);
    }
  }
}

/** With which smoothing factor each of the concurrent latency updates is folded in. */
module LockFreeFactor {
  import opened Types
  import opened EmaLatency
  import opened LockFreeLatency
  import opened LockFreeSteps

  /** The factor in force, `factor` at first, when updater `i` reads it. */
  function FactorRead(factor: nat, steps: seq<Step>, i: nat): Option<nat>
    decreases |steps|
  {
    if steps == [] then None
    else if steps[0] == LoadFactor(i) then Some(factor)
    else FactorRead(if steps[0].SetFactor? then steps[0].value else factor, steps[1..], i)
  }

  lemma {:induction false} CommitsGrow(st: State, steps: seq<Step>)
    requires Runs(st, steps)
    ensures st.commits <= After(st, steps).commits && |After(st, steps).updaters| == |st.updaters|
    decreases |steps|
  {
    if steps != [] {
      CommitsGrow(Next(st, steps[0]), steps[1..]);
    }
  }

  /** The factor updater `i` will have used: the one it holds, or the one it is going to read. */
  function FactorDue(st: State, steps: seq<Step>, i: nat): Option<nat>
    requires i < |st.updaters|
  {
    match st.updaters[i].pc
    case Start => FactorRead(st.factor, steps, i)
    case Ready(factor) => Some(factor)
    case Loaded(factor, _, _) => Some(factor)
    case Done => None
  }

  lemma {:induction false} CommitFactor(st: State, steps: seq<Step>, k: nat)
    requires Runs(st, steps) && |st.commits| <= k < |After(st, steps).commits|
    ensures var c := After(st, steps).commits[k];
      c.who < |st.updaters| && FactorDue(st, steps, c.who) == Some(c.factor)
    decreases |steps|
  {
    if steps != [] {
      var next := Next(st, steps[0]);
      CommitsGrow(next, steps[1..]);
      if |next.commits| <= k {
        CommitFactor(next, steps[1..], k);
      }
    }
  }

  /** Every finished update is folded in with the factor that was in force when it read the factor. */
  lemma {:induction false} FactorAsRead(st: State, steps: seq<Step>, k: nat)
    requires Initial(st) && Runs(st, steps) && k < |After(st, steps).commits|
    ensures var c := After(st, steps).commits[k]; FactorRead(st.factor, steps, c.who) == Some(c.factor)
  {
    CommitFactor(st, steps, k);
  }

  predicate KeepsFactor(steps: seq<Step>)
    decreases |steps|
  {
    steps == [] || (!steps[0].SetFactor? && KeepsFactor(steps[1..]))
  }

  lemma {:induction false} FactorUnchanged(factor: nat, steps: seq<Step>, i: nat)
    requires KeepsFactor(steps)
    ensures FactorRead(factor, steps, i) == None || FactorRead(factor, steps, i) == Some(factor)
    decreases |steps|
  {
    if steps != [] {
      FactorUnchanged(factor, steps[1..], i);
    }
  }

  /** The finished samples in the order of their swaps, all with one factor. */
  function SamplesWith(factor: nat, commits: seq<Commit>, updaters: seq<Updater>): seq<Update> {
    if commits == [] then []
    else
      var front, last := commits[..|commits| - 1], commits[|commits| - 1];
      SamplesWith(factor, front, updaters)
      + (if last.who < |updaters| then [Update(factor, updaters[last.who].sample)] else [])
  }

  lemma {:induction false} HistoryWith(factor: nat, commits: seq<Commit>, updaters: seq<Updater>)
    requires CommitsValid(commits, |updaters|) && forall k :: 0 <= k < |commits| ==> commits[k].factor == factor
    ensures History(commits, updaters) == SamplesWith(factor, commits, updaters)
  {
    if commits != [] {
      var front, last := commits[..|commits| - 1], commits[|commits| - 1];
      HistoryWith(factor, front, updaters);
      assert commits == front + [last];
      HistoryGrows(front, last, updaters);
    }
  }

  /** While nobody changes the factor, the latency is the fold of the finished samples with that one factor. */
  lemma {:induction false} OneFactor(st: State, steps: seq<Step>)
    requires Initial(st) && Runs(st, steps) && KeepsFactor(steps)
    ensures var samples := SamplesWith(st.factor, After(st, steps).commits, st.updaters);
      ValidUpdates(samples) && After(st, steps).latency == Fold(st.latency, samples)
  {
    UpdatesLinearise(st, steps);
    var commits := After(st, steps).commits;
    forall k | 0 <= k < |commits| ensures commits[k].factor == st.factor {
      FactorAsRead(st, steps, k);
      FactorUnchanged(st.factor, steps, commits[k].who);
    }
    HistoryWith(st.factor, commits, st.updaters);
  }
}

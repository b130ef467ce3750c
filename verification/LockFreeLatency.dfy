/** What holds of concurrent latency updates in every interleaving. */
module LockFreeLatency {
  import opened EmaLatency
  import opened LockFreeSteps

  /**
   * Linearisation. In every state of every interleaving the latency is the sequential fold of the finished
   * updates in the order of their successful swaps; each finished update is folded in exactly once, and no
   * unfinished one is. A swap that succeeds on a value that went away and came back is no exception.
   */
  lemma UpdatesLinearise(st: State, steps: seq<Step>)
    requires Initial(st) && Runs(st, steps)
    ensures CommitsValid(After(st, steps).commits, |st.updaters|)
    ensures After(st, steps).latency == Fold(st.latency, History(After(st, steps).commits, st.updaters))
    ensures |After(st, steps).updaters| == |st.updaters|
    ensures forall i :: 0 <= i < |st.updaters| ==>
      (After(st, steps).updaters[i].pc == Done <==> exists k :: 0 <= k < |After(st, steps).commits| && After(st, steps).commits[k].who == i)
  {
    RunKeepsInv(st, steps, st.latency);
    RunKeepsWork(st, steps);
    var end := After(st, steps);
    HistorySame(end.commits, st.updaters, end.updaters);
    forall i | 0 <= i < |st.updaters|
      ensures end.updaters[i].pc == Done <==> exists k :: 0 <= k < |end.commits| && end.commits[k].who == i
    {
      assert FailuresBounded(end, i);
    }
  }

  /**
   * Retries are bounded. An update fails at most once for each update that finished before it, so `n`
   * concurrent updates fail at most `n (n - 1) / 2` times in all, in every interleaving.
   */
  lemma RetriesBounded(st: State, steps: seq<Step>)
    requires Initial(st) && Runs(st, steps)
    ensures var n := |st.updaters|; 2 * After(st, steps).failures <= n * (n - 1)
    ensures |After(st, steps).updaters| == |st.updaters|
    ensures forall i :: 0 <= i < |st.updaters| && After(st, steps).updaters[i].pc != Done ==>
      After(st, steps).updaters[i].failures <= |After(st, steps).commits|
    ensures forall k :: 0 <= k < |After(st, steps).commits| ==>
      After(st, steps).commits[k].who < |st.updaters| &&
      After(st, steps).updaters[After(st, steps).commits[k].who].failures <= k
  {
    RunKeepsInv(st, steps, st.latency);
    RunKeepsWork(st, steps);
    var end := After(st, steps);
    UnfinishedSize(end);
    BudgetAtMost(|end.updaters|, |end.commits|);
    forall i | 0 <= i < |st.updaters| && end.updaters[i].pc != Done
      ensures end.updaters[i].failures <= |end.commits|
    {
      assert FailuresBounded(end, i);
    }
    forall k | 0 <= k < |end.commits|
      ensures end.commits[k].who < |st.updaters| && end.updaters[end.commits[k].who].failures <= k
    {
      assert FailuresBounded(end, end.commits[k].who);
    }
  }
}

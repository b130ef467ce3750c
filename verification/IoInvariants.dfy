/** The run-time checks on the I/O scheduler, and what they mean over whole runs. */
module IoInvariants {
  import opened Types
  import opened IoScheduler

  datatype GhostState = GhostState(pending: map<nat, Request>, completed: seq<Request>, inFlight: int)

  datatype Rule =
    | NoDoubleComplete | FlushCompleteness | CompletionBounded
    | BufferWithinCapacity | RequestIdMonotonic | FailureEventual

  const MAX_CONCURRENT_IO: nat := 4096
  const MAX_FAILURES: nat := 256

  function Failures(completed: seq<Request>): nat {
    if completed == [] then 0
    else Failures(completed[..|completed| - 1]) + (if completed[|completed| - 1].completion.Failed? then 1 else 0)
  }

  ghost predicate IdMonotonic(pending: map<nat, Request>, completed: seq<Request>) {
    forall i, id :: 0 <= i < |completed| && id in pending ==> completed[i].id < id
  }

  /** What each check demands of a snapshot. */
  ghost predicate Holds(rule: Rule, g: GhostState) {
    match rule
    case NoDoubleComplete => forall i :: 0 <= i < |g.completed| ==> g.completed[i].id !in g.pending
    case FlushCompleteness => g.inFlight == 0 ==> g.pending == map[]
    case CompletionBounded => g.inFlight == |g.pending|
    case BufferWithinCapacity => |g.pending| <= MAX_CONCURRENT_IO
    case RequestIdMonotonic => IdMonotonic(g.pending, g.completed)
    case FailureEventual => Failures(g.completed) <= MAX_FAILURES
  }

  // ---- the checks as they are computed ----

  method CheckNoDoubleComplete(g: GhostState) returns (ok: bool)
    ensures ok <==> Holds(NoDoubleComplete, g)
  {
    var i := 0;
    while i < |g.completed|
      invariant i <= |g.completed|
      invariant forall j :: 0 <= j < i ==> g.completed[j].id !in g.pending
    {
      if g.completed[i].id in g.pending {
        return false;
      }
      i := i + 1;
    }
    return true;
  }

  method MaxCompletedId(completed: seq<Request>) returns (m: nat)
    requires completed != []
    ensures forall i :: 0 <= i < |completed| ==> completed[i].id <= m
    ensures exists i :: 0 <= i < |completed| && completed[i].id == m
  {
    m := completed[0].id;
    var k := 1;
    while k < |completed|
      invariant 1 <= k <= |completed|
      invariant forall i :: 0 <= i < k ==> completed[i].id <= m
      invariant exists i :: 0 <= i < k && completed[i].id == m
    {
      if m < completed[k].id {
        m := completed[k].id;
      }
      k := k + 1;
    }
  }

  /** The first key of the ordered map. */
  method MinPendingId(pending: map<nat, Request>) returns (m: nat)
    requires pending != map[]
    ensures m in pending && forall id :: id in pending ==> m <= id
  {
    m :| m in pending;
    var rest := pending.Keys - {m};
    while rest != {}
      invariant m in pending && rest <= pending.Keys
      invariant forall id :: id in pending && id !in rest ==> m <= id
      decreases |rest|
    {
      var id :| id in rest;
      if id < m {
        m := id;
      }
      rest := rest - {id};
    }
  }

  method CheckRequestIdMonotonic(g: GhostState) returns (ok: bool)
    ensures ok <==> Holds(RequestIdMonotonic, g)
  {
    if g.completed == [] || g.pending == map[] {
      return true;
    }
    var maxCompletedId := MaxCompletedId(g.completed);
    var minPendingId := MinPendingId(g.pending);
    return minPendingId > maxCompletedId;
  }

  method CheckFailureEventual(g: GhostState) returns (ok: bool)
    ensures ok <==> Holds(FailureEventual, g)
  {
    var failureCount, k := 0, 0;
    while k < |g.completed|
      invariant k <= |g.completed| && failureCount == Failures(g.completed[..k])
    {
      assert g.completed[..k + 1][..k] == g.completed[..k];
      if g.completed[k].completion.Failed? {
        failureCount := failureCount + 1;
      }
      k := k + 1;
    }
    assert g.completed[..k] == g.completed;
    return failureCount <= MAX_FAILURES;
  }

  method Check(rule: Rule, g: GhostState) returns (ok: bool)
    ensures ok <==> Holds(rule, g)
  {
    match rule {
      case NoDoubleComplete => ok := CheckNoDoubleComplete(g);
      case FlushCompleteness => ok := !(g.inFlight == 0 && |g.pending| != 0);
      case CompletionBounded => ok := g.inFlight == |g.pending|;
      case BufferWithinCapacity => ok := |g.pending| <= MAX_CONCURRENT_IO;
      case RequestIdMonotonic => ok := CheckRequestIdMonotonic(g);
      case FailureEventual => ok := CheckFailureEventual(g);
    }
  }

  class InvariantRegistry {
    var invariants: seq<Rule>

    constructor ()
      ensures invariants == []
    {
      invariants := [];
    }

    method Register(rule: Rule)
      modifies this
      ensures invariants == old(invariants) + [rule]
    {
      invariants := invariants + [rule];
    }

    /** The first registered rule that fails, if any. */
    method CheckAll(g: GhostState) returns (violated: Option<Rule>)
      ensures violated == None <==> forall i :: 0 <= i < |invariants| ==> Holds(invariants[i], g)
      ensures violated.Some? ==>
        exists k :: 0 <= k < |invariants| && invariants[k] == violated.value && !Holds(invariants[k], g) &&
          forall i :: 0 <= i < k ==> Holds(invariants[i], g)
    {
      var k := 0;
      while k < |invariants|
        invariant k <= |invariants|
        invariant forall i :: 0 <= i < k ==> Holds(invariants[i], g)
      {
        var ok := Check(invariants[k], g);
        if !ok {
          return Some(invariants[k]);
        }
        k := k + 1;
      }
      return None;
    }
  }

  // ---- checks that no run violates ----

  /** The scheduler as the checks see it, with the in-flight count taken from the event log. */
  function Snapshot(st: State): GhostState {
    GhostState(st.pending, st.completed, InFlight(st.events))
  }

  /** The first three checks hold in every reachable state, with the in-flight count told by the events alone. */
  lemma BookkeepingChecksHold(maxPending: nat, calls: seq<Call>)
    requires Runs(Start(maxPending), calls)
    ensures var g := Snapshot(After(Start(maxPending), calls));
      Holds(NoDoubleComplete, g) && Holds(FlushCompleteness, g) && Holds(CompletionBounded, g)
  {
    RunKeepsPartition(Start(maxPending), calls);
    EventsMatchState(maxPending, calls);
  }

  /** A miscounted snapshot of a reachable state: the bookkeeping checks catch it exactly if the count is wrong. */
  lemma {:induction false} MiscountCaught(maxPending: nat, calls: seq<Call>, count: int)
    requires Runs(Start(maxPending), calls)
    ensures var st := After(Start(maxPending), calls);
      var g := GhostState(st.pending, st.completed, count);
      && (Holds(CompletionBounded, g) <==> count == InFlight(st.events))
      && (Holds(FlushCompleteness, g) <==> count != 0 || InFlight(st.events) == 0)
  {
    EventsMatchState(maxPending, calls);
  }

  /** A completed request put back among the pending ones is caught. */
  lemma {:induction false} RevivalCaught(maxPending: nat, calls: seq<Call>, k: nat)
    requires Runs(Start(maxPending), calls) && k < |After(Start(maxPending), calls).completed|
    ensures var st := After(Start(maxPending), calls);
      var r := st.completed[k];
      !Holds(NoDoubleComplete, GhostState(st.pending[r.id := r], st.completed, InFlight(st.events)))
  {
  }

  // ---- the id check and the order of completions ----

  ghost predicate Smallest(st: State, c: Call) {
    c.DoComplete? ==> c.id in st.pending && forall id :: id in st.pending ==> c.id <= id
  }

  ghost predicate AlwaysSmallest(st: State, calls: seq<Call>)
    requires Runs(st, calls)
    decreases |calls|
  {
    calls == [] || (Smallest(st, calls[0]) && AlwaysSmallest(Next(st, calls[0]), calls[1..]))
  }

  ghost predicate AlwaysMonotonic(st: State, calls: seq<Call>)
    requires Runs(st, calls)
    decreases |calls|
  {
    Holds(RequestIdMonotonic, Snapshot(st)) && (calls == [] || AlwaysMonotonic(Next(st, calls[0]), calls[1..]))
  }

  lemma StepMonotonic(st: State, c: Call)
    requires Partitioned(st) && Enabled(st, c) && IdMonotonic(st.pending, st.completed)
    ensures IdMonotonic(Next(st, c).pending, Next(st, c).completed) <==> Smallest(st, c)
  {
    var st' := Next(st, c);
    match c {
      case DoIssue(_, _, _, _) =>
      case DoFlush(_, _) =>
      case DoComplete(id, outcome, now) =>
        assert st'.completed[|st.completed|].id == id;
        if IdMonotonic(st'.pending, st'.completed) {
          forall k | k in st.pending ensures id <= k {
            assert k != id ==> k in st'.pending;
          }
        }
    }
  }

  lemma {:induction false} MonotonicFrom(st: State, calls: seq<Call>)
    requires Partitioned(st) && IdMonotonic(st.pending, st.completed) && Runs(st, calls)
    ensures AlwaysMonotonic(st, calls) <==> AlwaysSmallest(st, calls)
    decreases |calls|
  {
    if calls != [] {
      var next := Next(st, calls[0]);
      assert Runs(next, calls[1..]);
      StepMonotonic(st, calls[0]);
      RunKeepsPartition(st, [calls[0]]);
      assert Partitioned(next) by {
        assert [calls[0]][1..] == [];
        assert After(st, [calls[0]]) == After(next, []);
      }
      if Smallest(st, calls[0]) {
        MonotonicFrom(next, calls[1..]);
      } else {
        assert !Holds(RequestIdMonotonic, Snapshot(next));
        assert !AlwaysMonotonic(next, calls[1..]);
      }
    }
  }

  /** The id check holds at every state of a run exactly if every completion takes the smallest pending id. */
  lemma MonotonicIffSmallestFirst(maxPending: nat, calls: seq<Call>)
    requires Runs(Start(maxPending), calls)
    ensures AlwaysMonotonic(Start(maxPending), calls) <==> AlwaysSmallest(Start(maxPending), calls)
  {
    MonotonicFrom(Start(maxPending), calls);
  }

  /** Two requests, the younger completed first. */
  function YoungerFirst(): seq<Call> {
    [DoIssue(Read, 0, Ram, 0), DoIssue(Read, 0, Ram, 0), DoComplete(2, Success, 0)]
  }

  /** Ids are handed out in ascending order here, and the check fails all the same. */
  lemma {:induction false} YoungerFirstTrips()
    ensures Runs(Start(2), YoungerFirst()) && !AlwaysMonotonic(Start(2), YoungerFirst())
  {
    var calls := YoungerFirst();
    var s1 := Next(Start(2), calls[0]);
    assert 1 in s1.pending && |s1.pending| == 1;
    var s2 := Next(s1, calls[1]);
    assert 1 in s2.pending && 2 in s2.pending;
    assert calls[1..][1..] == [calls[2]] && [calls[2]][1..] == [];
    assert Runs(s2, [calls[2]]);
    assert Runs(s1, calls[1..]);
    assert !Smallest(s2, calls[2]);
    assert !AlwaysSmallest(s2, [calls[2]]);
    assert !AlwaysSmallest(s1, calls[1..]);
    MonotonicIffSmallestFirst(2, calls);
  }

  // ---- the capacity check ----

  function Issues(n: nat): seq<Call> {
    seq(n, _ => DoIssue(Read, 0, Ram, 0))
  }

  lemma {:induction false} FillUp(st: State, n: nat)
    requires Partitioned(st) && |st.pending| + n <= st.maxPending
    ensures Runs(st, Issues(n)) && |After(st, Issues(n)).pending| == |st.pending| + n
    decreases n
  {
    if n > 0 {
      var c := DoIssue(Read, 0, Ram, 0);
      IssueKeepsPartition(st, c);
      assert st.nextId !in st.pending;
      assert |Next(st, c).pending| == |st.pending| + 1;
      FillUp(Next(st, c), n - 1);
      assert Issues(n)[0] == c && Issues(n)[1..] == Issues(n - 1);
    }
  }

  ghost predicate CapacityCheckSafe(maxPending: nat) {
    forall calls :: Runs(Start(maxPending), calls) ==> Holds(BufferWithinCapacity, Snapshot(After(Start(maxPending), calls)))
  }

  /** The fixed capacity check can never fire exactly if the scheduler's own limit is at most 4096. */
  lemma CapacityCheckIffLimit(maxPending: nat)
    ensures CapacityCheckSafe(maxPending) <==> maxPending <= MAX_CONCURRENT_IO
  {
    if maxPending <= MAX_CONCURRENT_IO {
      forall calls | Runs(Start(maxPending), calls)
        ensures Holds(BufferWithinCapacity, Snapshot(After(Start(maxPending), calls)))
      {
        IdsPartitioned(maxPending, calls);
      }
    } else {
      FillUp(Start(maxPending), MAX_CONCURRENT_IO + 1);
      assert !Holds(BufferWithinCapacity, Snapshot(After(Start(maxPending), Issues(MAX_CONCURRENT_IO + 1))));
    }
  }

  // ---- the failure check ----

  function FailedCalls(calls: seq<Call>): nat {
    if calls == [] then 0
    else (if calls[0].DoComplete? && calls[0].outcome.Failure? then 1 else 0) + FailedCalls(calls[1..])
  }

  lemma FailuresGrow(completed: seq<Request>, r: Request)
    ensures Failures(completed + [r]) == Failures(completed) + if r.completion.Failed? then 1 else 0
  {
  }

  lemma {:induction false} SuccessesDoNotCount(completed: seq<Request>, more: seq<Request>)
    requires forall i :: 0 <= i < |more| ==> !more[i].completion.Failed?
    ensures Failures(completed + more) == Failures(completed)
  {
    if more == [] {
      assert completed + more == completed;
    } else {
      var front := more[..|more| - 1];
      SuccessesDoNotCount(completed, front);
      FailuresGrow(completed + front, more[|more| - 1]);
      assert completed + more == (completed + front) + [more[|more| - 1]];
    }
  }

  lemma {:induction false} FailuresCounted(st: State, calls: seq<Call>)
    requires Runs(st, calls)
    ensures Failures(After(st, calls).completed) == Failures(st.completed) + FailedCalls(calls)
    decreases |calls|
  {
    if calls != [] {
      var c, next := calls[0], Next(st, calls[0]);
      FailuresCounted(next, calls[1..]);
      match c {
        case DoIssue(_, _, _, _) =>
        case DoComplete(id, outcome, now) => FailuresGrow(st.completed, Resolve(st.pending[id], outcome, now));
        case DoFlush(now, _) => SuccessesDoNotCount(st.completed, Drained(st.pending, PendingIds(st), now));
      }
    }
  }

  /**
   * The failure check counts all failures of a run, consecutive or not: it holds exactly while at most 256
   * completions have failed, so once violated it stays violated.
   */
  lemma FailureCheckIff(maxPending: nat, calls: seq<Call>)
    requires Runs(Start(maxPending), calls)
    ensures Holds(FailureEventual, Snapshot(After(Start(maxPending), calls))) <==> FailedCalls(calls) <= MAX_FAILURES
  {
    FailuresCounted(Start(maxPending), calls);
  }

  /** One request, issued and completed at once. */
  function Pair(id: nat, outcome: Outcome): seq<Call> {
    [DoIssue(Read, 0, Ram, 0), DoComplete(id, outcome, 0)]
  }

  /** `n` rounds in which one request fails and the next succeeds; `id` is the next id to be handed out. */
  function Alternating(n: nat, id: nat): seq<Call> {
    if n == 0 then [] else Pair(id, Failure("")) + (Pair(id + 1, Success) + Alternating(n - 1, id + 2))
  }

  /** No two failures in a row, and the last request did not fail. */
  ghost predicate Scattered(completed: seq<Request>) {
    && (forall i :: 0 <= i < |completed| - 1 ==> !(completed[i].completion.Failed? && completed[i + 1].completion.Failed?))
    && (completed != [] ==> !completed[|completed| - 1].completion.Failed?)
  }

  ghost predicate Idle(st: State, id: nat) {
    st.pending == map[] && st.maxPending > 0 && st.nextId == id
  }

  lemma RunPair(st: State, outcome: Outcome, rest: seq<Call>) returns (st': State)
    requires Idle(st, st.nextId)
    ensures Idle(st', st.nextId + 1)
    ensures RunsScattered(st', rest) ==> RunsScattered(st, Pair(st.nextId, outcome) + rest)
    ensures |st'.completed| == |st.completed| + 1 && st'.completed[..|st.completed|] == st.completed
    ensures st'.completed[|st.completed|].completion.Failed? <==> outcome.Failure?
  {
    var calls := Pair(st.nextId, outcome) + rest;
    var s1 := Next(st, calls[0]);
    assert st.nextId in s1.pending;
    assert calls[1..][0] == calls[1] && calls[1..][1..] == rest;
    assert s1.pending - {st.nextId} == map[];
    st' := Next(s1, calls[1]);
  }

  ghost predicate RunsScattered(st: State, calls: seq<Call>) {
    Runs(st, calls) && Scattered(After(st, calls).completed)
  }

  lemma RunRound(st: State, id: nat, rest: seq<Call>) returns (st': State)
    requires Idle(st, id) && Scattered(st.completed)
    ensures Idle(st', id + 2) && Scattered(st'.completed)
    ensures RunsScattered(st', rest) ==> RunsScattered(st, Pair(id, Failure("")) + (Pair(id + 1, Success) + rest))
  {
    var mid := RunPair(st, Failure(""), Pair(id + 1, Success) + rest);
    st' := RunPair(mid, Success, rest);
  }

  lemma {:induction false} AlternatingScattered(st: State, n: nat, id: nat)
    requires Idle(st, id) && Scattered(st.completed)
    ensures RunsScattered(st, Alternating(n, id))
    decreases n
  {
    if n > 0 {
      var next := RunRound(st, id, Alternating(n - 1, id + 2));
      AlternatingScattered(next, n - 1, id + 2);
    }
  }

  lemma {:induction false} AlternatingFails(n: nat, id: nat)
    ensures FailedCalls(Alternating(n, id)) == n
    decreases n
  {
    if n > 0 {
      AlternatingFails(n - 1, id + 2);
      var rest := Alternating(n - 1, id + 2);
      var calls := Alternating(n, id);
      assert calls[1..][1..][1..][1..] == rest;
      assert FailedCalls(calls[1..][1..]) == n - 1;
    }
  }

  /** 257 failures trip the check although no two of them are consecutive. */
  lemma {:induction false} ScatteredFailuresTrip()
    ensures var calls := Alternating(MAX_FAILURES + 1, 1);
      && Runs(Start(1), calls)
      && Scattered(After(Start(1), calls).completed)
      && !Holds(FailureEventual, Snapshot(After(Start(1), calls)))
  {
    AlternatingScattered(Start(1), MAX_FAILURES + 1, 1);
    AlternatingFails(MAX_FAILURES + 1, 1);
    FailureCheckIff(1, Alternating(MAX_FAILURES + 1, 1));
  }
}

/**
 * How many migrations can be active at once. `decide_migration` checks the capacity under the active lock, but
 * the chunk is only added by a later `mark_active`, so other threads can be accepted in between.
 */
module MigrationConcurrency {
  import opened Types

  datatype Mark = Add(chunk: ChunkId) | Remove(chunk: ChunkId)

  /**
   * `Accepted`: a decision was made and its chunk is not marked yet. `Locked`, `Updated` and `Counted` are the
   * points inside `mark_active` and `mark_complete` after taking the lock, changing the set, and copying its size
   * into the statistics.
   */
  datatype Pc = Idle | Accepted(chunk: ChunkId) | Locked(mark: Mark) | Updated(mark: Mark) | Counted(mark: Mark)

  datatype State = State(active: set<ChunkId>, reported: nat, lock: Option<nat>, threads: seq<Pc>)

  datatype Step =
    | Decide(t: nat, chunk: ChunkId)
    | Withdraw(t: nat)   // the job could not be queued
    | BeginActive(t: nat)
    | BeginComplete(t: nat, chunk: ChunkId)
    | Update(t: nat)
    | Count(t: nat)
    | Unlock(t: nat)

  predicate Enabled(st: State, step: Step) {
    step.t < |st.threads| &&
    match step
    case Decide(t, _) => st.threads[t] == Idle && st.lock == None
    case Withdraw(t) => st.threads[t].Accepted?
    case BeginActive(t) => st.threads[t].Accepted? && st.lock == None
    case BeginComplete(t, _) => st.threads[t] == Idle && st.lock == None
    case Update(t) => st.threads[t].Locked?
    case Count(t) => st.threads[t].Updated?
    case Unlock(t) => st.threads[t].Counted?
  }

  function At(st: State, t: nat, pc: Pc): seq<Pc>
    requires t < |st.threads|
  {
    st.threads[t := pc]
  }

  function Apply(active: set<ChunkId>, mark: Mark): set<ChunkId> {
    match mark
    case Add(chunk) => active + {chunk}
    case Remove(chunk) => active - {chunk}
  }

  function Next(st: State, limit: nat, step: Step): State
    requires Enabled(st, step)
  {
    match step
    case Decide(t, chunk) => if |st.active| < limit then st.(threads := At(st, t, Accepted(chunk))) else st
    case Withdraw(t) => st.(threads := At(st, t, Idle))
    case BeginActive(t) => st.(lock := Some(t), threads := At(st, t, Locked(Add(st.threads[t].chunk))))
    case BeginComplete(t, chunk) => st.(lock := Some(t), threads := At(st, t, Locked(Remove(chunk))))
    case Update(t) =>
      st.(active := Apply(st.active, st.threads[t].mark), threads := At(st, t, Updated(st.threads[t].mark)))
    case Count(t) => st.(reported := |st.active|, threads := At(st, t, Counted(st.threads[t].mark)))
    case Unlock(t) => st.(lock := None, threads := At(st, t, Idle))
  }

  /** The decision has been taken and the chunk is not in the active set yet. */
  predicate Unmarked(pc: Pc) {
    pc.Accepted? || (pc.Locked? && pc.mark.Add?)
  }

  /** How many threads stand between an accepted decision and its effect. */
  function Between(threads: seq<Pc>): nat {
    if threads == [] then 0
    else Between(threads[..|threads| - 1]) + (if Unmarked(threads[|threads| - 1]) then 1 else 0)
  }

  /** A run in which at most `k` threads ever stand in between. */
  predicate Runs(st: State, limit: nat, k: nat, steps: seq<Step>)
    decreases |steps|
  {
    Between(st.threads) <= k &&
    (steps == [] || (Enabled(st, steps[0]) && Runs(Next(st, limit, steps[0]), limit, k, steps[1..])))
  }

  function After(st: State, limit: nat, k: nat, steps: seq<Step>): State
    requires Runs(st, limit, k, steps)
    decreases |steps|
  {
    if steps == [] then st else After(Next(st, limit, steps[0]), limit, k, steps[1..])
  }

  function Start(threads: nat): State {
    State({}, 0, None, seq(threads, _ => Idle))
  }

  // ---- safety ----

  lemma {:induction false} BetweenUpdate(threads: seq<Pc>, t: nat, pc: Pc)
    requires t < |threads|
    ensures Between(threads[t := pc]) ==
      Between(threads) - (if Unmarked(threads[t]) then 1 else 0) + (if Unmarked(pc) then 1 else 0)
  {
    var n := |threads| - 1;
    if t < n {
      BetweenUpdate(threads[..n], t, pc);
      assert threads[t := pc][..n] == threads[..n][t := pc];
    } else {
      assert threads[t := pc][..n] == threads[..n];
    }
  }

  predicate Holding(pc: Pc) {
    pc.Locked? || pc.Updated? || pc.Counted?
  }

  ghost predicate LockKept(st: State) {
    && (forall t :: 0 <= t < |st.threads| ==> (Holding(st.threads[t]) <==> st.lock == Some(t)))
    && (st.lock == None ==> st.reported == |st.active|)
    && (forall t :: 0 <= t < |st.threads| && st.threads[t].Counted? ==> st.reported == |st.active|)
    && (st.lock.Some? ==> st.lock.value < |st.threads|)
  }

  lemma {:induction false} StepKeepsBound(st: State, limit: nat, k: nat, step: Step)
    requires Enabled(st, step)
    requires |st.active| + Between(st.threads) <= limit + k - 1 || (|st.active| == 0 && Between(st.threads) == 0)
    requires Between(Next(st, limit, step).threads) <= k
    ensures var st' := Next(st, limit, step);
      |st'.active| + Between(st'.threads) <= limit + k - 1 || (|st'.active| == 0 && Between(st'.threads) == 0)
  {
    var st' := Next(st, limit, step);
    BetweenUpdate(st.threads, step.t, st'.threads[step.t]);
    assert st.threads[step.t := st'.threads[step.t]] == st'.threads;
    if step.Update? {
    }
  }

  lemma {:induction false} RunInvariant(st: State, limit: nat, k: nat, steps: seq<Step>)
    requires Runs(st, limit, k, steps) && LockKept(st)
    requires |st.active| + Between(st.threads) <= limit + k - 1 || (|st.active| == 0 && Between(st.threads) == 0)
    ensures var end := After(st, limit, k, steps);
      && LockKept(end)
      && (|end.active| + Between(end.threads) <= limit + k - 1 || (|end.active| == 0 && Between(end.threads) == 0))
    decreases |steps|
  {
    if steps != [] {
      var next := Next(st, limit, steps[0]);
      StepKeepsBound(st, limit, k, steps[0]);
      assert LockKept(next);
      RunInvariant(next, limit, k, steps[1..]);
    }
  }

  lemma {:induction false} NobodyBetween(n: nat)
    ensures Between(Start(n).threads) == 0
  {
    if n > 0 {
      NobodyBetween(n - 1);
      assert Start(n).threads[..n - 1] == Start(n - 1).threads;
    }
  }

  /**
   * If at most `k >= 1` threads ever stand between an accepted decision and its mark, the active set never
   * exceeds `limit + k - 1`; and whenever the active lock is free, the reported count is the size of the set.
   */
  lemma {:induction false} ActiveBounded(threads: nat, limit: nat, k: nat, steps: seq<Step>)
    requires Runs(Start(threads), limit, k, steps)
    requires 1 <= k
    ensures var end := After(Start(threads), limit, k, steps);
      && |end.active| <= limit + k - 1
      && (end.lock == None ==> end.reported == |end.active|)
  {
    NobodyBetween(threads);
    assert LockKept(Start(threads));
    RunInvariant(Start(threads), limit, k, steps);
  }

  // ---- the bound is attained ----

  lemma {:induction false} Join(st: State, limit: nat, k: nat, a: seq<Step>, b: seq<Step>)
    requires Runs(st, limit, k, a) && Runs(After(st, limit, k, a), limit, k, b)
    ensures Runs(st, limit, k, a + b) && After(st, limit, k, a + b) == After(After(st, limit, k, a), limit, k, b)
    decreases |a|
  {
    if a == [] {
      assert a + b == b;
    } else {
      assert (a + b)[0] == a[0] && (a + b)[1..] == a[1..] + b;
      Join(Next(st, limit, a[0]), limit, k, a[1..], b);
    }
  }

  /** Marking one accepted chunk. */
  lemma {:induction false} MarkOne(st: State, limit: nat, k: nat, t: nat) returns (steps: seq<Step>)
    requires t < |st.threads| && st.threads[t].Accepted? && st.lock == None && Between(st.threads) <= k
    ensures Runs(st, limit, k, steps)
    ensures var end := After(st, limit, k, steps);
      && end.active == st.active + {st.threads[t].chunk} && end.lock == None
      && end.threads == st.threads[t := Idle] && Between(end.threads) == Between(st.threads) - 1
  {
    var c := st.threads[t].chunk;
    var s1 := Next(st, limit, BeginActive(t));
    BetweenUpdate(st.threads, t, Locked(Add(c)));
    var s2 := Next(s1, limit, Update(t));
    BetweenUpdate(s1.threads, t, Updated(Add(c)));
    var s3 := Next(s2, limit, Count(t));
    BetweenUpdate(s2.threads, t, Counted(Add(c)));
    var s4 := Next(s3, limit, Unlock(t));
    BetweenUpdate(s3.threads, t, Idle);
    Join(s2, limit, k, [Count(t)], [Unlock(t)]);
    Join(s1, limit, k, [Update(t)], [Count(t)] + [Unlock(t)]);
    Join(st, limit, k, [BeginActive(t)], [Update(t)] + ([Count(t)] + [Unlock(t)]));
    steps := [BeginActive(t)] + ([Update(t)] + ([Count(t)] + [Unlock(t)]));
    assert s4.threads == st.threads[t := Idle];
  }

  function Chunks(n: nat): (s: set<ChunkId>)
    ensures |s| == n && forall c: ChunkId :: c in s <==> c < n
  {
    if n == 0 then {} else Chunks(n - 1) + {n - 1}
  }

  /** An idle thread decides for a chunk and marks it, with nobody else in between. */
  lemma {:induction false} DecideAndMark(st: State, limit: nat, k: nat, c: ChunkId) returns (steps: seq<Step>)
    requires st.threads != [] && st.threads[0] == Idle && st.lock == None
    requires |st.active| < limit && Between(st.threads) == 0 && 1 <= k
    ensures Runs(st, limit, k, steps)
    ensures var end := After(st, limit, k, steps);
      end.active == st.active + {c} && end.lock == None && end.threads == st.threads
  {
    var st' := Next(st, limit, Decide(0, c));
    BetweenUpdate(st.threads, 0, Accepted(c));
    var mark := MarkOne(st', limit, k, 0);
    Join(st, limit, k, [Decide(0, c)], mark);
    steps := [Decide(0, c)] + mark;
    assert st'.threads[0 := Idle] == st.threads;
  }

  /** With one thread deciding and marking in turn, the set fills up to the limit. */
  lemma {:induction false} FillUp(threads: nat, limit: nat, k: nat, n: nat) returns (steps: seq<Step>)
    requires 0 < threads && n <= limit && 1 <= k
    ensures Runs(Start(threads), limit, k, steps)
    ensures var end := After(Start(threads), limit, k, steps);
      end.active == Chunks(n) && end.lock == None && end.threads == Start(threads).threads
  {
    NobodyBetween(threads);
    steps := [];
    if n > 0 {
      var first := FillUp(threads, limit, k, n - 1);
      var more := DecideAndMark(After(Start(threads), limit, k, first), limit, k, n - 1);
      Join(Start(threads), limit, k, first, more);
      steps := first + more;
    }
  }

  /** Threads `0 .. j - 1` have all been accepted, for the chunks `limit - 1`, `limit`, ... */
  predicate Waiting(st: State, limit: nat, from: nat, to: nat)
    requires 0 < limit
  {
    && st.lock == None
    && (forall t :: 0 <= t < |st.threads| ==>
          st.threads[t] == if from <= t < to then Accepted(limit - 1 + t) else Idle)
  }

  lemma {:induction false} CountWaiting(threads: seq<Pc>, limit: nat, from: nat, to: nat)
    requires 0 < limit && from <= to
    requires forall t :: 0 <= t < |threads| ==>
      threads[t] == if from <= t < to then Accepted(limit - 1 + t) else Idle
    ensures Between(threads) == if |threads| <= from then 0 else if |threads| < to then |threads| - from else to - from
  {
    if threads != [] {
      CountWaiting(threads[..|threads| - 1], limit, from, to);
    }
  }

  lemma {:induction false} AcceptAll(st: State, limit: nat, k: nat, j: nat) returns (steps: seq<Step>)
    requires 0 < limit && |st.active| == limit - 1 && Waiting(st, limit, 0, 0) && j <= k && k <= |st.threads|
    ensures Runs(st, limit, k, steps)
    ensures var end := After(st, limit, k, steps);
      end.active == st.active && Waiting(end, limit, 0, j) && |end.threads| == |st.threads|
  {
    CountWaiting(st.threads, limit, 0, 0);
    steps := [];
    if j > 0 {
      var first := AcceptAll(st, limit, k, j - 1);
      var mid := After(st, limit, k, first);
      var step := Decide(j - 1, limit - 1 + (j - 1));
      CountWaiting(mid.threads, limit, 0, j - 1);
      CountWaiting(Next(mid, limit, step).threads, limit, 0, j);
      Join(st, limit, k, first, [step]);
      steps := first + [step];
    }
  }

  lemma {:induction false} MarkNext(st: State, limit: nat, k: nat, from: nat) returns (steps: seq<Step>)
    requires 0 < limit && from < k <= |st.threads| && Waiting(st, limit, from, k) && st.active == Chunks(limit - 1 + from)
    ensures Runs(st, limit, k, steps)
    ensures var end := After(st, limit, k, steps);
      && end.active == Chunks(limit - 1 + (from + 1))
      && |end.threads| == |st.threads| && Waiting(end, limit, from + 1, k)
  {
    CountWaiting(st.threads, limit, from, k);
    steps := MarkOne(st, limit, k, from);
  }

  lemma {:induction false} MarkAll(st: State, limit: nat, k: nat, from: nat) returns (steps: seq<Step>)
    requires 0 < limit && from <= k <= |st.threads| && Waiting(st, limit, from, k) && st.active == Chunks(limit - 1 + from)
    ensures Runs(st, limit, k, steps)
    ensures After(st, limit, k, steps).active == Chunks(limit - 1 + k)
    decreases k - from
  {
    steps := [];
    if from == k {
      CountWaiting(st.threads, limit, from, k);
    } else {
      var first := MarkNext(st, limit, k, from);
      var mid := After(st, limit, k, first);
      var rest := MarkAll(mid, limit, k, from + 1);
      Join(st, limit, k, first, rest);
      steps := first + rest;
    }
  }

  /** For every limit and every `k >= 1` some run of `k` threads reaches exactly `limit + k - 1` active migrations. */
  lemma {:induction false} BoundIsTight(limit: nat, k: nat) returns (steps: seq<Step>)
    requires 0 < limit && 1 <= k
    ensures Runs(Start(k), limit, k, steps)
    ensures |After(Start(k), limit, k, steps).active| == limit + k - 1
  {
    var fill := FillUp(k, limit, k, limit - 1);
    var full := After(Start(k), limit, k, fill);
    var accept := AcceptAll(full, limit, k, k);
    var waiting := After(full, limit, k, accept);
    var mark := MarkAll(waiting, limit, k, 0);
    Join(full, limit, k, accept, mark);
    Join(Start(k), limit, k, fill, accept + mark);
    steps := fill + (accept + mark);
  }

  // ---- what is active ----

  /** The marks made in a run, in the order in which they changed the set. */
  function Marks(st: State, limit: nat, k: nat, steps: seq<Step>): seq<Mark>
    requires Runs(st, limit, k, steps)
    decreases |steps|
  {
    if steps == [] then []
    else
      (if steps[0].Update? then [st.threads[steps[0].t].mark] else [])
      + Marks(Next(st, limit, steps[0]), limit, k, steps[1..])
  }

  /** Whether the last mark of the chunk added it; `before` if there is none. */
  predicate LastAdds(marks: seq<Mark>, chunk: ChunkId, before: bool) {
    if marks == [] then before
    else LastAdds(marks[1..], chunk, if marks[0].chunk == chunk then marks[0].Add? else before)
  }

  /** A chunk is active exactly if the last mark made for it was its start and not its completion. */
  lemma {:induction false} ActiveIffLastAdded(st: State, limit: nat, k: nat, steps: seq<Step>, chunk: ChunkId)
    requires Runs(st, limit, k, steps)
    ensures chunk in After(st, limit, k, steps).active <==> LastAdds(Marks(st, limit, k, steps), chunk, chunk in st.active)
    decreases |steps|
  {
    if steps != [] {
      var next := Next(st, limit, steps[0]);
      ActiveIffLastAdded(next, limit, k, steps[1..], chunk);
      if steps[0].Update? {
        var mark, rest := st.threads[steps[0].t].mark, Marks(next, limit, k, steps[1..]);
        assert ([mark] + rest)[1..] == rest;
      } else {
        assert [] + Marks(next, limit, k, steps[1..]) == Marks(next, limit, k, steps[1..]);
      }
    }
  }

  // ---- nobody gets stuck ----

  /** Steps a thread still needs to be idle, if it gives up a chunk that it has not marked yet. */
  function ToGo(pc: Pc): nat {
    match pc
    case Idle => 0
    case Accepted(_) => 1
    case Locked(_) => 3
    case Updated(_) => 2
    case Counted(_) => 1
  }

  function Work(threads: seq<Pc>): nat {
    if threads == [] then 0 else Work(threads[..|threads| - 1]) + ToGo(threads[|threads| - 1])
  }

  lemma {:induction false} WorkUpdate(threads: seq<Pc>, t: nat, pc: Pc)
    requires t < |threads|
    ensures Work(threads[t := pc]) == Work(threads) - ToGo(threads[t]) + ToGo(pc)
  {
    var n := |threads| - 1;
    if t < n {
      WorkUpdate(threads[..n], t, pc);
      assert threads[t := pc][..n] == threads[..n][t := pc];
    } else {
      assert threads[t := pc][..n] == threads[..n];
    }
  }

  /** What a thread that is not idle does next to become so. */
  function Homeward(pc: Pc, t: nat): Step {
    match pc
    case Idle => Withdraw(t)
    case Accepted(_) => Withdraw(t)
    case Locked(_) => Update(t)
    case Updated(_) => Count(t)
    case Counted(_) => Unlock(t)
  }

  lemma HomewardWorks(st: State, limit: nat, t: nat)
    requires LockKept(st) && t < |st.threads| && st.threads[t] != Idle
    ensures var step := Homeward(st.threads[t], t);
      && Enabled(st, step) && LockKept(Next(st, limit, step))
      && Work(Next(st, limit, step).threads) < Work(st.threads)
      && Between(Next(st, limit, step).threads) <= Between(st.threads)
  {
    var next := Next(st, limit, Homeward(st.threads[t], t));
    assert next.threads == st.threads[t := next.threads[t]];
    WorkUpdate(st.threads, t, next.threads[t]);
    BetweenUpdate(st.threads, t, next.threads[t]);
  }

  /** From every reachable state some continuation brings every thread back to idle and frees the lock. */
  lemma {:induction false} EveryoneCanReturn(st: State, limit: nat, k: nat) returns (steps: seq<Step>)
    requires LockKept(st) && Between(st.threads) <= k
    ensures Runs(st, limit, k, steps)
    ensures var end := After(st, limit, k, steps);
      end.lock == None && |end.threads| == |st.threads| && forall t :: 0 <= t < |end.threads| ==> end.threads[t] == Idle
    decreases Work(st.threads)
  {
    if t :| 0 <= t < |st.threads| && st.threads[t] != Idle {
      var step := Homeward(st.threads[t], t);
      HomewardWorks(st, limit, t);
      var next := Next(st, limit, step);
      var rest := EveryoneCanReturn(next, limit, k);
      Join(st, limit, k, [step], rest);
      steps := [step] + rest;
    } else {
      steps := [];
    }
  }

  lemma {:induction false} ReachableCanReturn(threads: nat, limit: nat, k: nat, steps: seq<Step>) returns (more: seq<Step>)
    requires Runs(Start(threads), limit, k, steps)
    ensures Runs(Start(threads), limit, k, steps + more)
    ensures var end := After(Start(threads), limit, k, steps + more);
      end.lock == None && |end.threads| == threads && forall t :: 0 <= t < threads ==> end.threads[t] == Idle
  {
    KeepsLock(Start(threads), limit, k, steps);
    more := EveryoneCanReturn(After(Start(threads), limit, k, steps), limit, k);
    Join(Start(threads), limit, k, steps, more);
  }

  lemma {:induction false} KeepsLock(st: State, limit: nat, k: nat, steps: seq<Step>)
    requires Runs(st, limit, k, steps) && LockKept(st)
    ensures var end := After(st, limit, k, steps);
      LockKept(end) && |end.threads| == |st.threads| && Between(end.threads) <= k
    decreases |steps|
  {
    if steps != [] {
      var next := Next(st, limit, steps[0]);
      assert LockKept(next);
      KeepsLock(next, limit, k, steps[1..]);
    }
  }
}

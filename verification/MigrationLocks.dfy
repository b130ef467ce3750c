/**
 * The order in which each public operation of the migration engine and of the hotness tracker takes its locks.
 * Branches that depend on data (which chunks are stored, what the policy says) are parameters, so a theorem
 * about every `Call` covers every path through the code.
 */
module MigrationLocks {
  import opened LockOrder

  /** What `evaluate` finds for one stored chunk. */
  datatype Verdict = PassedOver | Skipped | Admitted

  /** What `evaluate_evictions` finds for one cold chunk. */
  datatype ColdVerdict = NotStored | CoolingDown | Declined | Evicted

  datatype Call =
    | Evaluate(stored: nat, verdicts: seq<Verdict>)
    | EvaluatePromotions(promoting: bool, hot: nat)
    | EvaluateEvictions(evicting: bool, cold: seq<ColdVerdict>)
    | MarkActive
    | MarkComplete(success: bool)
    | ActiveCount   // also is_migrating, has_capacity and decide_migration
    | StatsSnapshot
    | RecordAccess(firstSeen: bool)
    | DecayAll

  function Repeat(n: nat, ops: seq<Op>): seq<seq<Op>> {
    seq(n, _ => ops)
  }

  function VerdictOps(v: Verdict): seq<Op> {
    match v
    case PassedOver => []
    case Skipped => Touch(Stats, Exclusive)
    case Admitted => Touch(HotnessMap, Shared) + Touch(Trace, Exclusive)
  }

  function ColdOps(v: ColdVerdict): seq<Op> {
    match v
    case NotStored => Touch(StateMachine, Exclusive)
    case CoolingDown => Touch(StateMachine, Exclusive) + Touch(Stats, Exclusive)
    case Declined => Touch(StateMachine, Exclusive)
    case Evicted => Touch(StateMachine, Exclusive) + Touch(Trace, Exclusive)
  }

  function Collect(stored: nat): seq<Op> {
    [Acquire(StateMachine, Exclusive)] + Flatten(Repeat(stored, Touch(HotnessMap, Shared))) + [Release(StateMachine)]
  }

  function JudgeEach(verdicts: seq<Verdict>): seq<Op> {
    Flatten(seq(|verdicts|, i requires 0 <= i < |verdicts| => VerdictOps(verdicts[i])))
  }

  function JudgeBefore(): seq<Op> { [Acquire(Active, Exclusive), Acquire(LastMigration, Exclusive)] }

  function JudgeAfter(): seq<Op> { [Release(Active), Release(LastMigration)] }

  function Judge(verdicts: seq<Verdict>): seq<Op> {
    JudgeBefore() + JudgeEach(verdicts) + JudgeAfter()
  }

  function EvictCold(cold: seq<ColdVerdict>): seq<Op> {
    [Acquire(Cooldown, Exclusive)]
    + Flatten(seq(|cold|, i requires 0 <= i < |cold| => ColdOps(cold[i])))
    + [Release(Cooldown)]
  }

  function CompleteTail(success: bool): seq<Op> {
    [Acquire(LastMigration, Exclusive)]
    + (if success then Touch(Cooldown, Exclusive) else [])
    + [Release(LastMigration)]
  }

  function Ops(c: Call): seq<Op> {
    match c
    case Evaluate(stored, verdicts) => Touch(Stats, Exclusive) + (Collect(stored) + Judge(verdicts))
    case EvaluatePromotions(promoting, hot) =>
      if !promoting then []
      else Touch(HotnessMap, Shared) + Flatten(Repeat(hot, Touch(StateMachine, Exclusive)))
    case EvaluateEvictions(evicting, cold) =>
      if !evicting then [] else Touch(HotnessMap, Shared) + EvictCold(cold)
    case MarkActive => [Acquire(Active, Exclusive)] + Touch(Stats, Exclusive) + [Release(Active)]
    case MarkComplete(success) =>
      [Acquire(Active, Exclusive)] + (Touch(Stats, Exclusive) + CompleteTail(success)) + [Release(Active)]
    case ActiveCount => Touch(Active, Exclusive)
    case StatsSnapshot => Touch(Stats, Exclusive)
    case RecordAccess(firstSeen) =>
      [Acquire(HotnessMap, Exclusive)] + (if firstSeen then Touch(Trace, Exclusive) else []) + [Release(HotnessMap)]
    case DecayAll => Touch(HotnessMap, Exclusive)
  }

  // ---- each operation respects the order ----

  lemma Then(held: Held, a: seq<Op>, b: seq<Op>)
    requires Neutral(held, a) && Neutral(held, b)
    ensures Neutral(held, a + b)
  {
    Compose(held, a, b);
  }

  lemma CollectNeutral(stored: nat)
    ensures Neutral(map[], Collect(stored))
  {
    var h := map[StateMachine := Exclusive];
    TouchNeutral(h, HotnessMap, Shared);
    FlattenNeutral(h, Repeat(stored, Touch(HotnessMap, Shared)));
    assert h == map[][StateMachine := Exclusive];
    Wrap(map[], StateMachine, Exclusive, Flatten(Repeat(stored, Touch(HotnessMap, Shared))));
  }

  lemma JudgeEachNeutral(verdicts: seq<Verdict>)
    ensures Neutral(map[Active := Exclusive, LastMigration := Exclusive], JudgeEach(verdicts))
  {
    var h := map[Active := Exclusive, LastMigration := Exclusive];
    TouchNeutral(h, Stats, Exclusive);
    TouchNeutral(h, HotnessMap, Shared);
    TouchNeutral(h, Trace, Exclusive);
    Then(h, Touch(HotnessMap, Shared), Touch(Trace, Exclusive));
    FlattenNeutral(h, seq(|verdicts|, i requires 0 <= i < |verdicts| => VerdictOps(verdicts[i])));
  }

  lemma JudgeNeutral(verdicts: seq<Verdict>)
    ensures Neutral(map[], Judge(verdicts))
  {
    JudgeEachNeutral(verdicts);
    Compose(map[], JudgeBefore(), JudgeEach(verdicts));
    Compose(map[], JudgeBefore() + JudgeEach(verdicts), JudgeAfter());
  }

  lemma EvictColdNeutral(cold: seq<ColdVerdict>)
    ensures Neutral(map[], EvictCold(cold))
  {
    var h := map[Cooldown := Exclusive];
    var programs := seq(|cold|, i requires 0 <= i < |cold| => ColdOps(cold[i]));
    TouchNeutral(h, StateMachine, Exclusive);
    TouchNeutral(h, Stats, Exclusive);
    TouchNeutral(h, Trace, Exclusive);
    Then(h, Touch(StateMachine, Exclusive), Touch(Stats, Exclusive));
    Then(h, Touch(StateMachine, Exclusive), Touch(Trace, Exclusive));
    FlattenNeutral(h, programs);
    assert h == map[][Cooldown := Exclusive];
    Wrap(map[], Cooldown, Exclusive, Flatten(programs));
  }

  lemma MarkCompleteNeutral(success: bool)
    ensures Neutral(map[], Ops(MarkComplete(success)))
  {
    var h := map[Active := Exclusive];
    TouchNeutral(h, Stats, Exclusive);
    TouchNeutral(h[LastMigration := Exclusive], Cooldown, Exclusive);
    Wrap(h, LastMigration, Exclusive, if success then Touch(Cooldown, Exclusive) else []);
    Then(h, Touch(Stats, Exclusive), CompleteTail(success));
    assert h == map[][Active := Exclusive];
    Wrap(map[], Active, Exclusive, Touch(Stats, Exclusive) + CompleteTail(success));
  }

  lemma TopLevelTouches(m: Mode)
    ensures forall l :: Neutral(map[], Touch(l, m))
  {
    forall l ensures Neutral(map[], Touch(l, m)) {
      TouchNeutral(map[], l, m);
    }
  }

  /** Every acquisition on every path of every operation outranks all locks held there, and all are given back. */
  lemma CallNeutral(c: Call)
    ensures Neutral(map[], Ops(c))
  {
    TopLevelTouches(Shared);
    TopLevelTouches(Exclusive);
    match c {
      case Evaluate(stored, verdicts) =>
        CollectNeutral(stored);
        JudgeNeutral(verdicts);
        Then(map[], Collect(stored), Judge(verdicts));
        Then(map[], Touch(Stats, Exclusive), Collect(stored) + Judge(verdicts));
      case EvaluatePromotions(promoting, hot) =>
        FlattenNeutral(map[], Repeat(hot, Touch(StateMachine, Exclusive)));
        Then(map[], Touch(HotnessMap, Shared), Flatten(Repeat(hot, Touch(StateMachine, Exclusive))));
      case EvaluateEvictions(evicting, cold) =>
        EvictColdNeutral(cold);
        Then(map[], Touch(HotnessMap, Shared), EvictCold(cold));
      case MarkActive =>
        TouchNeutral(map[][Active := Exclusive], Stats, Exclusive);
        Wrap(map[], Active, Exclusive, Touch(Stats, Exclusive));
      case MarkComplete(success) =>
        MarkCompleteNeutral(success);
      case RecordAccess(firstSeen) =>
        TouchNeutral(map[][HotnessMap := Exclusive], Trace, Exclusive);
        Wrap(map[], HotnessMap, Exclusive, if firstSeen then Touch(Trace, Exclusive) else []);
      case _ =>
    }
  }

  // ---- any number of threads, each making any calls ----

  function Worker(calls: seq<Call>): Thread {
    Thread(map[], Flatten(seq(|calls|, i requires 0 <= i < |calls| => Ops(calls[i]))))
  }

  function Start(work: seq<seq<Call>>): System {
    seq(|work|, i requires 0 <= i < |work| => Worker(work[i]))
  }

  lemma WorkerDisciplined(calls: seq<Call>)
    ensures Disciplined(Worker(calls))
  {
    forall i | 0 <= i < |calls| ensures Neutral(map[], Ops(calls[i])) {
      CallNeutral(calls[i]);
    }
    FlattenNeutral(map[], seq(|calls|, i requires 0 <= i < |calls| => Ops(calls[i])));
  }

  lemma StartGood(work: seq<seq<Call>>)
    ensures Good(Start(work))
  {
    forall i | 0 <= i < |work| ensures Disciplined(Start(work)[i]) {
      WorkerDisciplined(work[i]);
    }
  }

  /**
   * Deadlock freedom. However many threads run whatever calls, in every state of every interleaving no two
   * threads hold a lock in conflict, and either all threads are done or one of them can take its next step,
   * even if readers of the hotness map queue behind waiting writers.
   */
  lemma EngineNeverDeadlocks(work: seq<seq<Call>>, schedule: seq<nat>)
    requires Runs(Start(work), schedule)
    ensures Exclusion(After(Start(work), schedule))
    ensures Finished(After(Start(work), schedule))
      || exists k: nat :: MustStep(After(Start(work), schedule), k) && Runs(Start(work), schedule + [k])
  {
    StartGood(work);
    RunKeepsGood(Start(work), schedule);
    Progress(Start(work), schedule);
  }

  /** Every call returns: a run that cannot be extended has finished all the work, with every lock free. */
  lemma MaximalRunsFinish(work: seq<seq<Call>>, schedule: seq<nat>)
    requires Runs(Start(work), schedule)
    requires forall k: nat :: !MustStep(After(Start(work), schedule), k)
    ensures |schedule| == Remaining(Start(work))
    ensures |After(Start(work), schedule)| == |work|
    ensures forall i :: 0 <= i < |work| ==> After(Start(work), schedule)[i] == Thread(map[], [])
  {
    var sys, end := Start(work), After(Start(work), schedule);
    StartGood(work);
    RunKeepsGood(sys, schedule);
    Progress(sys, schedule);
    NothingRemains(end);
    forall i | 0 <= i < |work| ensures end[i] == Thread(map[], []) {
      assert Disciplined(end[i]);
    }
  }

  lemma {:induction false} NothingRemains(sys: System)
    requires Finished(sys)
    ensures Remaining(sys) == 0
  {
    if sys != [] {
      assert sys[0].rest == [];
      NothingRemains(sys[1..]);
    }
  }
}

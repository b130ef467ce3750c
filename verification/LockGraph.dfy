/** Which locks the engine's operations take while holding which others: the exact edges of the lock graph. */
module LockGraph {
  import opened LockOrder
  import opened MigrationLocks

  /** The pairs of a lock held and a lock taken while it is. */
  function Edges(held: set<Lock>, ops: seq<Op>): set<(Lock, Lock)>
    decreases |ops|
  {
    if ops == [] then {}
    else match ops[0]
      case Acquire(l, _) => (set h | h in held :: (h, l)) + Edges(held + {l}, ops[1..])
      case Release(l) => Edges(held - {l}, ops[1..])
  }

  function Keeps(held: set<Lock>, ops: seq<Op>): set<Lock>
    decreases |ops|
  {
    if ops == [] then held
    else match ops[0]
      case Acquire(l, _) => Keeps(held + {l}, ops[1..])
      case Release(l) => Keeps(held - {l}, ops[1..])
  }

  lemma {:induction false} Concat(held: set<Lock>, a: seq<Op>, b: seq<Op>)
    ensures Edges(held, a + b) == Edges(held, a) + Edges(Keeps(held, a), b)
    ensures Keeps(held, a + b) == Keeps(Keeps(held, a), b)
    decreases |a|
  {
    if a == [] {
      assert a + b == b;
    } else {
      assert (a + b)[1..] == a[1..] + b;
      match a[0]
      case Acquire(l, _) => Concat(held + {l}, a[1..], b);
      case Release(l) => Concat(held - {l}, a[1..], b);
    }
  }

  /** The edges of the graph. */
  predicate Nests(outer: Lock, inner: Lock) {
    match outer
    case Active => inner in {LastMigration, Cooldown, HotnessMap, Stats, Trace}
    case LastMigration => inner in {Cooldown, HotnessMap, Stats, Trace}
    case Cooldown => inner in {StateMachine, Stats, Trace}
    case StateMachine => inner == HotnessMap
    case HotnessMap => inner == Trace
    case Stats => false
    case Trace => false
  }

  // ---- no other edge ----

  /** The program gives back what it takes and only makes edges of the graph. */
  ghost predicate Tame(held: set<Lock>, ops: seq<Op>) {
    Keeps(held, ops) == held && forall e :: e in Edges(held, ops) ==> Nests(e.0, e.1)
  }

  lemma TameThen(held: set<Lock>, a: seq<Op>, b: seq<Op>)
    requires Tame(held, a) && Tame(held, b)
    ensures Tame(held, a + b)
  {
    Concat(held, a, b);
  }

  lemma {:induction false} TameFlatten(held: set<Lock>, programs: seq<seq<Op>>)
    requires forall i :: 0 <= i < |programs| ==> Tame(held, programs[i])
    ensures Tame(held, Flatten(programs))
  {
    if programs != [] {
      TameFlatten(held, programs[1..]);
      TameThen(held, programs[0], Flatten(programs[1..]));
    }
  }

  lemma TameWrap(held: set<Lock>, l: Lock, m: Mode, inner: seq<Op>)
    requires l !in held && (forall h :: h in held ==> Nests(h, l)) && Tame(held + {l}, inner)
    ensures Tame(held, [Acquire(l, m)] + inner + [Release(l)])
  {
    var ops := [Acquire(l, m)] + inner + [Release(l)];
    assert ops[1..] == inner + [Release(l)];
    Concat(held + {l}, inner, [Release(l)]);
    assert [Release(l)][1..] == [] && held + {l} - {l} == held;
  }

  lemma TameTouch(held: set<Lock>, l: Lock, m: Mode)
    requires l !in held && forall h :: h in held ==> Nests(h, l)
    ensures Tame(held, Touch(l, m))
  {
    TameWrap(held, l, m, []);
    assert [Acquire(l, m)] + [] + [Release(l)] == Touch(l, m);
  }

  lemma CollectTame(stored: nat)
    ensures Tame({}, Collect(stored))
  {
    TameTouch({StateMachine}, HotnessMap, Shared);
    TameFlatten({StateMachine}, Repeat(stored, Touch(HotnessMap, Shared)));
    assert {} + {StateMachine} == {StateMachine};
    TameWrap({}, StateMachine, Exclusive, Flatten(Repeat(stored, Touch(HotnessMap, Shared))));
  }

  lemma JudgeEachTame(verdicts: seq<Verdict>)
    ensures Tame({Active, LastMigration}, JudgeEach(verdicts))
  {
    var h := {Active, LastMigration};
    TameTouch(h, Stats, Exclusive);
    TameTouch(h, HotnessMap, Shared);
    TameTouch(h, Trace, Exclusive);
    TameThen(h, Touch(HotnessMap, Shared), Touch(Trace, Exclusive));
    TameFlatten(h, seq(|verdicts|, i requires 0 <= i < |verdicts| => VerdictOps(verdicts[i])));
  }

  lemma JudgeTame(verdicts: seq<Verdict>)
    ensures Tame({}, Judge(verdicts))
  {
    var before, after, h := JudgeBefore(), JudgeAfter(), {Active, LastMigration};
    JudgeEachTame(verdicts);
    BeforeKeeps();
    assert after[1..] == [Release(LastMigration)] && after[1..][1..] == [];
    assert Keeps(h, after) == {} && Edges(h, after) == {};
    Concat({}, before, JudgeEach(verdicts));
    Concat({}, before + JudgeEach(verdicts), after);
  }

  lemma BeforeKeeps()
    ensures Keeps({}, JudgeBefore()) == {Active, LastMigration} && Edges({}, JudgeBefore()) == {(Active, LastMigration)}
  {
  }

  lemma EvictColdTame(cold: seq<ColdVerdict>)
    ensures Tame({}, EvictCold(cold))
  {
    var h := {Cooldown};
    var programs := seq(|cold|, i requires 0 <= i < |cold| => ColdOps(cold[i]));
    TameTouch(h, StateMachine, Exclusive);
    TameTouch(h, Stats, Exclusive);
    TameTouch(h, Trace, Exclusive);
    TameThen(h, Touch(StateMachine, Exclusive), Touch(Stats, Exclusive));
    TameThen(h, Touch(StateMachine, Exclusive), Touch(Trace, Exclusive));
    TameFlatten(h, programs);
    assert {} + {Cooldown} == {Cooldown};
    TameWrap({}, Cooldown, Exclusive, Flatten(programs));
  }

  lemma MarkCompleteTame(success: bool)
    ensures Tame({}, Ops(MarkComplete(success)))
  {
    var inner := if success then Touch(Cooldown, Exclusive) else [];
    TameTouch({Active}, Stats, Exclusive);
    TameTouch({Active} + {LastMigration}, Cooldown, Exclusive);
    TameWrap({Active}, LastMigration, Exclusive, inner);
    TameThen({Active}, Touch(Stats, Exclusive), CompleteTail(success));
    assert {} + {Active} == {Active};
    TameWrap({}, Active, Exclusive, Touch(Stats, Exclusive) + CompleteTail(success));
  }

  lemma CallTame(c: Call)
    ensures Tame({}, Ops(c))
  {
    forall l, m ensures Tame({}, Touch(l, m)) {
      TameTouch({}, l, m);
    }
    match c {
      case Evaluate(stored, verdicts) =>
        CollectTame(stored);
        JudgeTame(verdicts);
        TameThen({}, Collect(stored), Judge(verdicts));
        TameThen({}, Touch(Stats, Exclusive), Collect(stored) + Judge(verdicts));
      case EvaluatePromotions(promoting, hot) =>
        TameFlatten({}, Repeat(hot, Touch(StateMachine, Exclusive)));
        TameThen({}, Touch(HotnessMap, Shared), Flatten(Repeat(hot, Touch(StateMachine, Exclusive))));
      case EvaluateEvictions(evicting, cold) =>
        EvictColdTame(cold);
        TameThen({}, Touch(HotnessMap, Shared), EvictCold(cold));
      case MarkActive =>
        TameTouch({Active}, Stats, Exclusive);
        assert {} + {Active} == {Active};
        TameWrap({}, Active, Exclusive, Touch(Stats, Exclusive));
      case MarkComplete(success) =>
        MarkCompleteTame(success);
      case RecordAccess(firstSeen) =>
        TameTouch({HotnessMap}, Trace, Exclusive);
        assert {} + {HotnessMap} == {HotnessMap};
        TameWrap({}, HotnessMap, Exclusive, if firstSeen then Touch(Trace, Exclusive) else []);
      case _ =>
    }
  }

  // ---- every edge occurs ----

  /** Taking a lock around a program makes the program's edges and one from everything held to the lock. */
  lemma WrapEdges(held: set<Lock>, l: Lock, m: Mode, inner: seq<Op>)
    ensures var e := Edges(held, [Acquire(l, m)] + inner + [Release(l)]);
      Edges(held + {l}, inner) <= e && forall h :: h in held ==> (h, l) in e
  {
    var ops := [Acquire(l, m)] + inner + [Release(l)];
    assert ops[1..] == inner + [Release(l)];
    Concat(held + {l}, inner, [Release(l)]);
  }

  lemma TouchEdges(held: set<Lock>, l: Lock, m: Mode)
    ensures forall h :: h in held ==> (h, l) in Edges(held, Touch(l, m))
  {
    WrapEdges(held, l, m, []);
    assert [Acquire(l, m)] + [] + [Release(l)] == Touch(l, m);
  }

  lemma TailEdges()
    ensures var e := Edges({Active}, CompleteTail(true));
      (Active, LastMigration) in e && (Active, Cooldown) in e && (LastMigration, Cooldown) in e
  {
    WrapEdges({Active}, LastMigration, Exclusive, Touch(Cooldown, Exclusive));
    TouchEdges({Active} + {LastMigration}, Cooldown, Exclusive);
  }

  lemma CompletingEdges()
    ensures Edges({Active}, CompleteTail(true)) <= Edges({}, Ops(MarkComplete(true)))
  {
    assert {} + {Active} == {Active};
    WrapEdges({}, Active, Exclusive, Touch(Stats, Exclusive) + CompleteTail(true));
    TameTouch({Active}, Stats, Exclusive);
    Concat({Active}, Touch(Stats, Exclusive), CompleteTail(true));
  }

  lemma FlattenOne(p: seq<Op>)
    ensures Flatten([p]) == p
  {
    assert [p][1..] == [];
  }

  /** What `Evaluate` does with a chunk it does holding both of its locks. */
  lemma JudgedEdges(verdict: Verdict)
    ensures Edges({Active, LastMigration}, VerdictOps(verdict)) <= Edges({}, Ops(Evaluate(0, [verdict])))
  {
    FlattenOne(VerdictOps(verdict));
    assert seq(1, i requires 0 <= i < 1 => VerdictOps([verdict][i])) == [VerdictOps(verdict)];
    BeforeKeeps();
    Concat({}, JudgeBefore(), JudgeEach([verdict]));
    Concat({}, JudgeBefore() + JudgeEach([verdict]), JudgeAfter());
    CollectTame(0);
    Concat({}, Collect(0), Judge([verdict]));
    TameTouch({}, Stats, Exclusive);
    Concat({}, Touch(Stats, Exclusive), Collect(0) + Judge([verdict]));
  }

  lemma VerdictEdges()
    ensures var h := {Active, LastMigration};
      && (LastMigration, Stats) in Edges(h, VerdictOps(Skipped))
      && (Active, HotnessMap) in Edges(h, VerdictOps(Admitted)) && (LastMigration, HotnessMap) in Edges(h, VerdictOps(Admitted))
      && (Active, Trace) in Edges(h, VerdictOps(Admitted)) && (LastMigration, Trace) in Edges(h, VerdictOps(Admitted))
  {
    var h := {Active, LastMigration};
    TouchEdges(h, Stats, Exclusive);
    TouchEdges(h, HotnessMap, Shared);
    TouchEdges(h, Trace, Exclusive);
    TameTouch(h, HotnessMap, Shared);
    Concat(h, Touch(HotnessMap, Shared), Touch(Trace, Exclusive));
  }

  lemma CollectingEdge()
    ensures (StateMachine, HotnessMap) in Edges({}, Ops(Evaluate(1, [])))
  {
    FlattenOne(Touch(HotnessMap, Shared));
    assert Repeat(1, Touch(HotnessMap, Shared)) == [Touch(HotnessMap, Shared)];
    assert {} + {StateMachine} == {StateMachine};
    TouchEdges({StateMachine}, HotnessMap, Shared);
    WrapEdges({}, StateMachine, Exclusive, Touch(HotnessMap, Shared));
    Concat({}, Collect(1), Judge([]));
    TameTouch({}, Stats, Exclusive);
    Concat({}, Touch(Stats, Exclusive), Collect(1) + Judge([]));
  }

  /** What `EvaluateEvictions` does with a chunk it does holding the cooldown. */
  lemma ColdEdges(verdict: ColdVerdict)
    ensures Edges({Cooldown}, ColdOps(verdict)) <= Edges({}, Ops(EvaluateEvictions(true, [verdict])))
  {
    FlattenOne(ColdOps(verdict));
    assert seq(1, i requires 0 <= i < 1 => ColdOps([verdict][i])) == [ColdOps(verdict)];
    assert {} + {Cooldown} == {Cooldown};
    WrapEdges({}, Cooldown, Exclusive, ColdOps(verdict));
    TameTouch({}, HotnessMap, Shared);
    Concat({}, Touch(HotnessMap, Shared), EvictCold([verdict]));
  }

  lemma ColdVerdictEdges()
    ensures var h := {Cooldown};
      && (Cooldown, StateMachine) in Edges(h, ColdOps(CoolingDown)) && (Cooldown, Stats) in Edges(h, ColdOps(CoolingDown))
      && (Cooldown, Trace) in Edges(h, ColdOps(Evicted))
  {
    var h, state := {Cooldown}, Touch(StateMachine, Exclusive);
    TouchEdges(h, StateMachine, Exclusive);
    TouchEdges(h, Stats, Exclusive);
    TouchEdges(h, Trace, Exclusive);
    TameTouch(h, StateMachine, Exclusive);
    Concat(h, state, Touch(Stats, Exclusive));
    Concat(h, state, Touch(Trace, Exclusive));
  }

  lemma AccessEdge()
    ensures (HotnessMap, Trace) in Edges({}, Ops(RecordAccess(true)))
  {
    assert {} + {HotnessMap} == {HotnessMap};
    TouchEdges({HotnessMap}, Trace, Exclusive);
    WrapEdges({}, HotnessMap, Exclusive, Touch(Trace, Exclusive));
  }

  ghost predicate Occurs(outer: Lock, inner: Lock) {
    exists c :: (outer, inner) in Edges({}, Ops(c))
  }

  /** One lock is taken while holding another on some path of some operation exactly if the pair is in the graph. */
  lemma {:induction false} GraphIsExact(outer: Lock, inner: Lock)
    ensures Occurs(outer, inner) <==> Nests(outer, inner)
  {
    if Occurs(outer, inner) {
      var c :| (outer, inner) in Edges({}, Ops(c));
      CallTame(c);
    }
    TailEdges();
    CompletingEdges();
    VerdictEdges();
    JudgedEdges(Skipped);
    JudgedEdges(Admitted);
    CollectingEdge();
    ColdVerdictEdges();
    ColdEdges(CoolingDown);
    ColdEdges(Evicted);
    AccessEdge();
  }
}

/** Threads that take and give back locks one step at a time, in any interleaving. */
module LockOrder {

  /** The locks of the migration engine, the hotness tracker and the trace log. */
  datatype Lock = Active | LastMigration | Cooldown | StateMachine | HotnessMap | Stats | Trace

  /** `HotnessMap` is a read-write lock; every other lock is only taken `Exclusive`. */
  datatype Mode = Shared | Exclusive

  datatype Op = Acquire(lock: Lock, mode: Mode) | Release(lock: Lock)

  function Rank(l: Lock): nat {
    match l
    case Active => 0
    case LastMigration => 1
    case Cooldown => 2
    case StateMachine => 3
    case HotnessMap => 4
    case Stats => 5
    case Trace => 6
  }

  type Held = map<Lock, Mode>

  /** Each acquisition outranks everything held at that point, and only held locks are released. */
  ghost predicate Obeys(held: Held, ops: seq<Op>)
    decreases |ops|
  {
    ops == [] ||
    match ops[0]
    case Acquire(l, m) => (forall h :: h in held ==> Rank(h) < Rank(l)) && Obeys(held[l := m], ops[1..])
    case Release(l) => l in held && Obeys(held - {l}, ops[1..])
  }

  function HeldAfter(held: Held, ops: seq<Op>): Held
    decreases |ops|
  {
    if ops == [] then held
    else match ops[0]
    case Acquire(l, m) => HeldAfter(held[l := m], ops[1..])
    case Release(l) => HeldAfter(held - {l}, ops[1..])
  }

  /** `ops` respects the lock order when started with `held`, and ends with `held` again. */
  ghost predicate Neutral(held: Held, ops: seq<Op>) {
    Obeys(held, ops) && HeldAfter(held, ops) == held
  }

  // ---- threads and schedules ----

  datatype Thread = Thread(held: Held, rest: seq<Op>)

  type System = seq<Thread>

  predicate Waits(t: Thread, l: Lock, m: Mode) {
    t.rest != [] && t.rest[0] == Acquire(l, m)
  }

  /** Another thread holds `l` in a mode that excludes `m`. */
  ghost predicate Blocked(sys: System, i: nat, l: Lock, m: Mode) {
    exists j :: 0 <= j < |sys| && j != i && l in sys[j].held && (m.Exclusive? || sys[j].held[l].Exclusive?)
  }

  ghost predicate WriterWaits(sys: System, i: nat, l: Lock) {
    exists j :: 0 <= j < |sys| && j != i && Waits(sys[j], l, Exclusive)
  }

  /** The next operation of thread `i` respects mutual exclusion. */
  ghost predicate MayStep(sys: System, i: nat) {
    i < |sys| && sys[i].rest != [] &&
    (sys[i].rest[0].Acquire? ==> !Blocked(sys, i, sys[i].rest[0].lock, sys[i].rest[0].mode))
  }

  /** `MayStep` under a lock that also makes readers queue behind waiting writers. */
  ghost predicate MustStep(sys: System, i: nat) {
    MayStep(sys, i) &&
    (sys[i].rest[0].Acquire? && sys[i].rest[0].mode.Shared? ==> !WriterWaits(sys, i, sys[i].rest[0].lock))
  }

  function StepThread(t: Thread): Thread
    requires t.rest != []
  {
    match t.rest[0]
    case Acquire(l, m) => Thread(t.held[l := m], t.rest[1..])
    case Release(l) => Thread(t.held - {l}, t.rest[1..])
  }

  /** `schedule` names the thread that moves at each step. */
  ghost predicate Runs(sys: System, schedule: seq<nat>)
    decreases |schedule|
  {
    schedule == [] ||
    (MayStep(sys, schedule[0]) && Runs(sys[schedule[0] := StepThread(sys[schedule[0]])], schedule[1..]))
  }

  ghost function After(sys: System, schedule: seq<nat>): System
    requires Runs(sys, schedule)
    decreases |schedule|
  {
    if schedule == [] then sys
    else After(sys[schedule[0] := StepThread(sys[schedule[0]])], schedule[1..])
  }

  ghost predicate Disciplined(t: Thread) {
    Obeys(t.held, t.rest) && HeldAfter(t.held, t.rest) == map[]
  }

  ghost predicate Good(sys: System) {
    && (forall i :: 0 <= i < |sys| ==> Disciplined(sys[i]))
    && Exclusion(sys)
  }

  /** No lock is held twice unless every holder only reads. */
  ghost predicate Exclusion(sys: System) {
    forall i, j, l :: 0 <= i < |sys| && 0 <= j < |sys| && i != j && l in sys[i].held && l in sys[j].held ==>
      sys[i].held[l].Shared? && sys[j].held[l].Shared?
  }

  function Remaining(sys: System): nat {
    if sys == [] then 0 else |sys[0].rest| + Remaining(sys[1..])
  }

  ghost predicate Finished(sys: System) {
    forall i :: 0 <= i < |sys| ==> sys[i].rest == []
  }

  // ---- composing lock programs ----

  lemma {:induction false} Compose(held: Held, a: seq<Op>, b: seq<Op>)
    ensures Obeys(held, a + b) <==> Obeys(held, a) && Obeys(HeldAfter(held, a), b)
    ensures HeldAfter(held, a + b) == HeldAfter(HeldAfter(held, a), b)
    decreases |a|
  {
    if a == [] {
      assert a + b == b;
    } else {
      assert (a + b)[1..] == a[1..] + b;
      match a[0]
      case Acquire(l, m) => Compose(held[l := m], a[1..], b);
      case Release(l) => Compose(held - {l}, a[1..], b);
    }
  }

  function Flatten(programs: seq<seq<Op>>): seq<Op> {
    if programs == [] then [] else programs[0] + Flatten(programs[1..])
  }

  lemma {:induction false} FlattenNeutral(held: Held, programs: seq<seq<Op>>)
    requires forall i :: 0 <= i < |programs| ==> Neutral(held, programs[i])
    ensures Neutral(held, Flatten(programs))
  {
    if programs != [] {
      FlattenNeutral(held, programs[1..]);
      Compose(held, programs[0], Flatten(programs[1..]));
    }
  }

  /** Taking a lock that outranks `held` around a program neutral under it is neutral. */
  lemma Wrap(held: Held, l: Lock, m: Mode, inner: seq<Op>)
    requires forall h :: h in held ==> Rank(h) < Rank(l)
    requires Neutral(held[l := m], inner)
    ensures Neutral(held, [Acquire(l, m)] + inner + [Release(l)])
  {
    var h1 := held[l := m];
    Compose(h1, inner, [Release(l)]);
    assert h1 - {l} == held;
    assert [Acquire(l, m)] + inner + [Release(l)] == [Acquire(l, m)] + (inner + [Release(l)]);
    assert ([Acquire(l, m)] + (inner + [Release(l)]))[1..] == inner + [Release(l)];
    assert Obeys(h1, [Release(l)]) && HeldAfter(h1, [Release(l)]) == held by {
      assert [Release(l)][1..] == [];
    }
  }

  /** Taking a lock and giving it back at once. */
  function Touch(l: Lock, m: Mode): seq<Op> {
    [Acquire(l, m), Release(l)]
  }

  lemma TouchNeutral(held: Held, l: Lock, m: Mode)
    requires forall h :: h in held ==> Rank(h) < Rank(l)
    ensures Neutral(held, Touch(l, m))
  {
  }

  // ---- what every step keeps ----

  lemma StepKeepsGood(sys: System, i: nat)
    requires Good(sys) && MayStep(sys, i)
    ensures Good(sys[i := StepThread(sys[i])])
  {
    var sys' := sys[i := StepThread(sys[i])];
    assert Disciplined(sys[i]);
    forall a, b, l | 0 <= a < |sys'| && 0 <= b < |sys'| && a != b && l in sys'[a].held && l in sys'[b].held
      ensures sys'[a].held[l].Shared? && sys'[b].held[l].Shared?
    {
      if a == i && l !in sys[i].held {
        assert l in sys[b].held;
      } else if b == i && l !in sys[i].held {
        assert l in sys[a].held;
      }
    }
  }

  lemma {:induction false} RemainingStep(sys: System, i: nat)
    requires i < |sys| && sys[i].rest != []
    ensures Remaining(sys[i := StepThread(sys[i])]) == Remaining(sys) - 1
  {
    if i > 0 {
      RemainingStep(sys[1..], i - 1);
      assert sys[i := StepThread(sys[i])][1..] == sys[1..][i - 1 := StepThread(sys[1..][i - 1])];
    }
  }

  /**
   * Along every run, mutual exclusion and the lock discipline hold, and each step uses up one operation:
   * no run is longer than the programs put together.
   */
  lemma {:induction false} RunKeepsGood(sys: System, schedule: seq<nat>)
    requires Good(sys) && Runs(sys, schedule)
    ensures |After(sys, schedule)| == |sys| && Good(After(sys, schedule))
    ensures |schedule| + Remaining(After(sys, schedule)) == Remaining(sys)
    decreases |schedule|
  {
    if schedule != [] {
      StepKeepsGood(sys, schedule[0]);
      RemainingStep(sys, schedule[0]);
      RunKeepsGood(sys[schedule[0] := StepThread(sys[schedule[0]])], schedule[1..]);
    }
  }

  // ---- progress ----

  /** From an unfinished thread, follow the wait-for edges; they climb in rank, so they end at a thread that can move. */
  lemma Climb(sys: System, i: nat) returns (k: nat)
    requires Good(sys) && i < |sys| && sys[i].rest != []
    ensures MustStep(sys, k)
    decreases if sys[i].rest[0].Acquire? then 7 - Rank(sys[i].rest[0].lock) else 0
  {
    assert Disciplined(sys[i]);
    if MustStep(sys, i) {
      return i;
    }
    var l, m := sys[i].rest[0].lock, sys[i].rest[0].mode;
    var waiter, mode := i, m;
    if !Blocked(sys, i, l, m) {
      var w :| 0 <= w < |sys| && w != i && Waits(sys[w], l, Exclusive);
      if MustStep(sys, w) {
        return w;
      }
      waiter, mode := w, Exclusive;
    }
    var j :| 0 <= j < |sys| && j != waiter && l in sys[j].held && (mode.Exclusive? || sys[j].held[l].Exclusive?);
    assert Disciplined(sys[j]);
    k := Climb(sys, j);
  }

  lemma {:induction false} RunsOn(sys: System, schedule: seq<nat>, k: nat)
    requires Runs(sys, schedule) && MayStep(After(sys, schedule), k)
    ensures Runs(sys, schedule + [k])
    decreases |schedule|
  {
    if schedule == [] {
      assert schedule + [k] == [k] && [k][1..] == [];
    } else {
      RunsOn(sys[schedule[0] := StepThread(sys[schedule[0]])], schedule[1..], k);
      assert (schedule + [k])[1..] == schedule[1..] + [k];
    }
  }

  /** No deadlock: while some thread has work left, some thread can take its next step, and the run goes on with it. */
  lemma Progress(sys: System, schedule: seq<nat>)
    requires Good(sys) && Runs(sys, schedule)
    ensures Finished(After(sys, schedule))
      || exists k: nat :: MustStep(After(sys, schedule), k) && Runs(sys, schedule + [k])
  {
    RunKeepsGood(sys, schedule);
    var now := After(sys, schedule);
    if !Finished(now) {
      var i :| 0 <= i < |now| && now[i].rest != [];
      var k := Climb(now, i);
      RunsOn(sys, schedule, k);
    }
  }
}

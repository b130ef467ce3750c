/**
 * The event bus: any number of emitter clones share one id counter and one bounded channel. Stamping a record
 * and sending it are separate steps, so tasks may overtake each other between the two.
 */
module EventBus {
  import opened EventMultiplexer
  import opened Sequences

  datatype Emission = Emission(task: nat, id: nat)

  /** `stamped` and `accepted` only remember the past: every id handed out, and every record that entered the channel. */
  datatype Bus = Bus(
    counter: nat,
    capacity: nat,
    open: bool,
    inflight: seq<Emission>,
    queue: seq<Emission>,
    received: seq<Emission>,
    dropped: seq<Emission>,
    stamped: seq<Emission>,
    accepted: seq<Emission>)

  /**
   * `Send(k)` resolves the `k`-th record in flight: into the channel if it is open and has room, dropped if
   * not. `emit` waits for room first, so it never drops on a full channel. `Abandon` is a waiting `emit` whose
   * task was cancelled, or a `try_emit` that found the remaining room reserved for such waiting calls. `Close` is
   * the end of the receiver, which discards what is still queued.
   */
  datatype Step = Stamp(task: nat) | Send(k: nat) | Abandon(k: nat) | Receive | Close

  function Fresh(capacity: nat): Bus {
    Bus(1, capacity, true, [], [], [], [], [], [])
  }

  predicate Enabled(b: Bus, step: Step) {
    match step
    case Stamp(task) => forall e :: e in b.inflight ==> e.task != task
    case Send(k) => k < |b.inflight|
    case Abandon(k) => k < |b.inflight|
    case Receive => b.open && b.queue != []
    case Close => b.open
  }

  function Without(s: seq<Emission>, k: nat): seq<Emission>
    requires k < |s|
  {
    s[..k] + s[k + 1..]
  }

  function Next(b: Bus, step: Step): Bus
    requires Enabled(b, step)
  {
    match step
    case Stamp(task) =>
      var e := Emission(task, b.counter);
      b.(counter := b.counter + 1, inflight := b.inflight + [e], stamped := b.stamped + [e])
    case Send(k) =>
      var e := b.inflight[k];
      if b.open && |b.queue| < b.capacity then
        b.(inflight := Without(b.inflight, k), queue := b.queue + [e], accepted := b.accepted + [e])
      else
        b.(inflight := Without(b.inflight, k), dropped := b.dropped + [e])
    case Abandon(k) => b.(inflight := Without(b.inflight, k), dropped := b.dropped + [b.inflight[k]])
    case Receive => b.(queue := b.queue[1..], received := b.received + [b.queue[0]])
    case Close => b.(open := false, queue := [], dropped := b.dropped + b.queue)
  }

  predicate Runs(b: Bus, steps: seq<Step>)
    decreases |steps|
  {
    steps == [] || (Enabled(b, steps[0]) && Runs(Next(b, steps[0]), steps[1..]))
  }

  function After(b: Bus, steps: seq<Step>): Bus
    requires Runs(b, steps)
    decreases |steps|
  {
    if steps == [] then b else After(Next(b, steps[0]), steps[1..])
  }

  /**
   * The emitter's own state, shared by all its clones, with the bus it acts on as a ghost. `MakeRecord` and
   * `TrySend` are the two atomic points of `try_emit`; other tasks may act between them.
   */
  class EventEmitter {
    var sequenceCounter: nat
    var channel: seq<Emission>
    var open: bool
    const capacity: nat
    ghost var bus: Bus

    ghost predicate Valid()
      reads this
    {
      bus.counter == sequenceCounter && bus.queue == channel && bus.open == open && bus.capacity == capacity
    }

    constructor (capacity: nat)
      ensures Valid() && bus == Fresh(capacity)
    {
      sequenceCounter, channel, open := 1, [], true;
      this.capacity := capacity;
      bus := Fresh(capacity);
    }

    method MakeRecord(task: nat) returns (record: Emission)
      requires Valid() && Enabled(bus, Stamp(task))
      modifies this
      ensures Valid() && bus == Next(old(bus), Stamp(task))
      ensures record == Emission(task, old(sequenceCounter))
    {
      record := Emission(task, sequenceCounter);
      sequenceCounter := sequenceCounter + 1;
      bus := Next(bus, Stamp(task));
    }

    /** `reserved` slots of the channel are held for waiting `emit` calls; a record that finds no other slot is dropped. */
    method TrySend(record: Emission, reserved: nat, ghost k: nat) returns (ok: bool)
      requires Valid() && k < |bus.inflight| && bus.inflight[k] == record
      modifies this
      ensures ok <==> old(open) && |old(channel)| + reserved < capacity
      ensures Valid() && bus == Next(old(bus), if ok then Send(k) else Abandon(k))
      ensures channel == if ok then old(channel) + [record] else old(channel)
    {
      ok := open && |channel| + reserved < capacity;
      if ok {
        channel := channel + [record];
        bus := Next(bus, Send(k));
      } else {
        bus := Next(bus, Abandon(k));
      }
    }

    /** With nothing in between, emitting is a stamp followed at once by sending or dropping that same record. */
    method TryEmit(task: nat, reserved: nat) returns (ok: bool)
      requires Valid() && Enabled(bus, Stamp(task))
      modifies this
      ensures Valid()
      ensures ok <==> old(open) && |old(channel)| + reserved < capacity
      ensures var k := |old(bus.inflight)|;
        bus == Next(Next(old(bus), Stamp(task)), if ok then Send(k) else Abandon(k))
    {
      var record := MakeRecord(task);
      ok := TrySend(record, reserved, |bus.inflight| - 1);
    }
  }

  function Ids(s: seq<Emission>): (ids: seq<nat>)
    ensures |ids| == |s| && forall i :: 0 <= i < |s| ==> ids[i] == s[i].id
  {
    seq(|s|, i requires 0 <= i < |s| => s[i].id)
  }

  // ---- conservation ----

  /** Everywhere a stamped record can be. */
  function Places(b: Bus): seq<Emission> {
    b.received + b.queue + b.dropped + b.inflight
  }

  ghost predicate Numbered(b: Bus) {
    b.counter == |b.stamped| + 1 && forall k :: 0 <= k < |b.stamped| ==> b.stamped[k].id == k + 1
  }

  ghost predicate Balanced(b: Bus) {
    multiset(b.received) + multiset(b.queue) + multiset(b.dropped) + multiset(b.inflight) == multiset(b.stamped)
  }

  /** The channel is bounded and first in, first out. */
  ghost predicate Fifo(b: Bus) {
    && |b.queue| <= b.capacity
    && b.received <= b.accepted
    && (if b.open then b.received + b.queue == b.accepted else b.queue == [])
  }

  lemma Remove(s: seq<Emission>, k: nat)
    requires k < |s|
    ensures multiset(Without(s, k)) + multiset{s[k]} == multiset(s)
  {
    assert s == s[..k] + [s[k]] + s[k + 1..];
  }

  lemma ResolveBalances(b: Bus, k: nat)
    requires Balanced(b) && k < |b.inflight|
    ensures Balanced(Next(b, Send(k))) && Balanced(Next(b, Abandon(k)))
  {
    Remove(b.inflight, k);
  }

  lemma StepBalances(b: Bus, step: Step)
    requires Balanced(b) && Enabled(b, step)
    ensures Balanced(Next(b, step))
  {
    match step {
      case Stamp(task) =>
      case Send(k) => ResolveBalances(b, k);
      case Abandon(k) => ResolveBalances(b, k);
      case Receive =>
        assert b.queue == [b.queue[0]] + b.queue[1..];
      case Close =>
    }
  }

  lemma {:induction false} RunBalances(b: Bus, steps: seq<Step>)
    requires Balanced(b) && Runs(b, steps)
    ensures Balanced(After(b, steps))
    decreases |steps|
  {
    if steps != [] {
      var next := Next(b, steps[0]);
      StepBalances(b, steps[0]);
      RunBalances(next, steps[1..]);
    }
  }

  lemma StepKeepsFifo(b: Bus, step: Step)
    requires Fifo(b) && Enabled(b, step)
    ensures Fifo(Next(b, step))
  {
    var b' := Next(b, step);
    if step.Receive? {
      assert b'.received + b'.queue == b.received + b.queue;
    } else if b.open && b'.open {
      assert b'.received + b'.queue == b'.accepted;
    }
  }

  lemma {:induction false} RunKeepsFifo(b: Bus, steps: seq<Step>)
    requires Fifo(b) && Numbered(b) && Runs(b, steps)
    ensures Fifo(After(b, steps)) && Numbered(After(b, steps))
    decreases |steps|
  {
    if steps != [] {
      var next := Next(b, steps[0]);
      StepKeepsFifo(b, steps[0]);
      assert Numbered(next);
      RunKeepsFifo(next, steps[1..]);
    }
  }

  ghost predicate DistinctIds(s: seq<Emission>) {
    forall i, j :: 0 <= i < j < |s| ==> s[i].id != s[j].id
  }

  lemma TwiceCounts(s: seq<Emission>, i: nat, j: nat)
    requires i < j < |s| && s[i] == s[j]
    ensures multiset(s)[s[i]] >= 2
  {
    assert s == s[..j] + s[j..];
    assert s[i] in s[..j] && s[j] in s[j..];
    assert s[..j][i] == s[i] && s[j..][0] == s[j];
  }

  lemma PermutationKeepsDistinct(a: seq<Emission>, b: seq<Emission>)
    requires DistinctIds(b) && multiset(a) == multiset(b)
    ensures DistinctIds(a)
  {
    forall i, j | 0 <= i < j < |a| ensures a[i].id != a[j].id {
      if a[i].id == a[j].id {
        assert a[i] in multiset(b) && a[j] in multiset(b);
        AtMostOnce(b, a[i]);
        TwiceCounts(a, i, j);
      }
    }
  }

  /**
   * Conservation. In every state of every run, the ids received, queued, dropped and in flight are distinct
   * and together are exactly `1 .. counter - 1`: no id is lost, reused or delivered twice.
   */
  lemma EveryIdAccountedFor(capacity: nat, steps: seq<Step>)
    requires Runs(Fresh(capacity), steps)
    ensures var b := After(Fresh(capacity), steps);
      && DistinctIds(Places(b))
      && |Places(b)| == b.counter - 1
      && (forall e :: e in Places(b) ==> 1 <= e.id < b.counter)
      && (forall n :: 1 <= n < b.counter ==> n in Ids(Places(b)))
  {
    RunBalances(Fresh(capacity), steps);
    RunKeepsFifo(Fresh(capacity), steps);
    var b := After(Fresh(capacity), steps);
    SameBag(b);
    PermutationKeepsDistinct(Places(b), b.stamped);
    MembersNumbered(b);
  }

  lemma SameBag(b: Bus)
    requires Balanced(b)
    ensures multiset(Places(b)) == multiset(b.stamped) && |Places(b)| == |b.stamped|
  {
    assert |multiset(Places(b))| == |Places(b)| && |multiset(b.stamped)| == |b.stamped|;
  }

  lemma MembersNumbered(b: Bus)
    requires Numbered(b) && multiset(Places(b)) == multiset(b.stamped)
    ensures forall e :: e in Places(b) ==> 1 <= e.id < b.counter
    ensures forall n :: 1 <= n < b.counter ==> n in Ids(Places(b))
  {
    var places := Places(b);
    forall e | e in places ensures 1 <= e.id < b.counter {
      assert e in multiset(places);
      assert e in b.stamped;
    }
    forall n | 1 <= n < b.counter ensures n in Ids(places) {
      var e := b.stamped[n - 1];
      assert e in multiset(b.stamped);
      assert e in places;
      var i :| 0 <= i < |places| && places[i] == e;
      assert Ids(places)[i] == n;
    }
  }

  // ---- one task's events stay in order ----

  ghost predicate Increasing(s: seq<Emission>) {
    forall i, j :: 0 <= i < j < |s| ==> s[i].id < s[j].id
  }

  lemma IncreasingIds(s: seq<Emission>)
    ensures Increasing(s) <==> Ascending(Ids(s))
  {
    if Ascending(Ids(s)) {
      forall i, j | 0 <= i < j < |s| ensures s[i].id < s[j].id {
        assert Ids(s)[i] < Ids(s)[j];
      }
    }
  }

  ghost predicate OnePerTask(s: seq<Emission>) {
    forall i, j :: 0 <= i < j < |s| ==> s[i].task != s[j].task
  }

  ghost predicate IncreasingPerTask(s: seq<Emission>) {
    forall i, j :: 0 <= i < j < |s| && s[i].task == s[j].task ==> s[i].id < s[j].id
  }

  ghost predicate TaskOrder(b: Bus) {
    && (forall e :: e in b.accepted ==> 1 <= e.id < b.counter)
    && (forall e :: e in b.inflight ==> 1 <= e.id < b.counter)
    && OnePerTask(b.inflight)
    && IncreasingPerTask(b.accepted)
    && (forall e, f :: e in b.accepted && f in b.inflight && e.task == f.task ==> e.id < f.id)
  }

  lemma OtherTasks(s: seq<Emission>, k: nat)
    requires k < |s| && OnePerTask(s)
    ensures OnePerTask(Without(s, k))
    ensures forall f :: f in Without(s, k) ==> f in s && f.task != s[k].task
  {
    forall f | f in Without(s, k) ensures f.task != s[k].task {
      var i :| 0 <= i < |s| - 1 && Without(s, k)[i] == f;
    }
  }

  lemma StepKeepsTaskOrder(b: Bus, step: Step)
    requires b.counter >= 1 && TaskOrder(b) && Enabled(b, step)
    ensures TaskOrder(Next(b, step))
  {
    if step.Send? || step.Abandon? {
      var k := step.k;
      OtherTasks(b.inflight, k);
      assert b.inflight[k] in b.inflight;
      assert IncreasingPerTask(b.accepted + [b.inflight[k]]);
    } else if step.Stamp? {
      assert OnePerTask(b.inflight + [Emission(step.task, b.counter)]);
    }
  }

  lemma {:induction false} RunKeepsTaskOrder(b: Bus, steps: seq<Step>)
    requires b.counter >= 1 && TaskOrder(b) && Runs(b, steps)
    ensures TaskOrder(After(b, steps))
    decreases |steps|
  {
    if steps != [] {
      StepKeepsTaskOrder(b, steps[0]);
      RunKeepsTaskOrder(Next(b, steps[0]), steps[1..]);
    }
  }

  /** Whatever the interleaving, the records one task emits are received in the order of their ids. */
  lemma TaskEventsInOrder(capacity: nat, steps: seq<Step>)
    requires Runs(Fresh(capacity), steps)
    ensures var got := After(Fresh(capacity), steps).received;
      forall i, j :: 0 <= i < j < |got| && got[i].task == got[j].task ==> got[i].id < got[j].id
  {
    RunKeepsFifo(Fresh(capacity), steps);
    RunKeepsTaskOrder(Fresh(capacity), steps);
    var b := After(Fresh(capacity), steps);
    forall i, j | 0 <= i < j < |b.received| && b.received[i].task == b.received[j].task
      ensures b.received[i].id < b.received[j].id
    {
      assert b.accepted[i] == b.received[i] && b.accepted[j] == b.received[j];
    }
  }

  /** Once the receiver is gone, nothing enters the channel or leaves it any more, and what was queued is dropped. */
  lemma {:induction false} ClosedForGood(b: Bus, steps: seq<Step>)
    requires !b.open && b.queue == [] && Runs(b, steps)
    ensures var end := After(b, steps);
      !end.open && end.queue == [] && end.received == b.received && end.accepted == b.accepted && b.dropped <= end.dropped
    decreases |steps|
  {
    if steps != [] {
      ClosedForGood(Next(b, steps[0]), steps[1..]);
    }
  }

  lemma {:induction false} NothingAfterClose(b: Bus, steps: seq<Step>)
    requires Enabled(b, Close) && Runs(Next(b, Close), steps)
    ensures var end := After(Next(b, Close), steps);
      && end.received == b.received && end.accepted == b.accepted && end.queue == []
      && forall e :: e in b.queue ==> e in end.dropped
  {
    ClosedForGood(Next(b, Close), steps);
    forall e | e in b.queue ensures e in After(Next(b, Close), steps).dropped {
      assert e in Next(b, Close).dropped;
    }
  }

  // ---- order across tasks ----

  /** The step puts a record into the channel ahead of an older one that is in flight now and is among `got` later. */
  predicate Overtakes(b: Bus, step: Step, got: seq<Emission>) {
    step.Send? && step.k < |b.inflight| && b.open && |b.queue| < b.capacity &&
    exists x :: x in b.inflight && x.id < b.inflight[step.k].id && x in got
  }

  predicate SomeOvertakes(b: Bus, steps: seq<Step>, got: seq<Emission>)
    requires Runs(b, steps)
    decreases |steps|
  {
    steps != [] && (Overtakes(b, steps[0], got) || SomeOvertakes(Next(b, steps[0]), steps[1..], got))
  }

  /** An older record still in flight will be among `got`, behind one that is in the channel already. */
  ghost predicate Owed(b: Bus, got: seq<Emission>) {
    exists x, e :: x in b.inflight && e in b.accepted && x.id < e.id && x in got
  }

  /** Records in flight have ids of their own, handed out already. */
  ghost predicate Apart(b: Bus) {
    && DistinctIds(b.inflight)
    && (forall e :: e in b.inflight ==> e.id < b.counter)
    && (forall e :: e in b.accepted ==> e.id < b.counter)
    && (forall e, f :: e in b.inflight && f in b.accepted ==> e.id != f.id)
  }

  lemma IncreasingGrows(s: seq<Emission>, e: Emission)
    ensures Increasing(s + [e]) <==> Increasing(s) && forall f :: f in s ==> f.id < e.id
  {
    var longer := s + [e];
    if Increasing(longer) {
      forall i, j | 0 <= i < j < |s| ensures s[i].id < s[j].id {
        assert longer[i].id < longer[j].id;
      }
      forall f | f in s ensures f.id < e.id {
        var i :| 0 <= i < |s| && s[i] == f;
        assert longer[i].id < longer[|s|].id;
      }
    }
  }

  lemma StepKeepsApart(b: Bus, step: Step)
    requires Apart(b) && Enabled(b, step)
    ensures Apart(Next(b, step))
  {
    if step.Send? || step.Abandon? {
      OthersDiffer(b.inflight, step.k);
    }
  }

  lemma {:induction false} AcceptedGrows(b: Bus, steps: seq<Step>)
    requires Runs(b, steps)
    ensures b.accepted <= After(b, steps).accepted
    decreases |steps|
  {
    if steps != [] {
      AcceptedGrows(Next(b, steps[0]), steps[1..]);
    }
  }

  /** What is neither in flight nor accepted, though its id is taken, never will be. */
  lemma {:induction false} GoneForGood(b: Bus, steps: seq<Step>, e: Emission)
    requires Runs(b, steps) && e.id < b.counter && e !in b.inflight && e !in b.accepted
    ensures e !in After(b, steps).accepted
    decreases |steps|
  {
    if steps != [] {
      if steps[0].Send? || steps[0].Abandon? {
      }
      GoneForGood(Next(b, steps[0]), steps[1..], e);
    }
  }

  function Take(s: seq<Emission>, n: nat): seq<Emission> {
    if |s| <= n then s else s[..n]
  }

  ghost predicate InOrder(b: Bus, n: nat, got: seq<Emission>) {
    Increasing(Take(b.accepted, n)) && !Owed(b, got)
  }

  lemma StampOrder(b: Bus, task: nat, n: nat, got: seq<Emission>)
    requires Apart(b) && Enabled(b, Stamp(task))
    ensures InOrder(Next(b, Stamp(task)), n, got) <==> InOrder(b, n, got)
  {
    var b' := Next(b, Stamp(task));
    if Owed(b, got) {
      var x, e :| x in b.inflight && e in b.accepted && x.id < e.id && x in got;
      assert x in b'.inflight;
    }
    if Owed(b', got) {
      var x, e :| x in b'.inflight && e in b'.accepted && x.id < e.id && x in got;
      assert x in b.inflight;
    }
  }

  lemma DropOrder(b: Bus, b': Bus, k: nat, n: nat, got: seq<Emission>)
    requires k < |b.inflight| && b.inflight[k] !in got
    requires b'.inflight == Without(b.inflight, k) && b'.accepted == b.accepted
    ensures InOrder(b', n, got) <==> InOrder(b, n, got)
  {
    if Owed(b, got) {
      var x, e :| x in b.inflight && e in b.accepted && x.id < e.id && x in got;
      assert x in b'.inflight;
    }
  }

  /** A record enters the channel within the part that `got` covers. */
  lemma SendOrder(b: Bus, b': Bus, k: nat, n: nat, got: seq<Emission>)
    requires Apart(b) && k < |b.inflight| && b.inflight[k] in got && |b.accepted| < n
    requires b'.inflight == Without(b.inflight, k) && b'.accepted == b.accepted + [b.inflight[k]]
    ensures InOrder(b, n, got) && !(exists x :: x in b.inflight && x.id < b.inflight[k].id && x in got)
      <==> InOrder(b', n, got)
  {
    var s := b.inflight[k];
    OthersDiffer(b.inflight, k);
    IncreasingGrows(b.accepted, s);
    if InOrder(b', n, got) {
      forall x | x in b.inflight && x in got ensures x.id >= s.id {
        assert x == s || x in b'.inflight;
      }
      forall x, e | x in b.inflight && e in b.accepted && x in got ensures x.id >= e.id {
        assert x == s || x in b'.inflight;
        assert e in b'.accepted;
      }
    }
    if InOrder(b, n, got) && !(exists x :: x in b.inflight && x.id < s.id && x in got) {
      forall f | f in b.accepted ensures f.id < s.id {
        assert s in b.inflight;
      }
      forall x, e | x in b'.inflight && e in b'.accepted && x in got ensures x.id >= e.id {
        assert x in b.inflight;
        assert e == s || e in b.accepted;
      }
    }
  }

  lemma {:induction false} OrderIffNoneOvertakes(b: Bus, steps: seq<Step>, n: nat, got: seq<Emission>)
    requires Runs(b, steps) && Apart(b)
    requires n <= |After(b, steps).accepted| && got == After(b, steps).accepted[..n]
    ensures Increasing(got) <==> InOrder(b, n, got) && !SomeOvertakes(b, steps, got)
    decreases |steps|
  {
    if steps == [] {
      assert Take(b.accepted, n) == got;
    } else {
      var next := Next(b, steps[0]);
      StepKeepsApart(b, steps[0]);
      OrderIffNoneOvertakes(next, steps[1..], n, got);
      StepOrder(b, steps, n, got);
    }
  }

  lemma StepOrder(b: Bus, steps: seq<Step>, n: nat, got: seq<Emission>)
    requires Runs(b, steps) && Apart(b) && steps != []
    requires n <= |After(b, steps).accepted| && got == After(b, steps).accepted[..n]
    ensures InOrder(b, n, got) && !Overtakes(b, steps[0], got) <==> InOrder(Next(b, steps[0]), n, got)
  {
    var step, next := steps[0], Next(b, steps[0]);
    match step
    case Stamp(task) => StampOrder(b, task, n, got);
    case Receive =>
    case Close =>
    case Abandon(k) => LeaveOrder(b, next, steps[1..], k, n, got);
    case Send(k) =>
      if b.open && |b.queue| < b.capacity {
        EnterOrder(b, next, steps[1..], k, n, got);
      } else {
        LeaveOrder(b, next, steps[1..], k, n, got);
      }
  }

  lemma LeaveOrder(b: Bus, b': Bus, rest: seq<Step>, k: nat, n: nat, got: seq<Emission>)
    requires Apart(b) && k < |b.inflight| && b'.counter == b.counter
    requires b'.inflight == Without(b.inflight, k) && b'.accepted == b.accepted
    requires Runs(b', rest) && n <= |After(b', rest).accepted| && got == After(b', rest).accepted[..n]
    ensures InOrder(b, n, got) <==> InOrder(b', n, got)
  {
    OthersDiffer(b.inflight, k);
    GoneForGood(b', rest, b.inflight[k]);
    DropOrder(b, b', k, n, got);
  }

  lemma EnterOrder(b: Bus, b': Bus, rest: seq<Step>, k: nat, n: nat, got: seq<Emission>)
    requires Apart(b) && Enabled(b, Send(k)) && b' == Next(b, Send(k)) && b.open && |b.queue| < b.capacity
    requires Runs(b', rest) && n <= |After(b', rest).accepted| && got == After(b', rest).accepted[..n]
    ensures InOrder(b, n, got) && !Overtakes(b, Send(k), got) <==> InOrder(b', n, got)
  {
    AcceptedGrows(b', rest);
    StepKeepsApart(b, Send(k));
    if |b.accepted| < n {
      assert got[|b.accepted|] == b'.accepted[|b.accepted|];
      SendOrder(b, b', k, n, got);
    } else {
      CoveredOrder(b, b', n, got);
    }
  }

  /** All of `got` is in the channel already, so nothing in flight can matter. */
  lemma CoveredOrder(b: Bus, b': Bus, n: nat, got: seq<Emission>)
    requires Apart(b) && Apart(b') && n <= |b.accepted| && b.accepted <= b'.accepted && got == b.accepted[..n]
    ensures InOrder(b, n, got) <==> InOrder(b', n, got)
    ensures forall x :: x in b.inflight ==> x !in got
  {
    assert Take(b.accepted, n) == Take(b'.accepted, n);
    forall x | x in got ensures x !in b.inflight && x !in b'.inflight {
      assert x in b.accepted && x in b'.accepted;
    }
  }

  lemma ReceivedFromChannel(capacity: nat, steps: seq<Step>)
    requires Runs(Fresh(capacity), steps)
    ensures var b := After(Fresh(capacity), steps);
      |b.received| <= |b.accepted| && b.received == b.accepted[..|b.received|] && Positive(Ids(b.received))
  {
    var b := After(Fresh(capacity), steps);
    RunKeepsFifo(Fresh(capacity), steps);
    RunKeepsTaskOrder(Fresh(capacity), steps);
    forall i | 0 <= i < |b.received| ensures 0 < Ids(b.received)[i] {
      assert b.received[i] in b.accepted;
    }
  }

  /**
   * The consumer has reported a reordering exactly if some send went ahead of an older record that was in flight
   * at that moment and has been received by now.
   */
  lemma {:induction false} ReorderingIffOvertaken(capacity: nat, steps: seq<Step>)
    requires Runs(Fresh(capacity), steps)
    ensures var got := After(Fresh(capacity), steps).received;
      ReportsReordering(Ids(got)) <==> SomeOvertakes(Fresh(capacity), steps, got)
  {
    var got := After(Fresh(capacity), steps).received;
    ReceivedFromChannel(capacity, steps);
    IncreasingIds(got);
    ReorderingIffNotAscending(Ids(got));
    OrderIffNoneOvertakes(Fresh(capacity), steps, |got|, got);
  }

  lemma Prepend(b: Bus, step: Step, rest: seq<Step>, next: Bus)
    requires Enabled(b, step) && Next(b, step) == next && Runs(next, rest)
    ensures Runs(b, [step] + rest) && After(b, [step] + rest) == After(next, rest)
  {
  }

  function OvertakenTail(): seq<Step> { [Send(0)] + ([Receive] + ([Receive] + [])) }

  lemma RunOvertakenTail(e: Emission, f: Emission)
    ensures var b3 := Bus(3, 2, true, [e], [f], [], [], [e, f], [f]);
      Runs(b3, OvertakenTail()) && After(b3, OvertakenTail()).received == [f, e]
  {
    var b3 := Bus(3, 2, true, [e], [f], [], [], [e, f], [f]);
    var b4 := Bus(3, 2, true, [], [f, e], [], [], [e, f], [f, e]);
    var b5 := Bus(3, 2, true, [], [e], [f], [], [e, f], [f, e]);
    var b6 := Bus(3, 2, true, [], [], [f, e], [], [e, f], [f, e]);
    Prepend(b5, Receive, [], b6);
    Prepend(b4, Receive, [Receive] + [], b5);
    Prepend(b3, Send(0), [Receive] + ([Receive] + []), b4);
  }

  /** Two clones are enough: the later stamp is sent first, and the multiplexer reports a critical reordering. */
  lemma ClonesCanReorder()
    ensures var steps := [Stamp(0)] + ([Stamp(1)] + ([Send(1)] + OvertakenTail()));
      Runs(Fresh(2), steps) && Report(Ids(After(Fresh(2), steps).received)) == [Reordered(1, 2)]
  {
    var e, f := Emission(0, 1), Emission(1, 2);
    var b1 := Bus(2, 2, true, [e], [], [], [], [e], []);
    var b2 := Bus(3, 2, true, [e, f], [], [], [], [e, f], []);
    var b3 := Bus(3, 2, true, [e], [f], [], [], [e, f], [f]);
    RunOvertakenTail(e, f);
    Prepend(b2, Send(1), OvertakenTail(), b3);
    Prepend(b1, Stamp(1), [Send(1)] + OvertakenTail(), b2);
    Prepend(Fresh(2), Stamp(0), [Stamp(1)] + ([Send(1)] + OvertakenTail()), b1);
    assert Ids([f, e]) == [2, 1] && [2, 1][..1] == [2];
  }

  // ---- sending in stamp order ----

  predicate OldestFirst(b: Bus, step: Step) {
    step.Send? && step.k < |b.inflight| ==> forall e :: e in b.inflight ==> b.inflight[step.k].id <= e.id
  }

  predicate Orderly(b: Bus, steps: seq<Step>)
    requires Runs(b, steps)
    decreases |steps|
  {
    steps == [] || (OldestFirst(b, steps[0]) && Orderly(Next(b, steps[0]), steps[1..]))
  }

  /** Stamp and send happen together: whoever takes an id resolves it before anybody else takes one. */
  predicate Atomic(steps: seq<Step>)
    decreases |steps|
  {
    steps == []
    || (|steps| >= 2 && steps[0].Stamp? && (steps[1] == Send(0) || steps[1] == Abandon(0)) && Atomic(steps[2..]))
    || ((steps[0].Receive? || steps[0].Close?) && Atomic(steps[1..]))
  }

  lemma {:induction false} AtomicIsOrderly(b: Bus, steps: seq<Step>)
    requires Runs(b, steps) && Atomic(steps) && b.inflight == []
    ensures Orderly(b, steps)
    decreases |steps|
  {
    if steps != [] {
      var b1 := Next(b, steps[0]);
      if steps[0].Stamp? {
        var b2 := Next(b1, steps[1]);
        assert steps[1..][0] == steps[1] && steps[1..][1..] == steps[2..];
        assert Runs(b1, steps[1..]) && Runs(b2, steps[2..]);
        AtomicIsOrderly(b2, steps[2..]);
        assert Orderly(b1, steps[1..]);
      } else {
        AtomicIsOrderly(b1, steps[1..]);
      }
    }
  }

  ghost predicate Sorted(b: Bus) {
    && (forall e :: e in b.inflight ==> 1 <= e.id < b.counter)
    && (forall e :: e in b.accepted ==> 1 <= e.id < b.counter)
    && Increasing(b.accepted)
    && DistinctIds(b.inflight)
    && (forall e, f :: e in b.accepted && f in b.inflight ==> e.id < f.id)
  }

  lemma OthersDiffer(s: seq<Emission>, k: nat)
    requires k < |s| && DistinctIds(s)
    ensures DistinctIds(Without(s, k))
    ensures forall f :: f in Without(s, k) ==> f in s && f.id != s[k].id
  {
    forall f | f in Without(s, k) ensures f.id != s[k].id {
      var i :| 0 <= i < |s| - 1 && Without(s, k)[i] == f;
    }
  }

  lemma OrderlyStep(b: Bus, step: Step)
    requires b.counter >= 1 && Sorted(b) && Enabled(b, step) && OldestFirst(b, step)
    ensures Sorted(Next(b, step))
  {
    if step.Send? || step.Abandon? {
      var k := step.k;
      OthersDiffer(b.inflight, k);
      assert b.inflight[k] in b.inflight;
      IncreasingGrows(b.accepted, b.inflight[k]);
    }
  }

  lemma {:induction false} OrderlyRun(b: Bus, steps: seq<Step>)
    requires b.counter >= 1 && Sorted(b) && Runs(b, steps) && Orderly(b, steps)
    ensures Sorted(After(b, steps))
    decreases |steps|
  {
    if steps != [] {
      OrderlyStep(b, steps[0]);
      OrderlyRun(Next(b, steps[0]), steps[1..]);
    }
  }

  // ---- reported gaps are exactly the drops ----

  ghost function IdSet(s: seq<Emission>): set<nat> {
    set i | 0 <= i < |s| :: s[i].id
  }

  lemma {:induction false} IdSetSize(s: seq<Emission>)
    requires DistinctIds(s)
    ensures |IdSet(s)| == |s|
  {
    if s != [] {
      var front, last := s[..|s| - 1], s[|s| - 1].id;
      IdSetSize(front);
      assert IdSet(s) == IdSet(front) + {last};
      assert last !in IdSet(front);
    }
  }

  /** Ids dropped after the first and before the last received one. */
  ghost function DroppedBetween(b: Bus): set<nat>
    requires b.received != []
  {
    set i | 0 <= i < |b.dropped| && b.received[0].id < b.dropped[i].id < b.received[|b.received| - 1].id :: b.dropped[i].id
  }

  lemma ReceivedIncreasing(b: Bus)
    requires Fifo(b) && Sorted(b)
    ensures Increasing(b.received) && Positive(Ids(b.received))
  {
    forall i, j | 0 <= i < j < |b.received| ensures b.received[i].id < b.received[j].id {
      assert b.accepted[i].id < b.accepted[j].id;
    }
    forall i | 0 <= i < |b.received| ensures 0 < Ids(b.received)[i] {
      assert b.accepted[i] in b.accepted;
    }
  }

  lemma RestComesLater(b: Bus, e: Emission)
    requires Fifo(b) && Sorted(b) && b.received != []
    requires e in b.queue || e in b.inflight
    ensures b.received[|b.received| - 1].id < e.id
  {
    var n := |b.received|;
    assert b.accepted[n - 1] == b.received[n - 1] && b.accepted[n - 1] in b.accepted;
    if e in b.queue {
      var i :| 0 <= i < |b.queue| && b.queue[i] == e;
      assert b.accepted[n + i] == e;
    }
  }

  lemma WhereIdIs(b: Bus, n: nat)
    requires Fifo(b) && Sorted(b) && b.received != []
    requires n in Ids(Places(b)) && b.received[0].id <= n <= b.received[|b.received| - 1].id
    ensures n in IdSet(b.received) || n in DroppedBetween(b)
  {
    var i :| 0 <= i < |Places(b)| && Ids(Places(b))[i] == n;
    var e := Places(b)[i];
    if e in b.queue || e in b.inflight {
      RestComesLater(b, e);
    } else if e in b.received {
    } else {
      assert e in b.dropped;
      assert b.received[0].id in IdSet(b.received) && b.received[|b.received| - 1].id in IdSet(b.received);
    }
  }

  lemma NotBoth(b: Bus)
    requires DistinctIds(Places(b)) && b.received != []
    ensures IdSet(b.received) !! DroppedBetween(b)
  {
    forall i, j | 0 <= i < |b.received| && 0 <= j < |b.dropped| ensures b.received[i].id != b.dropped[j].id {
      var places, at := Places(b), |b.received| + |b.queue| + j;
      assert places[i] == b.received[i] && places[at] == b.dropped[j];
    }
  }

  lemma ReceivedOrDropped(b: Bus)
    requires Fifo(b) && Sorted(b) && b.received != []
    requires forall n :: 1 <= n < b.counter ==> n in Ids(Places(b))
    ensures Span(b.received[0].id, b.received[|b.received| - 1].id) == IdSet(b.received) + DroppedBetween(b)
  {
    var lo, hi := b.received[0].id, b.received[|b.received| - 1].id;
    ReceivedIncreasing(b);
    assert b.accepted[0] in b.accepted && b.accepted[|b.received| - 1] in b.accepted;
    forall n: nat | lo <= n <= hi ensures n in IdSet(b.received) + DroppedBetween(b) {
      WhereIdIs(b, n);
    }
    forall n | n in IdSet(b.received) ensures lo <= n <= hi {
    }
  }

  lemma CountDrops(b: Bus)
    requires Fifo(b) && Sorted(b) && DistinctIds(Places(b)) && b.received != []
    requires forall n :: 1 <= n < b.counter ==> n in Ids(Places(b))
    ensures |DroppedBetween(b)| == b.received[|b.received| - 1].id - b.received[0].id + 1 - |b.received|
  {
    ReceivedIncreasing(b);
    ReceivedOrDropped(b);
    NotBoth(b);
    IdSetSize(b.received);
  }

  /**
   * If tasks send in stamp order, nothing is ever reported as reordered, and the reported gap sizes add up to
   * exactly the number of ids dropped between the first and the last received one.
   */
  lemma GapsAreDrops(capacity: nat, steps: seq<Step>)
    requires Runs(Fresh(capacity), steps) && Orderly(Fresh(capacity), steps)
    ensures var b := After(Fresh(capacity), steps);
      && !ReportsReordering(Ids(b.received))
      && (b.received != [] ==> GapTotal(Report(Ids(b.received))) == |DroppedBetween(b)|)
  {
    var b := After(Fresh(capacity), steps);
    RunKeepsFifo(Fresh(capacity), steps);
    OrderlyRun(Fresh(capacity), steps);
    EveryIdAccountedFor(capacity, steps);
    ReceivedIncreasing(b);
    IncreasingIds(b.received);
    ReorderingIffNotAscending(Ids(b.received));
    if b.received != [] {
      GapsAddUp(Ids(b.received));
      CountDrops(b);
    }
  }

  /** The same with stamping and sending done together, as a single emitting task does them. */
  lemma AtomicGapsAreDrops(capacity: nat, steps: seq<Step>)
    requires Runs(Fresh(capacity), steps) && Atomic(steps)
    ensures var b := After(Fresh(capacity), steps);
      && !ReportsReordering(Ids(b.received))
      && (b.received != [] ==> GapTotal(Report(Ids(b.received))) == |DroppedBetween(b)|)
  {
    AtomicIsOrderly(Fresh(capacity), steps);
    GapsAreDrops(capacity, steps);
  }
}

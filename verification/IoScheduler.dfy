/** The I/O scheduler: requests are issued, completed one by one, or flushed all at once. */
module IoScheduler {
  import opened Types
  import opened Sequences

  datatype IoOperation = Read | Write | Delete | Flush

  datatype Completion = Pending | Completed(ticks: nat) | Failed(error: string)

  datatype Request = Request(
    id: nat, operation: IoOperation, chunk: ChunkId, tier: TierId, issuedAt: nat, completion: Completion)

  datatype Outcome = Success | Failure(error: string)

  datatype Event =
    | Issued(operation: IoOperation, chunk: ChunkId, tier: TierId)
    | RequestCompleted(operation: IoOperation, chunk: ChunkId, tier: TierId, ticks: nat)
    | RequestFailed(operation: IoOperation, chunk: ChunkId, tier: TierId, error: string)
    | FlushIssued
    | FlushCompleted(ticks: nat)

  /** `events` lists what the scheduler emits, in order. */
  datatype State = State(
    nextId: nat, pending: map<nat, Request>, completed: seq<Request>, maxPending: nat, events: seq<Event>)

  function Start(maxPending: nat): State {
    State(1, map[], [], maxPending, [])
  }

  // ---- the operations on values ----

  function Issue(st: State, operation: IoOperation, chunk: ChunkId, tier: TierId, now: nat): State {
    if |st.pending| >= st.maxPending then st
    else st.(
        nextId := st.nextId + 1,
        pending := st.pending[st.nextId := Request(st.nextId, operation, chunk, tier, now, Pending)],
        events := st.events + [Issued(operation, chunk, tier)])
  }

  function Resolve(r: Request, outcome: Outcome, now: nat): Request {
    match outcome
    case Success => r.(completion := Completed(SaturatingSub(now, r.issuedAt)))
    case Failure(error) => r.(completion := Failed(error))
  }

  function ResolveEvent(r: Request, outcome: Outcome, now: nat): Event {
    match outcome
    case Success => RequestCompleted(r.operation, r.chunk, r.tier, SaturatingSub(now, r.issuedAt))
    case Failure(error) => RequestFailed(r.operation, r.chunk, r.tier, error)
  }

  function Complete(st: State, id: nat, outcome: Outcome, now: nat): State
    requires id in st.pending
  {
    var r := st.pending[id];
    st.(pending := st.pending - {id},
        completed := st.completed + [Resolve(r, outcome, now)],
        events := st.events + [ResolveEvent(r, outcome, now)])
  }

  function Elements(ids: seq<nat>): set<nat> {
    set k | k in ids
  }

  /** The keys below `bound` in the order in which a BTreeMap iterates over them. */
  function InOrder(keys: set<nat>, bound: nat): (ids: seq<nat>)
    ensures Ascending(ids)
    ensures forall k: nat :: k in ids <==> k in keys && k < bound
  {
    if bound == 0 then []
    else
      var front := InOrder(keys, bound - 1);
      assert forall i :: 0 <= i < |front| ==> front[i] in front;
      front + (if bound - 1 in keys then [bound - 1] else [])
  }

  lemma {:induction false} DistinctSize(ids: seq<nat>)
    requires Ascending(ids)
    ensures |Elements(ids)| == |ids|
  {
    if ids != [] {
      var front, last := ids[..|ids| - 1], ids[|ids| - 1];
      DistinctSize(front);
      assert ids == front + [last];
      assert Elements(ids) == Elements(front) + {last};
      assert last !in front;
    }
  }

  /** Every pending id has been handed out. */
  ghost predicate WellKeyed(st: State) {
    forall id :: id in st.pending ==> id < st.nextId
  }

  function PendingIds(st: State): (ids: seq<nat>)
    requires WellKeyed(st)
    ensures Ascending(ids) && Elements(ids) == st.pending.Keys && |ids| == |st.pending|
  {
    var ids := InOrder(st.pending.Keys, st.nextId);
    DistinctSize(ids);
    assert Elements(ids) == st.pending.Keys;
    ids
  }

  /** The requests named by `ids`, completed at `now`. */
  function Drained(pending: map<nat, Request>, ids: seq<nat>, now: nat): (rs: seq<Request>)
    requires Elements(ids) <= pending.Keys
    ensures |rs| == |ids|
    ensures forall i :: 0 <= i < |ids| ==> ids[i] in pending && rs[i] == Resolve(pending[ids[i]], Success, now)
  {
    if ids == [] then []
    else
      assert ids[|ids| - 1] in Elements(ids) && Elements(ids[..|ids| - 1]) <= Elements(ids);
      Drained(pending, ids[..|ids| - 1], now) + [Resolve(pending[ids[|ids| - 1]], Success, now)]
  }

  function DrainEvents(pending: map<nat, Request>, ids: seq<nat>, now: nat): (es: seq<Event>)
    requires Elements(ids) <= pending.Keys
    ensures |es| == |ids|
    ensures forall i :: 0 <= i < |es| ==> es[i].RequestCompleted?
  {
    if ids == [] then []
    else
      assert ids[|ids| - 1] in Elements(ids) && Elements(ids[..|ids| - 1]) <= Elements(ids);
      DrainEvents(pending, ids[..|ids| - 1], now) + [ResolveEvent(pending[ids[|ids| - 1]], Success, now)]
  }

  /** Everything pending is completed at one instant, in id order. */
  function FlushAll(st: State, now: nat, elapsed: nat): State
    requires WellKeyed(st)
  {
    var ids := PendingIds(st);
    st.(pending := map[],
        completed := st.completed + Drained(st.pending, ids, now),
        events := st.events + [FlushIssued] + DrainEvents(st.pending, ids, now) + [FlushCompleted(elapsed)])
  }

  // ---- the scheduler ----

  class IoScheduler {
    var nextId: nat
    var pending: map<nat, Request>
    var completed: seq<Request>
    const maxPending: nat
    var events: seq<Event>

    ghost predicate Valid()
      reads this
    {
      WellKeyed(Value())
    }

    function Value(): State
      reads this
    {
      State(nextId, pending, completed, maxPending, events)
    }

    constructor (maxPending: nat)
      ensures Valid() && Value() == Start(maxPending)
    {
      nextId, pending, completed, events := 1, map[], [], [];
      this.maxPending := maxPending;
    }

    /** At capacity the request is refused and nothing changes; no id is used up. */
    method IssueRequest(operation: IoOperation, chunk: ChunkId, tier: TierId, now: nat) returns (id: Option<nat>)
      requires Valid()
      modifies this
      ensures Valid() && Value() == Issue(old(Value()), operation, chunk, tier, now)
      ensures id == if |old(pending)| >= maxPending then None else Some(old(nextId))
    {
      if |pending| >= maxPending {
        return None;
      }
      var fetched := nextId;
      nextId := nextId + 1;
      var request := Request(fetched, operation, chunk, tier, now, Pending);
      events := events + [Issued(operation, chunk, tier)];
      pending := pending[fetched := request];
      return Some(fetched);
    }

    /** An id that is not pending makes the caller panic: `ok` is false and nothing changes. */
    method CompleteRequest(id: nat, outcome: Outcome, now: nat) returns (ok: bool)
      requires Valid()
      modifies this
      ensures Valid()
      ensures ok <==> id in old(pending)
      ensures Value() == if ok then Complete(old(Value()), id, outcome, now) else old(Value())
    {
      if id !in pending {
        return false;
      }
      var request := pending[id];
      pending := pending - {id};
      var durationTicks := SaturatingSub(now, request.issuedAt);
      match outcome {
        case Success =>
          events := events + [RequestCompleted(request.operation, request.chunk, request.tier, durationTicks)];
          request := request.(completion := Completed(durationTicks));
        case Failure(error) =>
          events := events + [RequestFailed(request.operation, request.chunk, request.tier, error)];
          request := request.(completion := Failed(error));
      }
      completed := completed + [request];
      return true;
    }

    method FinishOne(id: nat, now: nat)
      requires id in pending
      modifies this
      ensures Value() == Complete(old(Value()), id, Success, now)
    {
      var request := pending[id];
      pending := pending - {id};
      var durationTicks := SaturatingSub(now, request.issuedAt);
      request := request.(completion := Completed(durationTicks));
      events := events + [RequestCompleted(request.operation, request.chunk, request.tier, durationTicks)];
      completed := completed + [request];
    }

    /** Everything pending is completed with the one time read at the start, in id order. */
    method FlushPending(now: nat, elapsed: nat)
      requires Valid()
      modifies this
      ensures Valid() && Value() == FlushAll(old(Value()), now, elapsed)
    {
      events := events + [FlushIssued];
      ghost var before := Value();
      var pendingIds := PendingIds(Value());
      var k := 0;
      while k < |pendingIds|
        invariant k <= |pendingIds|
        invariant Elements(pendingIds[..k]) <= before.pending.Keys
        invariant Value() == CompleteEach(before, pendingIds[..k], now)
      {
        var id := pendingIds[k];
        EachNext(before, pendingIds, k, now);
        if id in pending {
          FinishOne(id, now);
        }
        k := k + 1;
      }
      assert pendingIds[..k] == pendingIds;
      FlushSteps(old(Value()), now, elapsed);
      events := events + [FlushCompleted(elapsed)];
    }
  }

  lemma {:induction false} NextInOrder(ids: seq<nat>, k: nat)
    requires k < |ids| && Ascending(ids)
    ensures ids[k] !in Elements(ids[..k]) && ids[k] in Elements(ids)
    ensures ids[..k + 1][..k] == ids[..k] && ids[..k + 1][k] == ids[k]
    ensures Elements(ids[..k + 1]) == Elements(ids[..k]) + {ids[k]}
  {
  }

  lemma {:induction false} DrainNext(all: map<nat, Request>, ids: seq<nat>, k: nat, now: nat)
    requires k < |ids| && Ascending(ids) && Elements(ids) <= all.Keys
    ensures Elements(ids[..k]) <= all.Keys && Elements(ids[..k + 1]) <= all.Keys
    ensures ids[k] in all && ids[k] in all - Elements(ids[..k])
    ensures (all - Elements(ids[..k]))[ids[k]] == all[ids[k]]
    ensures all - Elements(ids[..k]) - {ids[k]} == all - Elements(ids[..k + 1])
    ensures Drained(all, ids[..k + 1], now) == Drained(all, ids[..k], now) + [Resolve(all[ids[k]], Success, now)]
    ensures DrainEvents(all, ids[..k + 1], now) == DrainEvents(all, ids[..k], now) + [ResolveEvent(all[ids[k]], Success, now)]
  {
    NextInOrder(ids, k);
    assert forall id :: id in ids[..k] ==> id in ids;
  }

  // ---- runs ----

  datatype Call =
    | DoIssue(operation: IoOperation, chunk: ChunkId, tier: TierId, now: nat)
    | DoComplete(id: nat, outcome: Outcome, now: nat)
    | DoFlush(now: nat, elapsed: nat)

  /** Completing an unknown id panics, so no run contains it. */
  ghost predicate Enabled(st: State, c: Call) {
    WellKeyed(st) && (c.DoComplete? ==> c.id in st.pending)
  }

  ghost function Next(st: State, c: Call): State
    requires Enabled(st, c)
  {
    match c
    case DoIssue(operation, chunk, tier, now) => Issue(st, operation, chunk, tier, now)
    case DoComplete(id, outcome, now) => Complete(st, id, outcome, now)
    case DoFlush(now, elapsed) => FlushAll(st, now, elapsed)
  }

  ghost predicate Runs(st: State, calls: seq<Call>)
    decreases |calls|
  {
    calls == [] || (Enabled(st, calls[0]) && Runs(Next(st, calls[0]), calls[1..]))
  }

  ghost function After(st: State, calls: seq<Call>): State
    requires Runs(st, calls)
    decreases |calls|
  {
    if calls == [] then st else After(Next(st, calls[0]), calls[1..])
  }

  // ---- every id is in exactly one place ----

  /** Each of the requests was handed out, is resolved, is not pending any more, and is listed once. */
  ghost predicate Finished(completed: seq<Request>, pending: map<nat, Request>, nextId: nat) {
    && (forall i :: 0 <= i < |completed| ==>
          1 <= completed[i].id < nextId && completed[i].id !in pending && completed[i].completion != Pending)
    && (forall i, j :: 0 <= i < j < |completed| ==> completed[i].id != completed[j].id)
  }

  ghost predicate Partitioned(st: State) {
    && 1 <= st.nextId
    && (forall id :: id in st.pending ==> 1 <= id < st.nextId && st.pending[id].id == id && st.pending[id].completion == Pending)
    && Finished(st.completed, st.pending, st.nextId)
    && |st.pending| + |st.completed| == st.nextId - 1
    && |st.pending| <= st.maxPending
  }

  lemma {:induction false} IssueKeepsPartition(st: State, c: Call)
    requires Partitioned(st) && c.DoIssue?
    ensures Partitioned(Next(st, c))
  {
    if |st.pending| < st.maxPending {
      assert st.nextId !in st.pending;
      assert Next(st, c).pending.Keys == st.pending.Keys + {st.nextId};
    }
  }

  lemma {:induction false} CompleteKeepsPartition(st: State, c: Call)
    requires Partitioned(st) && c.DoComplete? && Enabled(st, c)
    ensures Partitioned(Next(st, c))
  {
    assert st.pending.Keys == Next(st, c).pending.Keys + {c.id};
  }

  /** The ids are ascending, so the requests drained for them are distinct; each was pending and is resolved now. */
  lemma {:induction false} DrainedDistinct(pending: map<nat, Request>, ids: seq<nat>, now: nat)
    requires Ascending(ids) && Elements(ids) <= pending.Keys
    requires forall id :: id in pending ==> pending[id].id == id
    ensures var drained := Drained(pending, ids, now);
      && |drained| == |ids|
      && (forall i :: 0 <= i < |ids| ==> drained[i].id in pending && drained[i].completion != Pending)
      && (forall i, j :: 0 <= i < j < |ids| ==> drained[i].id != drained[j].id)
  {
    var drained := Drained(pending, ids, now);
    forall i | 0 <= i < |ids| ensures drained[i].id == ids[i] && ids[i] in pending && drained[i].completion != Pending {
      assert ids[i] in Elements(ids);
    }
  }

  lemma JoinFinished(a: seq<Request>, b: seq<Request>, pending: map<nat, Request>, nextId: nat)
    requires Finished(a, pending, nextId) && (forall id :: id in pending ==> 1 <= id < nextId)
    requires forall i :: 0 <= i < |b| ==> b[i].id in pending && b[i].completion != Pending
    requires forall i, j :: 0 <= i < j < |b| ==> b[i].id != b[j].id
    ensures Finished(a + b, map[], nextId)
  {
    forall i, j | 0 <= i < j < |a + b| ensures (a + b)[i].id != (a + b)[j].id {
      if i < |a| <= j {
        assert a[i].id !in pending && b[j - |a|].id in pending;
      }
    }
  }

  lemma {:induction false} FlushKeepsPartition(st: State, c: Call)
    requires Partitioned(st) && c.DoFlush?
    ensures Partitioned(Next(st, c))
  {
    DrainedDistinct(st.pending, PendingIds(st), c.now);
    JoinFinished(st.completed, Drained(st.pending, PendingIds(st), c.now), st.pending, st.nextId);
  }

  lemma {:induction false} RunKeepsPartition(st: State, calls: seq<Call>)
    requires Partitioned(st) && Runs(st, calls)
    ensures Partitioned(After(st, calls))
    decreases |calls|
  {
    if calls != [] {
      var next := Next(st, calls[0]);
      match calls[0] {
        case DoIssue(_, _, _, _) => IssueKeepsPartition(st, calls[0]);
        case DoComplete(_, _, _) => CompleteKeepsPartition(st, calls[0]);
        case DoFlush(_, _) => FlushKeepsPartition(st, calls[0]);
      }
      RunKeepsPartition(next, calls[1..]);
    }
  }

  /** In a reachable state issuing and flushing are always possible, and completing is possible for pending ids. */
  lemma {:induction false} CallsPossible(maxPending: nat, calls: seq<Call>, c: Call)
    requires Runs(Start(maxPending), calls)
    ensures var st := After(Start(maxPending), calls); Enabled(st, c) <==> (c.DoComplete? ==> c.id in st.pending)
  {
    RunKeepsPartition(Start(maxPending), calls);
  }

  ghost function CompletedIds(st: State): set<nat> {
    set i | 0 <= i < |st.completed| :: st.completed[i].id
  }

  lemma {:induction false} CompletedIdsSize(completed: seq<Request>)
    requires forall i, j :: 0 <= i < j < |completed| ==> completed[i].id != completed[j].id
    ensures |set i | 0 <= i < |completed| :: completed[i].id| == |completed|
  {
    if completed != [] {
      var front, last := completed[..|completed| - 1], completed[|completed| - 1].id;
      CompletedIdsSize(front);
      var few := set i | 0 <= i < |front| :: front[i].id;
      assert (set i | 0 <= i < |completed| :: completed[i].id) == few + {last};
      assert last !in few;
    }
  }

  lemma {:induction false} FullSubset(a: set<nat>, b: set<nat>)
    requires a <= b && |a| == |b|
    ensures a == b
  {
    assert |b - a| == |b| - |a|;
  }

  lemma {:induction false} PartitionExact(st: State)
    requires Partitioned(st)
    ensures CompletedIds(st) !! st.pending.Keys && |CompletedIds(st)| == |st.completed|
    ensures forall id: nat :: id in CompletedIds(st) + st.pending.Keys <==> 1 <= id < st.nextId
  {
    CompletedIdsSize(st.completed);
    FullSubset(CompletedIds(st) + st.pending.Keys, Span(1, st.nextId - 1));
  }

  /**
   * In every reachable state the pending and the completed ids are disjoint and together exactly the ids handed
   * out, no request completes twice, and the number pending never exceeds the limit.
   */
  lemma {:induction false} IdsPartitioned(maxPending: nat, calls: seq<Call>)
    requires Runs(Start(maxPending), calls)
    ensures var st := After(Start(maxPending), calls);
      && CompletedIds(st) !! st.pending.Keys
      && (forall id: nat :: id in CompletedIds(st) + st.pending.Keys <==> 1 <= id < st.nextId)
      && |CompletedIds(st)| == |st.completed|
      && |st.pending| <= maxPending
  {
    RunKeepsPartition(Start(maxPending), calls);
    KeepsLimit(Start(maxPending), calls);
    PartitionExact(After(Start(maxPending), calls));
  }

  lemma {:induction false} KeepsLimit(st: State, calls: seq<Call>)
    requires Runs(st, calls)
    ensures After(st, calls).maxPending == st.maxPending
    decreases |calls|
  {
    if calls != [] {
      KeepsLimit(Next(st, calls[0]), calls[1..]);
    }
  }

  // ---- the event log tells the whole story ----

  function IssuedEvents(events: seq<Event>): seq<Event> {
    if events == [] then []
    else IssuedEvents(events[..|events| - 1]) + (if events[|events| - 1].Issued? then [events[|events| - 1]] else [])
  }

  /** Issued minus completed minus failed. */
  function InFlight(events: seq<Event>): int {
    if events == [] then 0
    else
      var last := events[|events| - 1];
      InFlight(events[..|events| - 1])
      + (if last.Issued? then 1 else if last.RequestCompleted? || last.RequestFailed? then -1 else 0)
  }

  predicate Announced(r: Request, issued: seq<Event>) {
    1 <= r.id <= |issued| && issued[r.id - 1] == Issued(r.operation, r.chunk, r.tier)
  }

  ghost predicate AllAnnounced(rs: seq<Request>, issued: seq<Event>) {
    forall i :: 0 <= i < |rs| ==> Announced(rs[i], issued)
  }

  /** Every request, pending or completed, was announced as it is. */
  ghost predicate Told(pending: map<nat, Request>, completed: seq<Request>, issued: seq<Event>) {
    (forall id :: id in pending ==> Announced(pending[id], issued)) && AllAnnounced(completed, issued)
  }

  ghost predicate Truthful(st: State) {
    && InFlight(st.events) == |st.pending|
    && |IssuedEvents(st.events)| == st.nextId - 1
    && Told(st.pending, st.completed, IssuedEvents(st.events))
  }

  lemma {:induction false} LogResolved(events: seq<Event>, more: seq<Event>)
    requires forall i :: 0 <= i < |more| ==> more[i].RequestCompleted?
    ensures IssuedEvents(events + more) == IssuedEvents(events)
    ensures InFlight(events + more) == InFlight(events) - |more|
  {
    if more != [] {
      var front := more[..|more| - 1];
      LogResolved(events, front);
      assert events + more == (events + front) + [more[|more| - 1]];
    } else {
      assert events + more == events;
    }
  }

  lemma IssueTold(pending: map<nat, Request>, completed: seq<Request>, issued: seq<Event>, r: Request)
    requires Told(pending, completed, issued) && r.id == |issued| + 1
    ensures Told(pending[r.id := r], completed, issued + [Issued(r.operation, r.chunk, r.tier)])
  {
    var longer := issued + [Issued(r.operation, r.chunk, r.tier)];
    forall i | 0 <= i < |completed| ensures Announced(completed[i], longer) {
      assert Announced(completed[i], issued);
    }
  }

  lemma {:induction false} IssueTruthful(st: State, c: Call)
    requires Partitioned(st) && Truthful(st) && c.DoIssue?
    ensures Truthful(Next(st, c))
  {
    if |st.pending| < st.maxPending {
      var r := Request(st.nextId, c.operation, c.chunk, c.tier, c.now, Pending);
      IssueTold(st.pending, st.completed, IssuedEvents(st.events), r);
      OneMorePending(st.pending, r);
      assert Next(st, c).pending == st.pending[r.id := r];
    }
  }

  lemma OneMorePending(pending: map<nat, Request>, r: Request)
    requires r.id !in pending
    ensures |pending[r.id := r]| == |pending| + 1
  {
    assert pending[r.id := r].Keys == pending.Keys + {r.id};
  }

  lemma CompleteTold(pending: map<nat, Request>, completed: seq<Request>, issued: seq<Event>, id: nat, r: Request)
    requires Told(pending, completed, issued) && id in pending && Announced(r, issued)
    ensures Told(pending - {id}, completed + [r], issued)
  {
  }

  lemma {:induction false} CompleteTruthful(st: State, c: Call)
    requires Truthful(st) && c.DoComplete? && Enabled(st, c)
    ensures Truthful(Next(st, c))
  {
    var r := st.pending[c.id];
    assert Announced(r, IssuedEvents(st.events));
    CompleteTold(st.pending, st.completed, IssuedEvents(st.events), c.id, Resolve(r, c.outcome, c.now));
    assert st.pending.Keys == Next(st, c).pending.Keys + {c.id};
  }

  lemma {:induction false} FlushLog(st: State, now: nat, elapsed: nat)
    requires WellKeyed(st)
    ensures var events := FlushAll(st, now, elapsed).events;
      IssuedEvents(events) == IssuedEvents(st.events) && InFlight(events) == InFlight(st.events) - |st.pending|
  {
    var more := DrainEvents(st.pending, PendingIds(st), now);
    LogResolved(st.events + [FlushIssued], more);
  }

  lemma {:induction false} DrainedAnnounced(pending: map<nat, Request>, ids: seq<nat>, now: nat, issued: seq<Event>)
    requires Elements(ids) <= pending.Keys
    requires forall id :: id in pending ==> Announced(pending[id], issued)
    ensures AllAnnounced(Drained(pending, ids, now), issued)
  {
    var drained := Drained(pending, ids, now);
    forall i | 0 <= i < |ids| ensures Announced(drained[i], issued) {
      assert ids[i] in pending;
    }
  }

  lemma {:induction false} FlushTruthful(st: State, c: Call)
    requires Truthful(st) && c.DoFlush? && Enabled(st, c)
    ensures Truthful(Next(st, c))
  {
    var issued, drained := IssuedEvents(st.events), Drained(st.pending, PendingIds(st), c.now);
    FlushLog(st, c.now, c.elapsed);
    DrainedAnnounced(st.pending, PendingIds(st), c.now, issued);
    assert AllAnnounced(st.completed + drained, issued);
  }

  lemma {:induction false} RunTruthful(st: State, calls: seq<Call>)
    requires Partitioned(st) && Truthful(st) && Runs(st, calls)
    ensures Truthful(After(st, calls))
    decreases |calls|
  {
    if calls != [] {
      var next := Next(st, calls[0]);
      match calls[0] {
        case DoIssue(_, _, _, _) =>
          IssueKeepsPartition(st, calls[0]);
          IssueTruthful(st, calls[0]);
        case DoComplete(_, _, _) =>
          CompleteKeepsPartition(st, calls[0]);
          CompleteTruthful(st, calls[0]);
        case DoFlush(_, _) =>
          FlushKeepsPartition(st, calls[0]);
          FlushTruthful(st, calls[0]);
      }
      RunTruthful(next, calls[1..]);
    }
  }

  /**
   * In every reachable state issued minus completed minus failed events is the number pending, and the `n`-th
   * issue event describes request `n` wherever that request is now.
   */
  lemma {:induction false} EventsMatchState(maxPending: nat, calls: seq<Call>)
    requires Runs(Start(maxPending), calls)
    ensures var st := After(Start(maxPending), calls);
      && InFlight(st.events) == |st.pending|
      && |IssuedEvents(st.events)| == st.nextId - 1
      && (forall id :: id in st.pending ==> Announced(st.pending[id], IssuedEvents(st.events)))
      && AllAnnounced(st.completed, IssuedEvents(st.events))
  {
    RunTruthful(Start(maxPending), calls);
  }

  // ---- a flush is a series of completions ----

  function CompleteEach(st: State, ids: seq<nat>, now: nat): (r: State)
    requires Ascending(ids) && Elements(ids) <= st.pending.Keys
    ensures r.pending == st.pending - Elements(ids)
  {
    if ids == [] then st
    else
      var n := |ids| - 1;
      NextInOrder(ids, n);
      assert ids[..n + 1] == ids;
      Complete(CompleteEach(st, ids[..n], now), ids[n], Success, now)
  }

  lemma {:induction false} EachNext(st: State, ids: seq<nat>, k: nat, now: nat)
    requires k < |ids| && Ascending(ids) && Elements(ids) <= st.pending.Keys
    ensures Elements(ids[..k]) <= st.pending.Keys && Elements(ids[..k + 1]) <= st.pending.Keys
    ensures ids[k] in CompleteEach(st, ids[..k], now).pending
    ensures CompleteEach(st, ids[..k + 1], now) == Complete(CompleteEach(st, ids[..k], now), ids[k], Success, now)
  {
    DrainNext(st.pending, ids, k, now);
    var upto := ids[..k + 1];
    assert upto != [] && upto[..|upto| - 1] == ids[..k] && upto[|upto| - 1] == ids[k];
  }

  /** A flush announces itself, completes each pending id in order, and announces its end. */
  lemma {:induction false} FlushSteps(st: State, now: nat, elapsed: nat)
    requires WellKeyed(st)
    ensures var before := st.(events := st.events + [FlushIssued]);
      var each := CompleteEach(before, PendingIds(st), now);
      FlushAll(st, now, elapsed) == each.(events := each.events + [FlushCompleted(elapsed)])
  {
    var before := st.(events := st.events + [FlushIssued]);
    CompleteEachDrains(before, PendingIds(st), now);
  }

  lemma {:induction false} CompleteEachDrains(st: State, ids: seq<nat>, now: nat)
    requires Ascending(ids) && Elements(ids) <= st.pending.Keys
    ensures var each := CompleteEach(st, ids, now);
      && each.completed == st.completed + Drained(st.pending, ids, now)
      && each.events == st.events + DrainEvents(st.pending, ids, now)
      && each.nextId == st.nextId && each.maxPending == st.maxPending
  {
    if ids != [] {
      var n := |ids| - 1;
      DrainNext(st.pending, ids, n, now);
      assert ids[..n + 1] == ids;
      CompleteEachDrains(st, ids[..n], now);
    }
  }

  /** With the clock standing still, flushing leaves what completing the pending ids in ascending order leaves. */
  lemma {:induction false} FlushIsCompleteInOrder(st: State, now: nat, elapsed: nat)
    requires WellKeyed(st)
    ensures var each := CompleteEach(st, PendingIds(st), now);
      var flushed := FlushAll(st, now, elapsed);
      && flushed.pending == each.pending == map[]
      && flushed.completed == each.completed
      && flushed.nextId == each.nextId
      && |each.events| >= |st.events|
      && flushed.events == st.events + [FlushIssued] + each.events[|st.events|..] + [FlushCompleted(elapsed)]
  {
    CompleteEachDrains(st, PendingIds(st), now);
  }

  // ---- the life of one request ----

  /** A request that is pending before and after a run has not changed. */
  lemma {:induction false} PendingUnchanged(st: State, calls: seq<Call>, id: nat)
    requires Partitioned(st) && Runs(st, calls) && id < st.nextId && id in After(st, calls).pending
    ensures id in st.pending && After(st, calls).pending[id] == st.pending[id]
    decreases |calls|
  {
    if calls != [] {
      var next := Next(st, calls[0]);
      RunKeepsPartition(st, [calls[0]]);
      assert [calls[0]][1..] == [] && After(st, [calls[0]]) == next;
      PendingUnchanged(next, calls[1..], id);
    }
  }

  /**
   * A request issued at `t0` and completed at `t1` after any calls in between ends up in the completed list as it was
   * issued, with the time it took or its error, and the event says the same.
   */
  lemma {:induction false} RequestRoundTrip(
      st: State, c: Call, calls: seq<Call>, outcome: Outcome, t1: nat)
    requires Partitioned(st) && c.DoIssue? && |st.pending| < st.maxPending
    requires Runs(Next(st, c), calls) && st.nextId in After(Next(st, c), calls).pending
    ensures var end := Complete(After(Next(st, c), calls), st.nextId, outcome, t1);
      && |end.completed| > 0 && |end.events| > 0 && st.nextId !in end.pending
      && end.completed[|end.completed| - 1] == Request(st.nextId, c.operation, c.chunk, c.tier, c.now,
           if outcome.Success? then Completed(if t1 < c.now then 0 else t1 - c.now) else Failed(outcome.error))
      && end.events[|end.events| - 1] == (
           if outcome.Success? then RequestCompleted(c.operation, c.chunk, c.tier, if t1 < c.now then 0 else t1 - c.now)
           else RequestFailed(c.operation, c.chunk, c.tier, outcome.error))
  {
    IssueKeepsPartition(st, c);
    PendingUnchanged(Next(st, c), calls, st.nextId);
  }
}

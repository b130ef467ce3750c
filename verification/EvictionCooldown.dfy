/** The eviction cooldown: no chunk is evicted again, or soon after a promotion, before the cooldown has passed. */
module EvictionCooldown {
  import opened Types
  import opened Spacing

  datatype Cooldown = Cooldown(lastEviction: map<ChunkId, nat>, lastPromotion: map<ChunkId, nat>, period: nat)

  predicate CanEvict(c: Cooldown, chunk: ChunkId, now: nat) {
    && !(chunk in c.lastEviction && SaturatingSub(now, c.lastEviction[chunk]) < c.period)
    && !(chunk in c.lastPromotion && SaturatingSub(now, c.lastPromotion[chunk]) < c.period)
  }

  /** The period a migration engine uses: at least five seconds, in microsecond ticks. */
  function EnginePeriod(minIntervalSecs: nat): (p: nat)
    ensures p >= 5_000_000 && (minIntervalSecs >= 5 ==> p == minIntervalSecs * 1_000_000)
  {
    (if minIntervalSecs < 5 then 5 else minIntervalSecs) * 1_000_000
  }

  class EvictionCooldown {
    var lastEviction: map<ChunkId, nat>
    var lastPromotion: map<ChunkId, nat>
    const periodUs: nat

    function Value(): Cooldown
      reads this
    {
      Cooldown(lastEviction, lastPromotion, periodUs)
    }

    constructor (cooldownSecs: nat)
      ensures Value() == Cooldown(map[], map[], cooldownSecs * 1_000_000)
    {
      lastEviction, lastPromotion, periodUs := map[], map[], cooldownSecs * 1_000_000;
    }

    method MayEvict(chunk: ChunkId, now: nat) returns (ok: bool)
      ensures ok <==> CanEvict(Value(), chunk, now)
    {
      if chunk in lastEviction {
        if SaturatingSub(now, lastEviction[chunk]) < periodUs {
          return false;
        }
      }
      if chunk in lastPromotion {
        if SaturatingSub(now, lastPromotion[chunk]) < periodUs {
          return false;
        }
      }
      return true;
    }

    method RecordEviction(chunk: ChunkId, now: nat)
      modifies this`lastEviction
      ensures lastEviction == old(lastEviction)[chunk := now]
    {
      lastEviction := lastEviction[chunk := now];
    }

    method RecordPromotion(chunk: ChunkId, now: nat)
      modifies this`lastPromotion
      ensures lastPromotion == old(lastPromotion)[chunk := now]
    {
      lastPromotion := lastPromotion[chunk := now];
    }
  }

  // ---- runs ----

  /**
   * `Consider` is one turn of the eviction loop; `wanted` says that the chunk is stored, and that the policy
   * picks it and sends it to another tier. Clock readings are arbitrary: they may repeat or go backwards.
   */
  datatype Op = Consider(chunk: ChunkId, now: nat, wanted: bool) | Promote(chunk: ChunkId, now: nat)

  datatype Entry = Evicted(chunk: ChunkId, at: nat) | Promoted(chunk: ChunkId, at: nat)

  function Next(c: Cooldown, op: Op): Cooldown {
    match op
    case Consider(chunk, now, wanted) =>
      if wanted && CanEvict(c, chunk, now) then c.(lastEviction := c.lastEviction[chunk := now]) else c
    case Promote(chunk, now) => c.(lastPromotion := c.lastPromotion[chunk := now])
  }

  function Logged(c: Cooldown, op: Op): seq<Entry> {
    match op
    case Consider(chunk, now, wanted) => if wanted && CanEvict(c, chunk, now) then [Evicted(chunk, now)] else []
    case Promote(chunk, now) => [Promoted(chunk, now)]
  }

  function After(c: Cooldown, ops: seq<Op>): Cooldown {
    if ops == [] then c else Next(After(c, ops[..|ops| - 1]), ops[|ops| - 1])
  }

  function Log(c: Cooldown, ops: seq<Op>): seq<Entry> {
    if ops == [] then []
    else Log(c, ops[..|ops| - 1]) + Logged(After(c, ops[..|ops| - 1]), ops[|ops| - 1])
  }

  /** When `chunk` was evicted, in the order in which it happened. */
  function EvictionTimes(log: seq<Entry>, chunk: ChunkId): seq<int> {
    if log == [] then []
    else
      var last := log[|log| - 1];
      EvictionTimes(log[..|log| - 1], chunk) + (if last.Evicted? && last.chunk == chunk then [last.at] else [])
  }

  function LatestPromotion(log: seq<Entry>, chunk: ChunkId): Option<nat> {
    if log == [] then None
    else
      var last := log[|log| - 1];
      if last.Promoted? && last.chunk == chunk then Some(last.at) else LatestPromotion(log[..|log| - 1], chunk)
  }

  /** The tracker remembers, for every chunk, the end of its history. */
  ghost predicate Remembers(c: Cooldown, log: seq<Entry>, chunk: ChunkId) {
    var times := EvictionTimes(log, chunk);
    && (if times == [] then chunk !in c.lastEviction
        else chunk in c.lastEviction && c.lastEviction[chunk] == times[|times| - 1])
    && LatestPromotion(log, chunk) == (if chunk in c.lastPromotion then Some(c.lastPromotion[chunk]) else None)
  }

  /** Every eviction of `chunk` in the log comes at least a period after the promotion recorded last before it. */
  ghost predicate AfterPromotions(log: seq<Entry>, chunk: ChunkId, period: nat) {
    forall i :: 0 <= i < |log| && log[i].Evicted? && log[i].chunk == chunk ==>
      var p := LatestPromotion(log[..i], chunk); p.Some? ==> p.value + period <= log[i].at
  }

  lemma {:induction false} KeepsAfterPromotions(log: seq<Entry>, e: Entry, chunk: ChunkId, period: nat)
    requires AfterPromotions(log, chunk, period)
    requires e.Evicted? && e.chunk == chunk ==>
      var p := LatestPromotion(log, chunk); p.Some? ==> p.value + period <= e.at
    ensures AfterPromotions(log + [e], chunk, period)
  {
    var longer := log + [e];
    forall i | 0 <= i < |longer| && longer[i].Evicted? && longer[i].chunk == chunk
      ensures var p := LatestPromotion(longer[..i], chunk); p.Some? ==> p.value + period <= longer[i].at
    {
      assert longer[..i] == if i < |log| then log[..i] else log;
    }
  }

  lemma {:induction false} RunInvariant(ops: seq<Op>, period: nat, chunk: ChunkId)
    requires 0 < period
    ensures var c0 := Cooldown(map[], map[], period);
      && After(c0, ops).period == period
      && Remembers(After(c0, ops), Log(c0, ops), chunk)
      && SpacedBy(EvictionTimes(Log(c0, ops), chunk), period)
      && AfterPromotions(Log(c0, ops), chunk, period)
  {
    if ops != [] {
      var c0 := Cooldown(map[], map[], period);
      var front, op := ops[..|ops| - 1], ops[|ops| - 1];
      RunInvariant(front, period, chunk);
      StepInvariant(After(c0, front), Log(c0, front), op, chunk);
    }
  }

  lemma {:induction false} StepInvariant(c: Cooldown, log: seq<Entry>, op: Op, chunk: ChunkId)
    requires 0 < c.period && Remembers(c, log, chunk)
    requires SpacedBy(EvictionTimes(log, chunk), c.period) && AfterPromotions(log, chunk, c.period)
    ensures var log' := log + Logged(c, op);
      && Remembers(Next(c, op), log', chunk)
      && SpacedBy(EvictionTimes(log', chunk), c.period)
      && AfterPromotions(log', chunk, c.period)
  {
    if Logged(c, op) == [] {
      assert log + Logged(c, op) == log;
    } else {
      var e := Logged(c, op)[0];
      assert Logged(c, op) == [e];
      if e.Evicted? && e.chunk == chunk {
        SpacingGrows(EvictionTimes(log, chunk), e.at, c.period);
      }
      KeepsAfterPromotions(log, e, chunk, c.period);
    }
  }

  /**
   * Whatever the clock does, two evictions of one chunk lie at least the period apart, each lies at least the
   * period after the promotion recorded last before it, and so a window of length `width` holds at most
   * `width / period + 1` evictions of that chunk.
   */
  lemma NoEvictionStorm(ops: seq<Op>, period: nat, chunk: ChunkId, lo: int, width: nat)
    requires 0 < period
    ensures var log := Log(Cooldown(map[], map[], period), ops);
      && SpacedBy(EvictionTimes(log, chunk), period)
      && AfterPromotions(log, chunk, period)
      && CountIn(EvictionTimes(log, chunk), lo, lo + width) <= width / period + 1
  {
    RunInvariant(ops, period, chunk);
    WindowBound(EvictionTimes(Log(Cooldown(map[], map[], period), ops), chunk), period, lo, width);
  }

  /** A chunk may be evicted exactly if its last eviction and its last promotion, where there are any, lie a period back. */
  lemma {:induction false} EvictableIff(ops: seq<Op>, period: nat, chunk: ChunkId, now: nat)
    requires 0 < period
    ensures var c0 := Cooldown(map[], map[], period);
      var times, promoted := EvictionTimes(Log(c0, ops), chunk), LatestPromotion(Log(c0, ops), chunk);
      CanEvict(After(c0, ops), chunk, now) <==>
        && (times != [] ==> times[|times| - 1] + period <= now)
        && (promoted.Some? ==> promoted.value + period <= now)
  {
    RunInvariant(ops, period, chunk);
  }

  lemma {:induction false} AppendOp(c: Cooldown, ops: seq<Op>, op: Op)
    ensures After(c, ops + [op]) == Next(After(c, ops), op)
    ensures Log(c, ops + [op]) == Log(c, ops) + Logged(After(c, ops), op)
  {
  }

  lemma {:induction false} ContinueOne(c: Cooldown, a: seq<Op>, b: seq<Op>, op: Op)
    requires After(c, a + b) == After(After(c, a), b) && Log(c, a + b) == Log(c, a) + Log(After(c, a), b)
    ensures After(c, (a + b) + [op]) == After(After(c, a), b + [op])
    ensures Log(c, (a + b) + [op]) == Log(c, a) + Log(After(c, a), b + [op])
  {
    AppendOp(c, a + b, op);
    AppendOp(After(c, a), b, op);
    Regroup(Log(c, a), Log(After(c, a), b), Logged(After(c, a + b), op));
  }

  lemma Regroup(a: seq<Entry>, b: seq<Entry>, e: seq<Entry>)
    ensures (a + b) + e == a + (b + e)
  {
  }

  /** Running on from where an earlier run stopped. */
  lemma {:induction false} Continue(c: Cooldown, a: seq<Op>, b: seq<Op>)
    ensures After(c, a + b) == After(After(c, a), b)
    ensures Log(c, a + b) == Log(c, a) + Log(After(c, a), b)
  {
    if b == [] {
      assert a + b == a;
    } else {
      var front, op := b[..|b| - 1], b[|b| - 1];
      Continue(c, a, front);
      assert b == front + [op] && a + b == (a + front) + [op];
      ContinueOne(c, a, front, op);
    }
  }

  function Periodic(n: nat, period: nat, chunk: ChunkId): seq<Op> {
    if n == 0 then [] else Periodic(n - 1, period, chunk) + [Consider(chunk, Ticks(n - 1, period), true)]
  }

  lemma {:induction false} OneMoreEviction(c0: Cooldown, front: seq<Op>, chunk: ChunkId, now: nat, hi: int)
    requires 0 <= now <= hi
    requires var log := Log(c0, front); var times := EvictionTimes(log, chunk);
      && Remembers(After(c0, front), log, chunk) && LatestPromotion(log, chunk) == None
      && (times != [] ==> times[|times| - 1] + After(c0, front).period <= now)
    ensures var log, log' := Log(c0, front), Log(c0, front + [Consider(chunk, now, true)]);
      && EvictionTimes(log', chunk) == EvictionTimes(log, chunk) + [now]
      && CountIn(EvictionTimes(log', chunk), 0, hi) == CountIn(EvictionTimes(log, chunk), 0, hi) + 1
      && LatestPromotion(log', chunk) == None
  {
    AppendOp(c0, front, Consider(chunk, now, true));
    CountAppend(EvictionTimes(Log(c0, front), chunk), now, 0, hi);
  }

  lemma {:induction false} PeriodicEvicts(n: nat, period: nat, chunk: ChunkId, hi: int)
    requires 0 < period && (n > 0 ==> Ticks(n - 1, period) <= hi)
    ensures var log := Log(Cooldown(map[], map[], period), Periodic(n, period, chunk));
      var times := EvictionTimes(log, chunk);
      && CountIn(times, 0, hi) == |times| == n
      && (n > 0 ==> times[n - 1] == Ticks(n - 1, period))
      && LatestPromotion(log, chunk) == None
  {
    if n > 0 {
      var c0, now := Cooldown(map[], map[], period), Ticks(n - 1, period);
      var front := Periodic(n - 1, period, chunk);
      PeriodicEvicts(n - 1, period, chunk, hi);
      RunInvariant(front, period, chunk);
      OneMoreEviction(c0, front, chunk, now, hi);
    }
  }

  /** The bound is attained: considered once every period, a chunk is evicted `k + 1` times within `k` periods. */
  lemma {:induction false} StormBoundIsTight(k: nat, period: nat, chunk: ChunkId)
    requires 0 < period
    ensures var log := Log(Cooldown(map[], map[], period), Periodic(k + 1, period, chunk));
      CountIn(EvictionTimes(log, chunk), 0, k * period) == k + 1
  {
    TicksMultiply(k, period);
    PeriodicEvicts(k + 1, period, chunk, k * period);
  }
}

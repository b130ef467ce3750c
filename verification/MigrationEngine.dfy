/**
 * The migration engine as one thread runs it: choosing migrations, choosing evictions under the cooldown, and
 * the bookkeeping of what is being migrated. The placement policy is a parameter; only its answers matter.
 */
module MigrationEngine {
  import opened Types
  import opened Sequences
  import opened MigrationSelection
  import opened Spacing
  import BP = Backpressure
  import EC = EvictionCooldown

  datatype Config = Config(
    maxConcurrentMigrations: nat,
    minMigrationInterval: nat,
    maxMigrationsPerCycle: nat,
    maxChunkSize: nat,
    enableEviction: bool,
    evictionPressureThreshold: real,
    ioCostThreshold: real,
    metaSize: nat)   // the size put into every chunk description; the code always puts 0

  datatype Stats = Stats(
    evaluationCycles: nat,
    promotions: nat,
    skipped: nat,
    failures: nat,
    bytesMigrated: nat,
    lastEvaluation: nat,
    activeMigrations: nat,
    cooldownBlocks: nat)

  /** The answers of the placement policy under the current pressure. */
  datatype Policy = Policy(
    shouldMigrate: ChunkId -> Option<TierId>,
    priority: ChunkId -> TransferPriority,
    target: ChunkId -> TierId,
    picksVictim: ChunkId -> bool)

  /** The part of a physical cost that decisions look at. */
  datatype IoCost = IoCost(score: real, ioPressure: real, queueDepth: nat) {
    predicate IsTooPressured() {
      ioPressure > 0.85 || queueDepth > 64
    }
  }

  datatype Reason =
    | PressureTooHigh(ioPressure: real, queueDepth: nat)
    | CostTooHigh(cost: real, threshold: real)
    | AtCapacity

  /**
   * What is handed to the event emitter, if one is attached. A decision names the pressure it was taken under; a
   * completion does not say between which tiers.
   */
  datatype Event =
    | Decision(chunk: ChunkId, source: TierId, target: TierId, eviction: bool, pressure: real)
    | Completed(chunk: ChunkId)
    | Rejected(at: nat, chunk: ChunkId, source: TierId, target: TierId, cost: real, threshold: real)
    | Deferred(at: nat, chunk: ChunkId, source: TierId, target: TierId, reason: Reason)
    | Decided(at: nat, chunk: ChunkId, source: TierId, target: TierId, cost: real)

  datatype TraceRecord =
    | PolicyRecord(chunk: ChunkId, source: TierId, target: TierId, pressure: real, at: nat)
    | EvictionRecord(chunk: ChunkId, tier: TierId, at: nat)

  /** One event for each migration. */
  function Decisions(ms: seq<PendingMigration>, eviction: bool, pressure: real): seq<Event> {
    if ms == [] then []
    else
      var m := ms[|ms| - 1];
      Decisions(ms[..|ms| - 1], eviction, pressure) + [Decision(m.chunk, m.fromTier, m.toTier, eviction, pressure)]
  }

  /** One trace record for each migration. */
  function Records(ms: seq<PendingMigration>, eviction: bool, pressure: real): seq<TraceRecord> {
    if ms == [] then []
    else
      var m := ms[|ms| - 1];
      Records(ms[..|ms| - 1], eviction, pressure) +
      [if eviction then EvictionRecord(m.chunk, m.fromTier, m.identifiedAt)
       else PolicyRecord(m.chunk, m.fromTier, m.toTier, pressure, m.identifiedAt)]
  }

  /** Each migration is announced and traced once, in order, under its own chunk and tiers. */
  lemma {:induction false} AnnouncedInOrder(ms: seq<PendingMigration>, eviction: bool, pressure: real)
    ensures |Decisions(ms, eviction, pressure)| == |Records(ms, eviction, pressure)| == |ms|
    ensures forall i :: 0 <= i < |ms| ==>
      && Decisions(ms, eviction, pressure)[i] == Decision(ms[i].chunk, ms[i].fromTier, ms[i].toTier, eviction, pressure)
      && Records(ms, eviction, pressure)[i].chunk == ms[i].chunk && Records(ms, eviction, pressure)[i].at == ms[i].identifiedAt
      && Records(ms, eviction, pressure)[i].EvictionRecord? == eviction
  {
    if ms != [] {
      AnnouncedInOrder(ms[..|ms| - 1], eviction, pressure);
    }
  }

  lemma OneMore(ms: seq<PendingMigration>, m: PendingMigration, eviction: bool, pressure: real)
    ensures Decisions(ms + [m], eviction, pressure) == Decisions(ms, eviction, pressure) + [Decision(m.chunk, m.fromTier, m.toTier, eviction, pressure)]
    ensures Records(ms + [m], eviction, pressure) == Records(ms, eviction, pressure) +
      [if eviction then EvictionRecord(m.chunk, m.fromTier, m.identifiedAt)
       else PolicyRecord(m.chunk, m.fromTier, m.toTier, pressure, m.identifiedAt)]
  {
    assert (ms + [m])[..|ms|] == ms;
  }

  // ---- choosing migrations ----

  /** What the engine consults besides the policy. Every chunk is taken to be in RAM. */
  datatype View = View(
    config: Config, policy: Policy, active: set<ChunkId>, lastMigration: map<ChunkId, nat>,
    hotness: map<ChunkId, real>, now: nat)

  datatype Verdict = Active | RateLimited | Skipped | Admitted(migration: PendingMigration)

  function Score(hotness: map<ChunkId, real>, chunk: ChunkId): real {
    if chunk in hotness then hotness[chunk] else 0.0
  }

  predicate Limited(v: View, chunk: ChunkId) {
    chunk in v.lastMigration && SaturatingSub(v.now, v.lastMigration[chunk]) < v.config.minMigrationInterval
  }

  function Judge(v: View, chunk: ChunkId): Verdict {
    if chunk in v.active then Active
    else if Limited(v, chunk) then RateLimited
    else match v.policy.shouldMigrate(chunk)
      case None => Skipped
      case Some(tier) =>
        if tier == Ram || v.config.metaSize > v.config.maxChunkSize then Skipped
        else Admitted(PendingMigration(
            chunk, Ram, tier, v.policy.priority(chunk), v.config.metaSize, Score(v.hotness, chunk), v.now))
  }

  function Admissions(v: View, stored: seq<ChunkId>): seq<PendingMigration> {
    if stored == [] then []
    else
      var verdict := Judge(v, stored[|stored| - 1]);
      Admissions(v, stored[..|stored| - 1]) + (if verdict.Admitted? then [verdict.migration] else [])
  }

  function Count(v: View, stored: seq<ChunkId>, which: Verdict -> bool): nat {
    if stored == [] then 0
    else Count(v, stored[..|stored| - 1], which) + (if which(Judge(v, stored[|stored| - 1])) then 1 else 0)
  }

  // ---- choosing evictions ----

  datatype ColdChunk = ColdChunk(chunk: ChunkId, stored: bool, hotness: real)

  datatype Pass = Pass(cooldown: EC.Cooldown, evictions: seq<PendingMigration>, blocks: nat)

  function Eviction(policy: Policy, size: nat, cold: ColdChunk, now: nat): PendingMigration {
    PendingMigration(cold.chunk, Ram, policy.target(cold.chunk), policy.priority(cold.chunk), size, cold.hotness, now)
  }

  predicate Wanted(policy: Policy, cold: ColdChunk) {
    cold.stored && policy.picksVictim(cold.chunk) && policy.target(cold.chunk) != Ram
  }

  /** One turn of the eviction loop. */
  function Turn(p: Pass, policy: Policy, size: nat, cold: ColdChunk, now: nat): Pass {
    if !cold.stored then p
    else if !EC.CanEvict(p.cooldown, cold.chunk, now) then p.(blocks := p.blocks + 1)
    else if !Wanted(policy, cold) then p
    else Pass(
        p.cooldown.(lastEviction := p.cooldown.lastEviction[cold.chunk := now]),
        p.evictions + [Eviction(policy, size, cold, now)],
        p.blocks)
  }

  function Turns(c: EC.Cooldown, policy: Policy, size: nat, cold: seq<ColdChunk>, now: nat): Pass {
    if cold == [] then Pass(c, [], 0)
    else Turn(Turns(c, policy, size, cold[..|cold| - 1], now), policy, size, cold[|cold| - 1], now)
  }

  // ---- the engine ----

  class MigrationEngine {
    const config: Config
    const policy: Policy
    var stats: Stats
    var active: set<ChunkId>
    var lastMigration: map<ChunkId, nat>
    const cooldown: EC.EvictionCooldown
    var events: seq<Event>
    var trace: seq<TraceRecord>

    ghost predicate Valid()
      reads this
    {
      stats.activeMigrations == |active|
    }

    function Seen(hotness: map<ChunkId, real>, now: nat): View
      reads this
    {
      View(config, policy, active, lastMigration, hotness, now)
    }

    constructor (config: Config, policy: Policy)
      ensures Valid() && fresh(cooldown)
      ensures this.config == config && this.policy == policy
      ensures active == {} && lastMigration == map[] && events == [] && trace == []
      ensures stats == Stats(0, 0, 0, 0, 0, 0, 0, 0)
      ensures cooldown.Value() == EC.Cooldown(map[], map[], EC.EnginePeriod(config.minMigrationInterval))
    {
      this.config, this.policy := config, policy;
      stats := Stats(0, 0, 0, 0, 0, 0, 0, 0);
      active, lastMigration, events, trace := {}, map[], [], [];
      var secs := if config.minMigrationInterval < 5 then 5 else config.minMigrationInterval;
      cooldown := new EC.EvictionCooldown(secs);
    }

    /** Trace and emit one decision; `ms` are the ones announced since the logs were `events0` and `trace0`. */
    method Announce(
        m: PendingMigration, eviction: bool, pressure: real,
        ghost events0: seq<Event>, ghost trace0: seq<TraceRecord>, ghost ms: seq<PendingMigration>)
      requires events == events0 + Decisions(ms, eviction, pressure) && trace == trace0 + Records(ms, eviction, pressure)
      modifies this`events, this`trace
      ensures events == events0 + Decisions(ms + [m], eviction, pressure) && trace == trace0 + Records(ms + [m], eviction, pressure)
    {
      OneMore(ms, m, eviction, pressure);
      if eviction {
        trace := trace + [EvictionRecord(m.chunk, m.fromTier, m.identifiedAt)];
      } else {
        trace := trace + [PolicyRecord(m.chunk, m.fromTier, m.toTier, pressure, m.identifiedAt)];
      }
      events := events + [Decision(m.chunk, m.fromTier, m.toTier, eviction, pressure)];
    }

    /** One turn of the loop in `Evaluate`: the candidate if it is admitted, and the count of those skipped. */
    method Consider(chunk: ChunkId, hotness: map<ChunkId, real>, now: nat) returns (found: Option<PendingMigration>)
      modifies this`stats
      ensures var verdict := Judge(Seen(hotness, now), chunk);
        && found == (if verdict.Admitted? then Some(verdict.migration) else None)
        && stats == old(stats).(skipped := old(stats).skipped + if verdict.Skipped? then 1 else 0)
    {
      if chunk in active {
        return None;
      }
      if chunk in lastMigration {
        if SaturatingSub(now, lastMigration[chunk]) < config.minMigrationInterval {
          return None;
        }
      }
      var answer := policy.shouldMigrate(chunk);
      if answer == None || answer.value == Ram || config.metaSize > config.maxChunkSize {
        stats := stats.(skipped := stats.skipped + 1);
        return None;
      }
      var score := if chunk in hotness then hotness[chunk] else 0.0;
      return Some(PendingMigration(chunk, Ram, answer.value, policy.priority(chunk), config.metaSize, score, now));
    }

    /**
     * The best few of the admitted candidates; whatever was neither active, limited nor admitted is counted as
     * skipped. All admitted candidates are announced and traced, whether they are returned or not.
     */
    method Evaluate(stored: seq<ChunkId>, hotness: map<ChunkId, real>, maxPressure: real, now: nat)
      returns (migrations: seq<PendingMigration>)
      requires Valid()
      modifies this`stats, this`events, this`trace
      ensures Valid()
      ensures events == old(events) + Decisions(Admissions(Seen(hotness, now), stored), false, maxPressure)
      ensures trace == old(trace) + Records(Admissions(Seen(hotness, now), stored), false, maxPressure)
      ensures migrations == Best(Admissions(Seen(hotness, now), stored), config.maxMigrationsPerCycle)
      ensures stats == old(stats).(
          evaluationCycles := old(stats).evaluationCycles + 1,
          lastEvaluation := now,
          skipped := old(stats).skipped + Count(Seen(hotness, now), stored, (x: Verdict) => x.Skipped?))
    {
      stats := stats.(evaluationCycles := stats.evaluationCycles + 1, lastEvaluation := now);
      ghost var v := Seen(hotness, now);
      ghost var skipping := (x: Verdict) => x.Skipped?;
      migrations := [];
      var k := 0;
      while k < |stored|
        invariant k <= |stored|
        invariant migrations == Admissions(v, stored[..k])
        invariant events == old(events) + Decisions(migrations, false, maxPressure) && trace == old(trace) + Records(migrations, false, maxPressure)
        invariant stats == old(stats).(
            evaluationCycles := old(stats).evaluationCycles + 1,
            lastEvaluation := now,
            skipped := old(stats).skipped + Count(v, stored[..k], skipping))
      {
        var chunk := stored[k];
        assert stored[..k + 1][..k] == stored[..k];
        k := k + 1;
        var found := Consider(chunk, hotness, now);
        if found.Some? {
          var m := found.value;
          Announce(m, false, maxPressure, old(events), old(trace), migrations);
          migrations := migrations + [m];
        }
      }
      assert stored[..k] == stored;
      migrations := Best(migrations, config.maxMigrationsPerCycle);
    }

    /** The cooldown is consulted and updated chunk by chunk; the pass reads the clock once. */
    method EvaluateEvictions(cold: seq<ColdChunk>, maxPressure: real, now: nat) returns (evictions: seq<PendingMigration>)
      requires Valid()
      modifies this`stats, this`events, this`trace, cooldown
      ensures Valid()
      ensures events == old(events) + Decisions(evictions, true, maxPressure) && trace == old(trace) + Records(evictions, true, maxPressure)
      ensures var pass := Turns(old(cooldown.Value()), policy, config.metaSize, cold, now);
        if !config.enableEviction || maxPressure < config.evictionPressureThreshold then
          evictions == [] && cooldown.Value() == old(cooldown.Value()) && stats == old(stats)
        else
          && evictions == pass.evictions && cooldown.Value() == pass.cooldown
          && stats == old(stats).(cooldownBlocks := old(stats).cooldownBlocks + pass.blocks)
    {
      if !config.enableEviction {
        return [];
      }
      if maxPressure < config.evictionPressureThreshold {
        return [];
      }
      ghost var start := cooldown.Value();
      evictions := [];
      var k := 0;
      while k < |cold|
        invariant k <= |cold|
        invariant events == old(events) + Decisions(evictions, true, maxPressure) && trace == old(trace) + Records(evictions, true, maxPressure)
        invariant var pass := Turns(start, policy, config.metaSize, cold[..k], now);
          && evictions == pass.evictions && cooldown.Value() == pass.cooldown
          && stats == old(stats).(cooldownBlocks := old(stats).cooldownBlocks + pass.blocks)
      {
        var c := cold[k];
        assert cold[..k + 1][..k] == cold[..k];
        k := k + 1;
        if !c.stored {
          continue;
        }
        var ok := cooldown.MayEvict(c.chunk, now);
        if !ok {
          stats := stats.(cooldownBlocks := stats.cooldownBlocks + 1);
          continue;
        }
        if policy.picksVictim(c.chunk) {
          var target := policy.target(c.chunk);
          if target != Ram {
            var m := PendingMigration(c.chunk, Ram, target, policy.priority(c.chunk), config.metaSize, c.hotness, now);
            cooldown.RecordEviction(c.chunk, now);
            Announce(m, true, maxPressure, old(events), old(trace), evictions);
            evictions := evictions + [m];
          }
        }
      }
      assert cold[..k] == cold;
    }

    predicate HasCapacity()
      reads this
    {
      |active| < config.maxConcurrentMigrations
    }

    /**
     * A migration goes ahead exactly when backpressure, I/O pressure, I/O cost and capacity all permit it. The
     * event names the first of them that does not.
     */
    method DecideMigration(m: PendingMigration, cost: IoCost, action: BP.Action, now: nat)
      returns (decided: Option<PendingMigration>)
      modifies this`events
      ensures decided.Some? <==>
        && action.Allows(m.priority) && cost.ioPressure <= 0.85 && cost.queueDepth <= 64
        && cost.score <= config.ioCostThreshold && |active| < config.maxConcurrentMigrations
      ensures decided.Some? ==> decided.value == m
      ensures events == old(events) + [
        if !action.Allows(m.priority) then Rejected(now, m.chunk, m.fromTier, m.toTier, cost.score, config.ioCostThreshold)
        else if decided.Some? then Decided(now, m.chunk, m.fromTier, m.toTier, cost.score)
        else Deferred(now, m.chunk, m.fromTier, m.toTier,
          if cost.IsTooPressured() then PressureTooHigh(cost.ioPressure, cost.queueDepth)
          else if cost.score > config.ioCostThreshold then CostTooHigh(cost.score, config.ioCostThreshold)
          else AtCapacity)]
    {
      if !action.Allows(m.priority) {
        events := events + [Rejected(now, m.chunk, m.fromTier, m.toTier, cost.score, config.ioCostThreshold)];
        return None;
      }
      if cost.IsTooPressured() {
        events := events
          + [Deferred(now, m.chunk, m.fromTier, m.toTier, PressureTooHigh(cost.ioPressure, cost.queueDepth))];
        return None;
      }
      if cost.score > config.ioCostThreshold {
        events := events
          + [Deferred(now, m.chunk, m.fromTier, m.toTier, CostTooHigh(cost.score, config.ioCostThreshold))];
        return None;
      }
      if !HasCapacity() {
        events := events + [Deferred(now, m.chunk, m.fromTier, m.toTier, AtCapacity)];
        return None;
      }
      events := events + [Decided(now, m.chunk, m.fromTier, m.toTier, cost.score)];
      return Some(m);
    }

    method MarkActive(chunk: ChunkId)
      requires Valid()
      modifies this`active, this`stats
      ensures Valid() && active == old(active) + {chunk}
      ensures stats == old(stats).(activeMigrations := |active|)
    {
      active := active + {chunk};
      stats := stats.(activeMigrations := |active|);
    }

    /** A success also counts as a promotion and holds evictions of the chunk back; `now` and `later` are two clock readings. */
    method MarkComplete(chunk: ChunkId, bytes: nat, success: bool, now: nat, later: nat)
      requires Valid()
      modifies this`active, this`stats, this`lastMigration, this`events, cooldown
      ensures events == old(events) + [Completed(chunk)]
      ensures Valid() && active == old(active) - {chunk} && lastMigration == old(lastMigration)[chunk := now]
      ensures cooldown.Value() ==
        if success then EC.Next(old(cooldown.Value()), EC.Promote(chunk, later)) else old(cooldown.Value())
      ensures stats ==
        if success then
          old(stats).(activeMigrations := |active|, promotions := old(stats).promotions + 1, bytesMigrated := old(stats).bytesMigrated + bytes)
        else old(stats).(activeMigrations := |active|, failures := old(stats).failures + 1)
    {
      active := active - {chunk};
      stats := stats.(activeMigrations := |active|);
      if success {
        stats := stats.(promotions := stats.promotions + 1, bytesMigrated := stats.bytesMigrated + bytes);
      } else {
        stats := stats.(failures := stats.failures + 1);
      }
      lastMigration := lastMigration[chunk := now];
      if success {
        cooldown.RecordPromotion(chunk, later);
      }
      events := events + [Completed(chunk)];
    }
  }

  // ---- what a selection guarantees ----

  lemma {:induction false} AdmissionsFound(v: View, stored: seq<ChunkId>)
    ensures forall p :: p in Admissions(v, stored) ==>
      p.chunk in stored && Judge(v, p.chunk) == Admitted(p)
    ensures forall c :: c in stored && Judge(v, c).Admitted? ==> Judge(v, c).migration in Admissions(v, stored)
  {
    if stored != [] {
      var front := stored[..|stored| - 1];
      AdmissionsFound(v, front);
      assert stored == front + [stored[|stored| - 1]];
    }
  }

  lemma {:induction false} AdmissionsDistinct(v: View, stored: seq<ChunkId>)
    requires Ascending(stored)
    ensures DistinctChunks(Admissions(v, stored))
  {
    if stored != [] {
      var front := stored[..|stored| - 1];
      AdmissionsDistinct(v, front);
      AdmissionsFound(v, front);
      var before := Admissions(v, front);
      forall i | 0 <= i < |before| ensures before[i].chunk < stored[|stored| - 1] {
        assert before[i] in before && before[i].chunk in front;
      }
    }
  }

  /** Every stored chunk is active, rate limited, newly skipped or admitted, and counted once. */
  lemma {:induction false} EveryChunkAccountedFor(v: View, stored: seq<ChunkId>)
    ensures |stored| ==
      Count(v, stored, (x: Verdict) => x.Active?) + Count(v, stored, (x: Verdict) => x.RateLimited?)
      + Count(v, stored, (x: Verdict) => x.Skipped?) + |Admissions(v, stored)|
  {
    if stored != [] {
      EveryChunkAccountedFor(v, stored[..|stored| - 1]);
    }
  }

  /** The chunk is not being migrated, its last migration lies back far enough, and the policy wants it elsewhere. */
  ghost predicate Eligible(v: View, c: ChunkId) {
    && c !in v.active
    && (c in v.lastMigration && v.config.minMigrationInterval > 0 ==>
          v.lastMigration[c] + v.config.minMigrationInterval <= v.now)
    && v.policy.shouldMigrate(c).Some? && v.policy.shouldMigrate(c) != Some(Ram)
    && v.config.metaSize <= v.config.maxChunkSize
  }

  /** The migration describes its chunk as the policy and the hotness map do. */
  ghost predicate AsPolicySays(v: View, p: PendingMigration) {
    && p.fromTier == Ram && Some(p.toTier) == v.policy.shouldMigrate(p.chunk)
    && p.priority == v.policy.priority(p.chunk)
    && (p.chunk in v.hotness ==> p.hotness == v.hotness[p.chunk]) && (p.chunk !in v.hotness ==> p.hotness == 0.0)
    && p.size == v.config.metaSize && p.identifiedAt == v.now
  }

  /** Why a chunk is not admitted: it is being migrated, or was too recently, or the policy does not want it moved. */
  lemma VerdictIff(v: View, c: ChunkId)
    ensures Judge(v, c).Active? <==> c in v.active
    ensures Judge(v, c).RateLimited? <==>
      c !in v.active && c in v.lastMigration && v.now < v.lastMigration[c] + v.config.minMigrationInterval
      && v.config.minMigrationInterval > 0
    ensures Judge(v, c).Skipped? <==>
      && c !in v.active
      && (c in v.lastMigration && v.config.minMigrationInterval > 0 ==>
            v.lastMigration[c] + v.config.minMigrationInterval <= v.now)
      && (v.policy.shouldMigrate(c) == None || v.policy.shouldMigrate(c) == Some(Ram)
          || v.config.metaSize > v.config.maxChunkSize)
  {
  }

  /** The admitted candidates are exactly the eligible stored chunks, described as the policy says. */
  lemma {:induction false} AdmittedIffEligible(v: View, stored: seq<ChunkId>)
    ensures forall p :: p in Admissions(v, stored) ==> p.chunk in stored && Eligible(v, p.chunk) && AsPolicySays(v, p)
    ensures forall c :: c in stored && Eligible(v, c) ==> exists p :: p in Admissions(v, stored) && p.chunk == c
  {
    AdmissionsFound(v, stored);
    forall p | p in Admissions(v, stored) ensures Eligible(v, p.chunk) && AsPolicySays(v, p) {
    }
    forall c | c in stored && Eligible(v, c) ensures exists p :: p in Admissions(v, stored) && p.chunk == c {
      assert Judge(v, c).migration in Admissions(v, stored);
    }
  }

  /** The policy gives `c` a higher priority than `d`, or the same one and `c` is hotter. */
  ghost predicate Prefers(v: View, c: ChunkId, d: ChunkId) {
    var p, q := v.policy.priority(c), v.policy.priority(d);
    p.Value() > q.Value() || (p == q && Score(v.hotness, c) > Score(v.hotness, d))
  }

  ghost predicate Chosen(chosen: seq<PendingMigration>, c: ChunkId) {
    exists p :: p in chosen && p.chunk == c
  }

  /**
   * What `Evaluate` returns for the stored chunks: at most the configured number, each chunk once, best rank
   * first; every one of them is stored, eligible and described as the policy says; and an eligible stored chunk is
   * left out only if the cycle is full of chunks to which the policy and its hotness do not prefer it.
   */
  lemma {:induction false} SelectionIsTopK(v: View, stored: seq<ChunkId>)
    requires Ascending(stored)
    ensures var chosen := Best(Admissions(v, stored), v.config.maxMigrationsPerCycle);
      && |chosen| <= v.config.maxMigrationsPerCycle
      && Sorted(chosen) && DistinctChunks(chosen)
      && (forall p :: p in chosen ==> p.chunk in stored && Eligible(v, p.chunk) && AsPolicySays(v, p))
      && (forall c, q :: c in stored && Eligible(v, c) && !Chosen(chosen, c) && q in chosen ==>
            !Prefers(v, c, q.chunk) && |chosen| == v.config.maxMigrationsPerCycle)
  {
    var all := Admissions(v, stored);
    var chosen := Best(all, v.config.maxMigrationsPerCycle);
    AdmittedIffEligible(v, stored);
    AdmissionsDistinct(v, stored);
    BestAreBest(all, v.config.maxMigrationsPerCycle);
    forall p | p in chosen ensures p in all {
      assert p in multiset(chosen);
      assert p in multiset(all);
    }
    if |all| <= v.config.maxMigrationsPerCycle {
      SameBag(all, chosen);
    }
    forall c, q | c in stored && Eligible(v, c) && !Chosen(chosen, c) && q in chosen
      ensures !Prefers(v, c, q.chunk) && |chosen| == v.config.maxMigrationsPerCycle
    {
      var p :| p in all && p.chunk == c;
      assert p !in chosen;
      if Prefers(v, p.chunk, q.chunk) {
        PreferredOutranks(v, p, q);
      }
    }
  }

  lemma PreferredOutranks(v: View, p: PendingMigration, q: PendingMigration)
    requires AsPolicySays(v, p) && AsPolicySays(v, q) && Prefers(v, p.chunk, q.chunk)
    ensures Outranks(p, q)
  {
  }

  /** An evaluation announces migrations that it does not return exactly if more were admitted than fit in a cycle. */
  lemma {:induction false} AllReturnedIffRoom(v: View, stored: seq<ChunkId>)
    requires Ascending(stored)
    ensures var all, limit := Admissions(v, stored), v.config.maxMigrationsPerCycle;
      (forall p :: p in all ==> p in Best(all, limit)) <==> |all| <= limit
  {
    var all, limit := Admissions(v, stored), v.config.maxMigrationsPerCycle;
    var chosen := Best(all, limit);
    AdmissionsDistinct(v, stored);
    BestAreBest(all, limit);
    if forall p :: p in all ==> p in chosen {
      forall p ensures multiset(all)[p] <= multiset(chosen)[p] {
        AtMostOnce(all, p);
        assert p in multiset(all) ==> p in all;
        assert p in chosen ==> p in multiset(chosen);
      }
      assert multiset(all) <= multiset(chosen);
      assert multiset(all) == multiset(chosen);
      assert |all| == |multiset(all)| && |chosen| == |multiset(chosen)|;
    }
    if |all| <= limit {
      SameBag(all, chosen);
    }
  }

  function Greedy(): View {
    View(
      Config(1, 0, 1, 0, false, 0.0, 0.0, 0),
      Policy((c: ChunkId) => Some(Disk), (c: ChunkId) => Normal, (c: ChunkId) => Disk, (c: ChunkId) => true),
      {}, map[], map[], 0)
  }

  /** Two chunks are admitted, and so announced, where one fits in a cycle: some announced migration is not returned. */
  lemma {:induction false} AnnouncedButCutOff()
    ensures var all := Admissions(Greedy(), [0, 1]);
      |all| == 2 && exists p :: p in all && p !in Best(all, Greedy().config.maxMigrationsPerCycle)
  {
    assert [0, 1][..1] == [0] && [0][..0] == [];
    assert |Admissions(Greedy(), [0, 1])| == 2;
    AllReturnedIffRoom(Greedy(), [0, 1]);
  }

  lemma SameBag(all: seq<PendingMigration>, chosen: seq<PendingMigration>)
    requires |chosen| == |all| && multiset(chosen) <= multiset(all)
    ensures forall p :: p in all ==> p in chosen
  {
    assert |multiset(all) - multiset(chosen)| == |multiset(all)| - |multiset(chosen)| == 0;
    forall p | p in all ensures p in chosen {
      assert p in multiset(all);
      assert p in multiset(chosen);
    }
  }

  // ---- an eviction pass is a series of cooldown steps ----

  function Considerations(policy: Policy, cold: seq<ColdChunk>, now: nat): seq<EC.Op> {
    if cold == [] then []
    else
      var last := cold[|cold| - 1];
      Considerations(policy, cold[..|cold| - 1], now) + [EC.Consider(last.chunk, now, Wanted(policy, last))]
  }

  function Entries(evictions: seq<PendingMigration>): seq<EC.Entry> {
    if evictions == [] then []
    else
      var last := evictions[|evictions| - 1];
      Entries(evictions[..|evictions| - 1]) + [EC.Evicted(last.chunk, last.identifiedAt)]
  }

  /**
   * A pass leaves the cooldown as considering its cold chunks one by one does, and the evictions it returns are
   * exactly the ones that are logged then; so the bound on eviction storms covers all passes and completions.
   */
  lemma {:induction false} PassIsConsiderations(c: EC.Cooldown, policy: Policy, size: nat, cold: seq<ColdChunk>, now: nat)
    ensures var pass := Turns(c, policy, size, cold, now);
      var ops := Considerations(policy, cold, now);
      && pass.cooldown == EC.After(c, ops)
      && Entries(pass.evictions) == EC.Log(c, ops)
  {
    if cold != [] {
      var front, last := cold[..|cold| - 1], cold[|cold| - 1];
      PassIsConsiderations(c, policy, size, front, now);
      var ops := Considerations(policy, front, now);
      var op := EC.Consider(last.chunk, now, Wanted(policy, last));
      assert (ops + [op])[..|ops|] == ops;
      var before := Turns(c, policy, size, front, now).evictions;
      var e := Eviction(policy, size, last, now);
      assert (before + [e])[..|before|] == before;
    }
  }

  // ---- what a pass evicts ----

  ghost predicate DistinctCold(cold: seq<ColdChunk>) {
    forall i, j :: 0 <= i < j < |cold| ==> cold[i].chunk != cold[j].chunk
  }

  ghost predicate Evicted(evictions: seq<PendingMigration>, chunk: ChunkId) {
    exists e :: e in evictions && e.chunk == chunk
  }

  /** The eviction describes its cold chunk as the policy does. */
  ghost predicate AsColdSays(policy: Policy, size: nat, cold: ColdChunk, now: nat, e: PendingMigration) {
    && e.chunk == cold.chunk && e.fromTier == Ram && e.toTier == policy.target(cold.chunk)
    && e.priority == policy.priority(cold.chunk) && e.hotness == cold.hotness && e.size == size && e.identifiedAt == now
  }

  /** Stored cold chunks that the cooldown holds back. */
  ghost function HeldBack(c: EC.Cooldown, cold: seq<ColdChunk>, now: nat): set<int> {
    set i | 0 <= i < |cold| && cold[i].stored && !EC.CanEvict(c, cold[i].chunk, now)
  }

  ghost predicate PassExact(c: EC.Cooldown, policy: Policy, size: nat, cold: seq<ColdChunk>, now: nat, pass: Pass) {
    && (forall e :: e in pass.evictions ==> exists i :: 0 <= i < |cold| && AsColdSays(policy, size, cold[i], now, e))
    && (forall i :: 0 <= i < |cold| ==>
          (Evicted(pass.evictions, cold[i].chunk) <==>
            cold[i].stored && policy.picksVictim(cold[i].chunk) && policy.target(cold[i].chunk) != Ram
            && EC.CanEvict(c, cold[i].chunk, now)))
    && pass.blocks == |HeldBack(c, cold, now)|
  }

  /** Only the chunks of a pass lose their standing with the cooldown in it. */
  lemma {:induction false} OthersUntouched(c: EC.Cooldown, policy: Policy, size: nat, cold: seq<ColdChunk>, now: nat, chunk: ChunkId)
    requires forall i :: 0 <= i < |cold| ==> cold[i].chunk != chunk
    ensures EC.CanEvict(Turns(c, policy, size, cold, now).cooldown, chunk, now) <==> EC.CanEvict(c, chunk, now)
  {
    if cold != [] {
      OthersUntouched(c, policy, size, cold[..|cold| - 1], now, chunk);
    }
  }

  lemma HeldBackNext(c: EC.Cooldown, cold: seq<ColdChunk>, now: nat)
    requires cold != []
    ensures var n := |cold| - 1;
      |HeldBack(c, cold, now)| == |HeldBack(c, cold[..n], now)|
        + if cold[n].stored && !EC.CanEvict(c, cold[n].chunk, now) then 1 else 0
  {
    var n := |cold| - 1;
    assert HeldBack(c, cold, now) == HeldBack(c, cold[..n], now)
      + if cold[n].stored && !EC.CanEvict(c, cold[n].chunk, now) then {n} else {};
    assert n !in HeldBack(c, cold[..n], now);
  }

  /**
   * A pass over distinct cold chunks evicts exactly the stored ones that the policy picks and sends elsewhere and that
   * the cooldown permits, and counts exactly the stored ones that it does not permit.
   */
  lemma {:induction false} EvictionsExact(c: EC.Cooldown, policy: Policy, size: nat, cold: seq<ColdChunk>, now: nat)
    requires DistinctCold(cold)
    ensures PassExact(c, policy, size, cold, now, Turns(c, policy, size, cold, now))
  {
    if cold == [] {
      assert HeldBack(c, cold, now) == {};
    } else {
      var n := |cold| - 1;
      var front := cold[..n];
      EvictionsExact(c, policy, size, front, now);
      OthersUntouched(c, policy, size, front, now, cold[n].chunk);
      HeldBackNext(c, cold, now);
      TurnExact(c, policy, size, cold, now, Turns(c, policy, size, front, now));
    }
  }

  lemma {:induction false} TurnExact(c: EC.Cooldown, policy: Policy, size: nat, cold: seq<ColdChunk>, now: nat, before: Pass)
    requires cold != [] && DistinctCold(cold) && PassExact(c, policy, size, cold[..|cold| - 1], now, before)
    requires EC.CanEvict(before.cooldown, cold[|cold| - 1].chunk, now) <==> EC.CanEvict(c, cold[|cold| - 1].chunk, now)
    requires |HeldBack(c, cold, now)| == |HeldBack(c, cold[..|cold| - 1], now)|
      + if cold[|cold| - 1].stored && !EC.CanEvict(c, cold[|cold| - 1].chunk, now) then 1 else 0
    ensures PassExact(c, policy, size, cold, now, Turn(before, policy, size, cold[|cold| - 1], now))
  {
    var n := |cold| - 1;
    var front, last := cold[..n], cold[n];
    var after := Turn(before, policy, size, last, now);
    assert !Evicted(before.evictions, last.chunk) by {
      forall e | e in before.evictions ensures e.chunk != last.chunk {
        var i :| 0 <= i < n && AsColdSays(policy, size, front[i], now, e);
        assert cold[i].chunk != cold[n].chunk;
      }
    }
    forall e | e in after.evictions ensures exists i :: 0 <= i < |cold| && AsColdSays(policy, size, cold[i], now, e) {
      if e in before.evictions {
        var i :| 0 <= i < n && AsColdSays(policy, size, front[i], now, e);
        assert AsColdSays(policy, size, cold[i], now, e);
      } else {
        assert AsColdSays(policy, size, cold[n], now, e);
      }
    }
    forall i | 0 <= i < n
      ensures Evicted(after.evictions, cold[i].chunk) <==> Evicted(before.evictions, front[i].chunk)
    {
      assert cold[i].chunk != cold[n].chunk;
      if Evicted(before.evictions, front[i].chunk) {
        var e :| e in before.evictions && e.chunk == front[i].chunk;
        assert e in after.evictions;
      }
    }
    if after.evictions != before.evictions {
      assert after.evictions[|before.evictions|].chunk == last.chunk;
    }
  }

  // ---- whole runs of the engine ----

  /** The calls that touch the cooldown; `policy` and the cold chunks may differ from pass to pass. */
  datatype EngineCall =
    | EvictionPass(policy: Policy, cold: seq<ColdChunk>, now: nat)
    | Completion(chunk: ChunkId, success: bool, later: nat)

  function CallCooldown(c: EC.Cooldown, call: EngineCall): EC.Cooldown {
    match call
    case EvictionPass(policy, cold, now) => Turns(c, policy, 0, cold, now).cooldown
    case Completion(chunk, success, later) => if success then EC.Next(c, EC.Promote(chunk, later)) else c
  }

  /** The evictions a call returns or the promotion it records. */
  function CallHistory(c: EC.Cooldown, call: EngineCall): seq<EC.Entry> {
    match call
    case EvictionPass(policy, cold, now) => Entries(Turns(c, policy, 0, cold, now).evictions)
    case Completion(chunk, success, later) => if success then [EC.Promoted(chunk, later)] else []
  }

  function CooldownAfter(c: EC.Cooldown, calls: seq<EngineCall>): EC.Cooldown {
    if calls == [] then c else CallCooldown(CooldownAfter(c, calls[..|calls| - 1]), calls[|calls| - 1])
  }

  function History(c: EC.Cooldown, calls: seq<EngineCall>): seq<EC.Entry> {
    if calls == [] then []
    else
      var front := calls[..|calls| - 1];
      History(c, front) + CallHistory(CooldownAfter(c, front), calls[|calls| - 1])
  }

  function CallOps(call: EngineCall): seq<EC.Op> {
    match call
    case EvictionPass(policy, cold, now) => Considerations(policy, cold, now)
    case Completion(chunk, success, later) => if success then [EC.Promote(chunk, later)] else []
  }

  function AllOps(calls: seq<EngineCall>): seq<EC.Op> {
    if calls == [] then [] else AllOps(calls[..|calls| - 1]) + CallOps(calls[|calls| - 1])
  }

  lemma {:induction false} CallIsOps(c: EC.Cooldown, call: EngineCall)
    ensures CallCooldown(c, call) == EC.After(c, CallOps(call))
    ensures CallHistory(c, call) == EC.Log(c, CallOps(call))
  {
    match call {
      case EvictionPass(policy, cold, now) => PassIsConsiderations(c, policy, 0, cold, now);
      case Completion(chunk, success, later) =>
        if success {
          EC.AppendOp(c, [], EC.Promote(chunk, later));
          assert [] + [EC.Promote(chunk, later)] == [EC.Promote(chunk, later)];
        }
    }
  }

  lemma {:induction false} EngineFollowsCooldown(c: EC.Cooldown, calls: seq<EngineCall>)
    ensures CooldownAfter(c, calls) == EC.After(c, AllOps(calls))
    ensures History(c, calls) == EC.Log(c, AllOps(calls))
  {
    if calls != [] {
      var front, call := calls[..|calls| - 1], calls[|calls| - 1];
      EngineFollowsCooldown(c, front);
      EC.Continue(c, AllOps(front), CallOps(call));
      CallIsOps(CooldownAfter(c, front), call);
    }
  }

  /**
   * Over any sequence of eviction passes and completed migrations, with any policy, cold chunks and clock
   * readings: evictions of one chunk lie at least the engine's period apart and at least that long after its
   * last recorded promotion, so at most `width / period + 1` of them fall into a window of length `width`.
   */
  lemma {:induction false} EngineNoEvictionStorm(
      minIntervalSecs: nat, calls: seq<EngineCall>, chunk: ChunkId, lo: int, width: nat)
    ensures var period := EC.EnginePeriod(minIntervalSecs);
      var history := History(EC.Cooldown(map[], map[], period), calls);
      && SpacedBy(EC.EvictionTimes(history, chunk), period)
      && EC.AfterPromotions(history, chunk, period)
      && CountIn(EC.EvictionTimes(history, chunk), lo, lo + width) <= width / period + 1
  {
    var period := EC.EnginePeriod(minIntervalSecs);
    EngineFollowsCooldown(EC.Cooldown(map[], map[], period), calls);
    EC.NoEvictionStorm(AllOps(calls), period, chunk, lo, width);
  }

  /**
   * What a completion does to evictions. A successful one holds its own chunk back until a period after it, next to the
   * chunk's last eviction; a failed one, and one of another chunk, changes nothing.
   */
  lemma CompletionHoldsBack(c: EC.Cooldown, done: ChunkId, success: bool, later: nat, chunk: ChunkId, now: nat)
    requires c.period > 0
    ensures EC.CanEvict(CallCooldown(c, Completion(done, success, later)), chunk, now) <==>
      if success && chunk == done then
        (chunk in c.lastEviction ==> c.lastEviction[chunk] + c.period <= now) && later + c.period <= now
      else EC.CanEvict(c, chunk, now)
  {
  }

  /** After any run of the engine, a chunk may be evicted exactly if its last eviction and promotion lie a period back. */
  lemma {:induction false} EngineEvictableIff(minIntervalSecs: nat, calls: seq<EngineCall>, chunk: ChunkId, now: nat)
    ensures var period := EC.EnginePeriod(minIntervalSecs);
      var c0 := EC.Cooldown(map[], map[], period);
      var times, promoted := EC.EvictionTimes(History(c0, calls), chunk), EC.LatestPromotion(History(c0, calls), chunk);
      EC.CanEvict(CooldownAfter(c0, calls), chunk, now) <==>
        && (times != [] ==> times[|times| - 1] + period <= now)
        && (promoted.Some? ==> promoted.value + period <= now)
  {
    var period := EC.EnginePeriod(minIntervalSecs);
    EngineFollowsCooldown(EC.Cooldown(map[], map[], period), calls);
    EC.EvictableIff(AllOps(calls), period, chunk, now);
  }
}

/** Health tracking of the storage backends: failure counts, recovery probes, and the events that report changes. */
module Health {
  import opened Types

  datatype Health = Healthy | Degraded | Unavailable | Recovering

  datatype Config = Config(degraded: nat, unavailable: nat, recovery: nat)

  /** Everything known about one tier; missing counters count as zero. */
  datatype Tier = Untracked | Tracked(health: Health, failures: nat, successes: nat)

  datatype Kind = Register | Fail | Succeed | BeginRecovery | Reset

  datatype Event = Changed(tier: TierId, previous: Health, current: Health)

  // ---- the operations on one tier ----

  function OnFailure(cfg: Config, t: Tier): Tier {
    var before := if t.Untracked? then Tracked(Healthy, 0, 0) else t;
    var failures := before.failures + 1;
    var health :=
      if failures >= cfg.unavailable then Unavailable
      else if failures >= cfg.degraded then Degraded
      else before.health;
    Tracked(health, failures, before.successes)
  }

  function OnSuccess(cfg: Config, t: Tier): Tier {
    if t.Untracked? then t
    else match t.health
      case Degraded =>
        Tracked(
          if t.failures <= cfg.degraded then Healthy else Degraded,
          if t.failures > 0 then t.failures - 1 else 0,
          t.successes)
      case Recovering =>
        if t.successes + 1 >= cfg.recovery then Tracked(Healthy, 0, 0)
        else Tracked(Recovering, t.failures, t.successes + 1)
      case _ => t
  }

  function Apply(cfg: Config, t: Tier, kind: Kind): Tier {
    match kind
    case Register => if t.Untracked? then Tracked(Healthy, 0, 0) else t
    case Fail => OnFailure(cfg, t)
    case Succeed => OnSuccess(cfg, t)
    case BeginRecovery => if t.Tracked? && t.health == Unavailable then Tracked(Recovering, t.failures, 0) else t
    case Reset => Tracked(Healthy, 0, 0)
  }

  function HealthOf(t: Tier): Health {
    if t.Untracked? then Healthy else t.health
  }

  /** Changes are reported by every operation except registering and resetting. */
  function Emitted(cfg: Config, tier: TierId, t: Tier, kind: Kind): seq<Event> {
    var previous, current := HealthOf(t), HealthOf(Apply(cfg, t, kind));
    if kind == Register || kind == Reset || previous == current then [] else [Changed(tier, previous, current)]
  }

  // ---- the tracker ----

  class HealthTracker {
    var states: map<TierId, Health>
    var failureCounts: map<TierId, nat>
    var lastFailure: map<TierId, nat>
    var recoverySuccesses: map<TierId, nat>
    const config: Config
    var events: seq<Event>

    /** Counters exist only for tracked tiers, and a tier that has failed has a failure counter. */
    ghost predicate Valid()
      reads this
    {
      && failureCounts.Keys <= states.Keys && recoverySuccesses.Keys <= states.Keys
      && (forall t :: t in states && states[t] != Healthy ==> t in failureCounts)
    }

    function View(t: TierId): Tier
      reads this
    {
      if t !in states then Untracked
      else Tracked(
          states[t],
          if t in failureCounts then failureCounts[t] else 0,
          if t in recoverySuccesses then recoverySuccesses[t] else 0)
    }

    constructor (config: Config)
      ensures Valid() && this.config == config && events == []
      ensures forall t :: View(t) == Untracked
    {
      states, failureCounts, lastFailure, recoverySuccesses, events := map[], map[], map[], map[], [];
      this.config := config;
    }

    method DoRegister(tier: TierId)
      requires Valid()
      modifies this
      ensures Valid() && View(tier) == Apply(config, old(View(tier)), Register)
      ensures forall t :: t != tier ==> View(t) == old(View(t))
      ensures events == old(events) && lastFailure == old(lastFailure)
    {
      if tier !in states {
        states := states[tier := Healthy];
      }
      if tier !in failureCounts {
        failureCounts := failureCounts[tier := 0];
      }
      if tier !in recoverySuccesses {
        recoverySuccesses := recoverySuccesses[tier := 0];
      }
    }

    method RecordFailure(tier: TierId, now: nat)
      requires Valid()
      modifies this
      ensures Valid() && View(tier) == Apply(config, old(View(tier)), Fail)
      ensures forall t :: t != tier ==> View(t) == old(View(t))
      ensures events == old(events) + Emitted(config, tier, old(View(tier)), Fail)
      ensures lastFailure == old(lastFailure)[tier := now]
    {
      var failures := (if tier in failureCounts then failureCounts[tier] else 0) + 1;
      var prev := if tier in states then states[tier] else Healthy;
      var newState := prev;
      if failures >= config.unavailable {
        newState := Unavailable;
      } else if failures >= config.degraded {
        newState := Degraded;
      }
      Store(tier, newState, failures);
      lastFailure := lastFailure[tier := now];
      if prev != newState {
        events := events + [Changed(tier, prev, newState)];
      }
    }

    method Store(tier: TierId, health: Health, failures: nat)
      requires Valid()
      modifies this`states, this`failureCounts
      ensures Valid() && View(tier) == Tracked(health, failures, if tier in recoverySuccesses then recoverySuccesses[tier] else 0)
      ensures forall t :: t != tier ==> View(t) == old(View(t))
    {
      failureCounts := failureCounts[tier := failures];
      states := states[tier := health];
    }

    method RecordSuccess(tier: TierId)
      requires Valid()
      modifies this
      ensures Valid() && View(tier) == Apply(config, old(View(tier)), Succeed)
      ensures forall t :: t != tier ==> View(t) == old(View(t))
      ensures events == old(events) + Emitted(config, tier, old(View(tier)), Succeed)
      ensures lastFailure == old(lastFailure)
    {
      if tier !in states {
        return;
      }
      var prev := states[tier];
      if prev == Degraded {
        SucceedDegraded(tier);
      } else if prev == Recovering {
        SucceedRecovering(tier);
      }
      if prev != states[tier] && states[tier] == Healthy {
        events := events + [Changed(tier, prev, Healthy)];
      }
    }

    method SucceedDegraded(tier: TierId)
      requires Valid() && View(tier).Tracked? && View(tier).health == Degraded
      modifies this`states, this`failureCounts
      ensures Valid() && View(tier) == OnSuccess(config, old(View(tier)))
      ensures forall t :: t != tier ==> View(t) == old(View(t))
    {
      var current := failureCounts[tier];
      if current > 0 {
        failureCounts := failureCounts[tier := current - 1];
      }
      if current <= config.degraded {
        states := states[tier := Healthy];
      }
    }

    method SucceedRecovering(tier: TierId)
      requires Valid() && View(tier).Tracked? && View(tier).health == Recovering
      modifies this`states, this`failureCounts, this`recoverySuccesses
      ensures Valid() && View(tier) == OnSuccess(config, old(View(tier)))
      ensures forall t :: t != tier ==> View(t) == old(View(t))
    {
      var s := (if tier in recoverySuccesses then recoverySuccesses[tier] else 0) + 1;
      if s >= config.recovery {
        states := states[tier := Healthy];
        failureCounts := failureCounts[tier := 0];
        recoverySuccesses := recoverySuccesses[tier := 0];
      } else {
        recoverySuccesses := recoverySuccesses[tier := s];
      }
    }

    method DoBeginRecovery(tier: TierId)
      requires Valid()
      modifies this
      ensures Valid() && View(tier) == Apply(config, old(View(tier)), BeginRecovery)
      ensures forall t :: t != tier ==> View(t) == old(View(t))
      ensures events == old(events) + Emitted(config, tier, old(View(tier)), BeginRecovery)
      ensures lastFailure == old(lastFailure)
    {
      if tier in states && states[tier] == Unavailable {
        states := states[tier := Recovering];
        if tier in recoverySuccesses {
          recoverySuccesses := recoverySuccesses[tier := 0];
        }
        events := events + [Changed(tier, Unavailable, Recovering)];
      }
    }

    method DoReset(tier: TierId)
      requires Valid()
      modifies this
      ensures Valid() && View(tier) == Apply(config, old(View(tier)), Reset)
      ensures forall t :: t != tier ==> View(t) == old(View(t))
      ensures events == old(events) && lastFailure == old(lastFailure) - {tier}
    {
      states := states[tier := Healthy];
      if tier in failureCounts {
        failureCounts := failureCounts[tier := 0];
      }
      if tier in recoverySuccesses {
        recoverySuccesses := recoverySuccesses[tier := 0];
      }
      lastFailure := lastFailure - {tier};
    }

    method IsAvailable(tier: TierId) returns (available: bool)
      ensures available <==> Available(View(tier))
    {
      return tier in states && (states[tier] == Healthy || states[tier] == Degraded);
    }
  }

  predicate Available(t: Tier) {
    t.Tracked? && (t.health == Healthy || t.health == Degraded)
  }

  // ---- one tier over a run ----

  function Run(cfg: Config, kinds: seq<Kind>): Tier {
    if kinds == [] then Untracked else Apply(cfg, Run(cfg, kinds[..|kinds| - 1]), kinds[|kinds| - 1])
  }

  ghost predicate Classified(cfg: Config, t: Tier) {
    t.Tracked? ==>
      && (t.health == Healthy <==> t.failures < cfg.degraded)
      && (t.health == Degraded <==> cfg.degraded <= t.failures < cfg.unavailable)
      && ((t.health == Unavailable || t.health == Recovering) <==> cfg.unavailable <= t.failures)
  }

  lemma {:induction false} RunClassified(cfg: Config, kinds: seq<Kind>)
    requires 1 <= cfg.degraded <= cfg.unavailable
    ensures Classified(cfg, Run(cfg, kinds))
  {
    if kinds != [] {
      RunClassified(cfg, kinds[..|kinds| - 1]);
    }
  }

  function Failing(n: nat): seq<Kind> {
    if n == 0 then [Register] else Failing(n - 1) + [Fail]
  }

  lemma {:induction false} FailsUp(cfg: Config, n: nat)
    requires n < cfg.unavailable && n < cfg.degraded
    ensures Run(cfg, Failing(n)) == Tracked(Healthy, n, 0)
  {
    if n == 0 {
      assert [Register][..0] == [] && Run(cfg, []) == Untracked;
    } else {
      FailsUp(cfg, n - 1);
      assert Failing(n)[..|Failing(n)| - 1] == Failing(n - 1);
    }
  }

  ghost predicate AlwaysClassified(cfg: Config) {
    forall kinds :: Classified(cfg, Run(cfg, kinds))
  }

  /**
   * The failure count alone classifies every tier in every reachable state (healthy below the first threshold,
   * degraded between the two, unavailable or recovering from the second on) exactly if the thresholds satisfy
   * `1 <= degraded <= unavailable`.
   */
  lemma {:induction false} ClassifiedIffThresholds(cfg: Config)
    ensures AlwaysClassified(cfg) <==> 1 <= cfg.degraded <= cfg.unavailable
  {
    if 1 <= cfg.degraded <= cfg.unavailable {
      forall kinds ensures Classified(cfg, Run(cfg, kinds)) {
        RunClassified(cfg, kinds);
      }
    } else if cfg.degraded == 0 || cfg.unavailable == 0 {
      var kinds := [Register];
      assert kinds[..0] == [] && Run(cfg, []) == Untracked;
      assert Run(cfg, kinds) == Tracked(Healthy, 0, 0);
      assert !Classified(cfg, Run(cfg, kinds));
    } else {
      var n := cfg.unavailable;
      FailsUp(cfg, n - 1);
      assert Failing(n)[..|Failing(n)| - 1] == Failing(n - 1);
      assert Run(cfg, Failing(n)) == Tracked(Unavailable, n, 0);
      assert !Classified(cfg, Run(cfg, Failing(n)));
    }
  }

  /** A tier is available exactly while its failures stay below the second threshold. */
  lemma {:induction false} AvailableIffFewFailures(cfg: Config, kinds: seq<Kind>)
    requires 1 <= cfg.degraded <= cfg.unavailable
    ensures var t := Run(cfg, kinds); Available(t) <==> t.Tracked? && t.failures < cfg.unavailable
  {
    RunClassified(cfg, kinds);
  }

  // ---- recovery ----

  /** Successful probes needed to recover; at least one is always needed. */
  function Needed(cfg: Config): nat {
    if cfg.recovery == 0 then 1 else cfg.recovery
  }

  ghost predicate Down(t: Tier) {
    t.Tracked? && (t.health == Unavailable || t.health == Recovering)
  }

  /** With any thresholds, a tier that is down has at least the failures that brought it down. */
  lemma {:induction false} DownMeansFailures(cfg: Config, kinds: seq<Kind>)
    ensures var t := Run(cfg, kinds);
      (Down(t) ==> cfg.unavailable <= t.failures) && (t.Tracked? && t.health == Recovering ==> t.successes < Needed(cfg))
  {
    if kinds != [] {
      DownMeansFailures(cfg, kinds[..|kinds| - 1]);
    }
  }

  /** One failure while recovering always makes the tier unavailable again. */
  lemma {:induction false} FailureEndsRecovery(cfg: Config, kinds: seq<Kind>)
    requires Down(Run(cfg, kinds))
    ensures Apply(cfg, Run(cfg, kinds), Fail).health == Unavailable
  {
    DownMeansFailures(cfg, kinds);
  }

  function CountSucceed(kinds: seq<Kind>): nat {
    if kinds == [] then 0
    else CountSucceed(kinds[..|kinds| - 1]) + (if kinds[|kinds| - 1] == Succeed then 1 else 0)
  }

  /**
   * `b` begins the recovery that `kinds` is in: the tier was unavailable before, has been recovering ever
   * since, and has only seen successes, which the counter has counted.
   */
  ghost predicate RecoveringSince(cfg: Config, kinds: seq<Kind>, b: nat) {
    && b < |kinds| && kinds[b] == BeginRecovery
    && HealthOf(Run(cfg, kinds[..b])) == Unavailable
    && (forall j :: b < j <= |kinds| ==> HealthOf(Run(cfg, kinds[..j])) == Recovering)
    && (forall j :: b < j < |kinds| ==> kinds[j] != Fail && kinds[j] != Reset)
    && Run(cfg, kinds).Tracked? && Run(cfg, kinds).successes == CountSucceed(kinds[b + 1..])
  }

  lemma {:induction false} RecoveryBegan(cfg: Config, kinds: seq<Kind>) returns (b: nat)
    requires HealthOf(Run(cfg, kinds)) == Recovering
    ensures RecoveringSince(cfg, kinds, b)
  {
    var n := |kinds| - 1;
    var front, last := kinds[..n], kinds[n];
    assert kinds[..n + 1] == kinds;
    DownMeansFailures(cfg, front);
    if HealthOf(Run(cfg, front)) == Recovering {
      b := RecoveryBegan(cfg, front);
      ExtendRecovery(cfg, kinds, b);
    } else {
      b := n;
      assert kinds[b + 1..] == [];
    }
  }

  lemma {:induction false} ExtendRecovery(cfg: Config, kinds: seq<Kind>, b: nat)
    requires kinds != [] && RecoveringSince(cfg, kinds[..|kinds| - 1], b)
    requires HealthOf(Run(cfg, kinds)) == Recovering
    ensures RecoveringSince(cfg, kinds, b)
  {
    var n := |kinds| - 1;
    var front := kinds[..n];
    assert kinds[..n + 1] == kinds;
    DownMeansFailures(cfg, front);
    assert kinds[..b] == front[..b];
    forall j | b < j <= |kinds| ensures HealthOf(Run(cfg, kinds[..j])) == Recovering {
      if j <= n {
        assert kinds[..j] == front[..j];
      }
    }
    forall j | b < j < |kinds| ensures kinds[j] != Fail && kinds[j] != Reset {
      if j < n {
        assert kinds[j] == front[j];
      }
    }
    assert kinds[b + 1..][..n - b - 1] == front[b + 1..];
  }

  /** The first step after which a tier that was down is down no longer. */
  lemma {:induction false} FirstUp(cfg: Config, kinds: seq<Kind>, i: nat) returns (e: nat)
    requires i <= |kinds| && Down(Run(cfg, kinds[..i])) && !Down(Run(cfg, kinds))
    ensures i <= e < |kinds| && Down(Run(cfg, kinds[..e])) && !Down(Run(cfg, kinds[..e + 1]))
    decreases |kinds| - i
  {
    assert kinds[..|kinds|] == kinds;
    if !Down(Run(cfg, kinds[..i + 1])) {
      e := i;
    } else {
      e := FirstUp(cfg, kinds, i + 1);
    }
  }

  /**
   * Without a reset, a tier gets from unavailable to healthy only by a recovery: probing begins while it is
   * unavailable, no failure comes in between, and the last of exactly the needed number of successes ends it.
   */
  lemma {:induction false} OnlyRecoveryHeals(cfg: Config, kinds: seq<Kind>, i: nat) returns (b: nat, e: nat)
    requires i <= |kinds| && HealthOf(Run(cfg, kinds[..i])) == Unavailable && HealthOf(Run(cfg, kinds)) == Healthy
    requires forall j :: i <= j < |kinds| ==> kinds[j] != Reset
    ensures i <= b < e < |kinds| && kinds[b] == BeginRecovery && kinds[e] == Succeed
    ensures HealthOf(Run(cfg, kinds[..b])) == Unavailable && HealthOf(Run(cfg, kinds[..e + 1])) == Healthy
    ensures forall j :: b < j < e ==> kinds[j] != Fail
    ensures CountSucceed(kinds[b + 1..e]) + 1 == Needed(cfg)
  {
    e := FirstUp(cfg, kinds, i);
    var front := kinds[..e];
    assert kinds[..e + 1][..e] == front;
    DownMeansFailures(cfg, front);
    b := RecoveryBegan(cfg, front);
    assert front[..b] == kinds[..b] && front[b + 1..] == kinds[b + 1..e];
    assert front[..i] == kinds[..i];
    assert HealthOf(Run(cfg, front[..i])) == Unavailable;
    assert i <= b;
    forall j | b < j < e ensures kinds[j] != Fail {
      assert front[j] != Fail;
    }
  }

  function Successes(cfg: Config, t: Tier, n: nat): Tier {
    if n == 0 then t else OnSuccess(cfg, Successes(cfg, t, n - 1))
  }

  /** A degraded tier with `c` failures stays degraded for `c - degraded` successes and is healthy after one more. */
  lemma {:induction false} DegradedHeals(cfg: Config, c: nat, s: nat, n: nat)
    requires 1 <= cfg.degraded <= c && n <= c - cfg.degraded + 1
    ensures Successes(cfg, Tracked(Degraded, c, s), n) ==
      Tracked(if n == c - cfg.degraded + 1 then Healthy else Degraded, c - n, s)
  {
    if n > 0 {
      DegradedHeals(cfg, c, s, n - 1);
    }
  }

  function Failures(cfg: Config, t: Tier, n: nat): Tier {
    if n == 0 then t else OnFailure(cfg, Failures(cfg, t, n - 1))
  }

  /** Each failure adds one to the count and nothing else does; the thresholds then decide. */
  lemma {:induction false} FailuresAddUp(cfg: Config, t: Tier, n: nat)
    requires n > 0
    ensures var before, after := (if t.Untracked? then 0 else t.failures), Failures(cfg, t, n);
      && after.Tracked? && after.failures == before + n
      && after.successes == (if t.Untracked? then 0 else t.successes)
      && (before + n >= cfg.unavailable ==> after.health == Unavailable)
      && (cfg.degraded <= before + n < cfg.unavailable ==> after.health == Degraded)
      && (before + n < cfg.degraded && before + n < cfg.unavailable ==> after.health == HealthOf(t))
  {
    if n > 1 {
      FailuresAddUp(cfg, t, n - 1);
    }
  }

  /** Which calls leave a reachable tier as it is; in particular a success does not make up for failures of a healthy tier. */
  lemma {:induction false} NoEffectIff(cfg: Config, kinds: seq<Kind>, kind: Kind)
    requires 1 <= cfg.degraded <= cfg.unavailable
    ensures var t := Run(cfg, kinds);
      Apply(cfg, t, kind) == t <==>
        match kind
        case Register => t.Tracked?
        case Fail => false
        case Succeed => HealthOf(t) == Healthy || HealthOf(t) == Unavailable
        case BeginRecovery => HealthOf(t) != Unavailable
        case Reset => t == Run(cfg, [Register])
  {
    RunClassified(cfg, kinds);
    assert [Register][..0] == [] && Run(cfg, [Register]) == Tracked(Healthy, 0, 0);
  }

  /** A reset, and a completed recovery, leave the tier as if newly registered. */
  lemma {:induction false} ResetIsFresh(cfg: Config, kinds: seq<Kind>)
    ensures Run(cfg, kinds + [Reset]) == Run(cfg, [Register])
  {
    assert (kinds + [Reset])[..|kinds|] == kinds;
    assert [Register][..0] == [];
  }

  /** Probing an unavailable tier: it recovers for fewer than the needed successes and is as new after exactly those. */
  lemma {:induction false} RecoveryHeals(cfg: Config, f: nat, s: nat, n: nat)
    requires n <= Needed(cfg)
    ensures Successes(cfg, Apply(cfg, Tracked(Unavailable, f, s), BeginRecovery), n) ==
      if n == Needed(cfg) then Run(cfg, [Register]) else Tracked(Recovering, f, n)
  {
    assert [Register][..0] == [] && Run(cfg, [Register]) == Tracked(Healthy, 0, 0);
    if n > 0 {
      RecoveryHeals(cfg, f, s, n - 1);
    }
  }

  // ---- the whole tracker over a run ----

  datatype Op = Op(tier: TierId, kind: Kind)

  function After(cfg: Config, ops: seq<Op>, tier: TierId): Tier {
    if ops == [] then Untracked
    else
      var before, last := After(cfg, ops[..|ops| - 1], tier), ops[|ops| - 1];
      if last.tier == tier then Apply(cfg, before, last.kind) else before
  }

  function Kinds(ops: seq<Op>, tier: TierId): seq<Kind> {
    if ops == [] then []
    else Kinds(ops[..|ops| - 1], tier) + (if ops[|ops| - 1].tier == tier then [ops[|ops| - 1].kind] else [])
  }

  /** Tiers do not affect each other, so all statements about one tier hold in every run of the tracker. */
  lemma {:induction false} TiersIndependent(cfg: Config, ops: seq<Op>, tier: TierId)
    ensures After(cfg, ops, tier) == Run(cfg, Kinds(ops, tier))
  {
    if ops != [] {
      var front, last := ops[..|ops| - 1], ops[|ops| - 1];
      TiersIndependent(cfg, front, tier);
      var before := Kinds(front, tier);
      if last.tier == tier {
        assert (before + [last.kind])[..|before|] == before && (before + [last.kind])[|before|] == last.kind;
      } else {
        assert Kinds(ops, tier) == before;
      }
    }
  }

  function Events(cfg: Config, ops: seq<Op>): seq<Event> {
    if ops == [] then []
    else
      var front, last := ops[..|ops| - 1], ops[|ops| - 1];
      Events(cfg, front) + Emitted(cfg, last.tier, After(cfg, front, last.tier), last.kind)
  }

  /** The health of a tier as its events tell it. */
  function Replay(events: seq<Event>, tier: TierId): Health {
    if events == [] then Healthy
    else
      var last := events[|events| - 1];
      if last.tier == tier then last.current else Replay(events[..|events| - 1], tier)
  }

  /** Each event starts where the previous event of its tier ended. */
  ghost predicate Chained(events: seq<Event>) {
    events == [] ||
    (Chained(events[..|events| - 1]) &&
     events[|events| - 1].previous == Replay(events[..|events| - 1], events[|events| - 1].tier))
  }

  ghost predicate Agrees(cfg: Config, ops: seq<Op>) {
    forall t :: Replay(Events(cfg, ops), t) == HealthOf(After(cfg, ops, t))
  }

  /** The events agree with the tracker now and at every earlier moment of the run. */
  ghost predicate AlwaysAgrees(cfg: Config, ops: seq<Op>) {
    Agrees(cfg, ops) && (ops == [] || AlwaysAgrees(cfg, ops[..|ops| - 1]))
  }

  /** Every reset finds its tier healthy or not yet tracked. */
  ghost predicate QuietResets(cfg: Config, ops: seq<Op>) {
    ops == [] ||
    (QuietResets(cfg, ops[..|ops| - 1]) &&
     (ops[|ops| - 1].kind == Reset ==> HealthOf(After(cfg, ops[..|ops| - 1], ops[|ops| - 1].tier)) == Healthy))
  }

  lemma {:induction false} ReplayStep(cfg: Config, ops: seq<Op>, t: TierId)
    requires ops != [] && Agrees(cfg, ops[..|ops| - 1])
    ensures var front, last := ops[..|ops| - 1], ops[|ops| - 1];
      Replay(Events(cfg, ops), t) == HealthOf(After(cfg, ops, t)) <==>
        !(last.tier == t && last.kind == Reset && HealthOf(After(cfg, front, t)) != Healthy)
  {
    var front, last := ops[..|ops| - 1], ops[|ops| - 1];
    var more := Emitted(cfg, last.tier, After(cfg, front, last.tier), last.kind);
    if more == [] {
      assert Events(cfg, ops) == Events(cfg, front);
    } else {
      assert more == [more[0]];
    }
  }

  /**
   * Folding the health events gives the tracker's state at every moment of a run exactly if every reset in it
   * finds its tier healthy or untracked, because a reset is the one change that is not reported.
   */
  lemma {:induction false} ReplayIffQuietResets(cfg: Config, ops: seq<Op>)
    ensures AlwaysAgrees(cfg, ops) <==> QuietResets(cfg, ops)
  {
    if ops == [] {
      assert Events(cfg, ops) == [];
      assert forall t :: Replay([], t) == Healthy && After(cfg, [], t) == Untracked;
    } else {
      var front, last := ops[..|ops| - 1], ops[|ops| - 1];
      ReplayIffQuietResets(cfg, front);
      if AlwaysAgrees(cfg, front) {
        forall t ensures Replay(Events(cfg, ops), t) == HealthOf(After(cfg, ops, t)) <==>
          !(last.tier == t && last.kind == Reset && HealthOf(After(cfg, front, t)) != Healthy)
        {
          ReplayStep(cfg, ops, t);
        }
        if Agrees(cfg, ops) {
          assert Replay(Events(cfg, ops), last.tier) == HealthOf(After(cfg, ops, last.tier));
        }
      }
    }
  }

  /** A tier that failed and was reset is healthy, while its events still tell of the failure. */
  lemma {:induction false} ResetGoesUnreported()
    ensures var cfg, ops := Config(1, 2, 1), [Op(Ram, Fail), Op(Ram, Reset)];
      && !AlwaysAgrees(cfg, ops)
      && HealthOf(After(cfg, ops, Ram)) == Healthy && Replay(Events(cfg, ops), Ram) == Degraded
  {
    var cfg, ops := Config(1, 2, 1), [Op(Ram, Fail), Op(Ram, Reset)];
    var one := [Op(Ram, Fail)];
    assert ops[..1] == one && one[..0] == [];
    assert After(cfg, one, Ram) == Apply(cfg, Untracked, Fail);
    assert Events(cfg, one) == Emitted(cfg, Ram, Untracked, Fail);
    assert Events(cfg, ops) == Events(cfg, one);
  }

  /** In such runs every reported change starts from the state reported last, and is a real change. */
  lemma {:induction false} EventsChain(cfg: Config, ops: seq<Op>)
    requires QuietResets(cfg, ops)
    ensures Chained(Events(cfg, ops))
    ensures forall k :: 0 <= k < |Events(cfg, ops)| ==> Events(cfg, ops)[k].previous != Events(cfg, ops)[k].current
  {
    if ops != [] {
      var front, last := ops[..|ops| - 1], ops[|ops| - 1];
      EventsChain(cfg, front);
      ReplayIffQuietResets(cfg, front);
      var before := Events(cfg, front);
      var more := Emitted(cfg, last.tier, After(cfg, front, last.tier), last.kind);
      if more == [] {
        assert Events(cfg, ops) == before;
      } else {
        assert more == [more[0]];
        assert Events(cfg, ops)[..|before|] == before && Events(cfg, ops)[|before|] == more[0];
        assert Replay(before, last.tier) == HealthOf(After(cfg, front, last.tier));
      }
    }
  }
}

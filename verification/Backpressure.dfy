/** The backpressure controller: how strongly incoming transfers are held back, with hysteresis over time. */
module Backpressure {
  import opened Types
  import opened Spacing

  datatype Action = Allow | Throttle | Reject | CriticalOnly {
    function Level(): nat {
      match this
      case Allow => 0
      case Throttle => 1
      case Reject => 2
      case CriticalOnly => 3
    }

    predicate Allows(priority: TransferPriority) {
      match this
      case Allow => true
      case Throttle => priority == Critical || priority == High
      case Reject => priority == Critical
      case CriticalOnly => priority == Critical
    }
  }

  datatype Config = Config(
    throttleThreshold: real,
    rejectThreshold: real,
    criticalThreshold: real,
    ioSoftLimit: real,
    ioHardLimit: real,
    queueDepthThreshold: nat,
    diskQueueSoftLimit: nat,
    diskQueueHardLimit: nat,
    diskLatencyThreshold: nat,
    cooldown: nat)

  datatype DiskMetrics = DiskMetrics(queueDepth: nat, rollingLatency: nat)

  /** What one evaluation looks at; `disk` is present once I/O metrics are attached. */
  datatype Input = Input(pressure: PressureState, disk: Option<DiskMetrics>, now: nat)

  /** `since` is when the present spell of pressure began. */
  datatype State = State(action: Action, since: Option<nat>)

  // ---- the four assessments ----

  function DiskAssessment(cfg: Config, disk: Option<DiskMetrics>): Action {
    match disk
    case None => Allow
    case Some(m) =>
      if m.queueDepth >= cfg.diskQueueHardLimit then Reject
      else if m.queueDepth >= cfg.diskQueueSoftLimit || m.rollingLatency >= cfg.diskLatencyThreshold then Throttle
      else Allow
  }

  function IoAssessment(cfg: Config, p: PressureState): Action {
    if p.ioPressure >= cfg.ioHardLimit || p.queueDepth > cfg.queueDepthThreshold * 2 then Reject
    else if p.ioPressure >= cfg.ioSoftLimit || p.queueDepth > cfg.queueDepthThreshold then Throttle
    else Allow
  }

  function OverallAssessment(cfg: Config, max: real): Action {
    if max >= cfg.criticalThreshold then CriticalOnly
    else if max >= cfg.rejectThreshold then Reject
    else if max >= cfg.throttleThreshold then Throttle
    else Allow
  }

  predicate CoolingDown(cfg: Config, since: Option<nat>, now: nat) {
    since.Some? && SaturatingSub(now, since.value) < cfg.cooldown
  }

  function HysteresisAssessment(cfg: Config, since: Option<nat>, now: nat): Action {
    if CoolingDown(cfg, since, now) then Throttle else Allow
  }

  /** Neither the disk, nor the I/O pressure, nor the overall pressure calls for anything. */
  predicate Quiet(cfg: Config, i: Input) {
    && DiskAssessment(cfg, i.disk) == Allow
    && IoAssessment(cfg, i.pressure) == Allow
    && OverallAssessment(cfg, i.pressure.MaxPressure()) == Allow
  }

  function Stricter(a: Action, b: Action): Action {
    if a.Level() > b.Level() then a else b
  }

  /** The strictest of the four assessments, and the time the spell of pressure began. */
  function Step(cfg: Config, st: State, i: Input): State {
    var action := Stricter(
      Stricter(DiskAssessment(cfg, i.disk), IoAssessment(cfg, i.pressure)),
      Stricter(OverallAssessment(cfg, i.pressure.MaxPressure()), HysteresisAssessment(cfg, st.since, i.now)));
    State(action, if action == Allow then None else if st.since == None then Some(i.now) else st.since)
  }

  // ---- the controller ----

  datatype Stats = Stats(
    evaluations: nat, allowed: nat, throttled: nat, rejected: nat, criticalOnly: nat,
    transfersRejected: nat, consecutiveSame: nat, diskEscalations: nat, lastActionChange: nat)

  function One(b: bool): nat { if b then 1 else 0 }

  /** The statistics after one evaluation with the given result. */
  function Counted(s: Stats, result: Action, previous: Action, escalated: bool, stamp: nat): Stats {
    Stats(
      s.evaluations + 1,
      s.allowed + One(result == Allow),
      s.throttled + One(result == Throttle),
      s.rejected + One(result == Reject),
      s.criticalOnly + One(result == CriticalOnly),
      s.transfersRejected,
      if result == previous then s.consecutiveSame + 1 else 0,
      s.diskEscalations + One(escalated),
      if result == previous then s.lastActionChange else stamp)
  }

  /** The trace record of a change of action. */
  datatype Escalation = Escalation(memory: real, vram: real, io: real, at: nat)

  class BackpressureController {
    const config: Config
    var action: Action
    var pressureSince: Option<nat>
    var stats: Stats
    var activations: seq<Action>   // the level of every event emitted
    var trace: seq<Escalation>

    ghost predicate Valid()
      reads this
    {
      stats.evaluations == stats.allowed + stats.throttled + stats.rejected + stats.criticalOnly
    }

    function Value(): State
      reads this
    {
      State(action, pressureSince)
    }

    constructor (config: Config)
      ensures Valid() && Value() == State(Allow, None) && this.config == config
      ensures stats == Stats(0, 0, 0, 0, 0, 0, 0, 0, 0) && activations == [] && trace == []
    {
      this.config := config;
      action, pressureSince, activations, trace := Allow, None, [], [];
      stats := Stats(0, 0, 0, 0, 0, 0, 0, 0, 0);
    }

    method EvaluateDiskCongestion(disk: Option<DiskMetrics>) returns (escalation: Option<Action>)
      ensures escalation == if DiskAssessment(config, disk) == Allow then None else Some(DiskAssessment(config, disk))
    {
      if disk == None {
        return None;
      }
      if disk.value.queueDepth >= config.diskQueueHardLimit {
        return Some(Reject);
      }
      var softTriggered := disk.value.queueDepth >= config.diskQueueSoftLimit;
      var latencyTriggered := disk.value.rollingLatency >= config.diskLatencyThreshold;
      if softTriggered || latencyTriggered {
        return Some(Throttle);
      }
      return None;
    }

    method EvaluateOverall(maxPressure: real) returns (overall: Action)
      ensures overall == OverallAssessment(config, maxPressure)
    {
      if maxPressure >= config.criticalThreshold {
        return CriticalOnly;
      } else if maxPressure >= config.rejectThreshold {
        return Reject;
      } else if maxPressure >= config.throttleThreshold {
        return Throttle;
      }
      return Allow;
    }

    /** Clearing `pressureSince` is modelled by its intended effect; see `EvaluateLocks` for what the code does. */
    method Assess(i: Input) returns (result: Action, escalated: bool)
      modifies this`pressureSince
      ensures State(result, pressureSince) == Step(config, old(Value()), i)
      ensures escalated <==> DiskAssessment(config, i.disk) != Allow
    {
      var maxPressure := i.pressure.MaxPressure();
      var diskEscalation := EvaluateDiskCongestion(i.disk);
      var ioEscalation: Option<Action> := None;
      if i.pressure.ioPressure >= config.ioHardLimit || i.pressure.queueDepth > config.queueDepthThreshold * 2 {
        ioEscalation := Some(Reject);
      } else if i.pressure.ioPressure >= config.ioSoftLimit || i.pressure.queueDepth > config.queueDepthThreshold {
        ioEscalation := Some(Throttle);
      }
      var combined := ioEscalation;
      if diskEscalation.Some? && ioEscalation.Some? {
        combined := if diskEscalation.value.Level() > ioEscalation.value.Level() then diskEscalation else ioEscalation;
      } else if diskEscalation.Some? {
        combined := diskEscalation;
      }

      var overall := EvaluateOverall(maxPressure);
      if combined.Some? {
        result := if combined.value.Level() > overall.Level() then combined.value else overall;
      } else if overall != Allow {
        result := overall;
      } else if pressureSince.Some? {
        if SaturatingSub(i.now, pressureSince.value) < config.cooldown {
          result := Throttle;
        } else {
          pressureSince := None;
          result := Allow;
        }
      } else {
        result := Allow;
      }

      if result != Allow && pressureSince == None {
        pressureSince := Some(i.now);
      }
      escalated := diskEscalation.Some?;
    }

    /**
     * `stamp` and `later` are readings of the wall clock. A change of action is traced and announced, a return to
     * `Allow` included.
     */
    method Evaluate(i: Input, stamp: nat, later: nat) returns (result: Action)
      requires Valid()
      modifies this
      ensures Valid() && Value() == Step(config, old(Value()), i) && result == action
      ensures stats == Counted(old(stats), action, old(action), DiskAssessment(config, i.disk) != Allow, stamp)
      ensures activations == old(activations) + if action == old(action) then [] else [action]
      ensures trace == old(trace) + if action == old(action) then []
        else [Escalation(i.pressure.memoryPressure, i.pressure.vramPressure, i.pressure.ioPressure, later)]
    {
      var assessed, escalated := Assess(i);
      var previous := action;
      result, action := assessed, assessed;
      CountEvaluation(result, previous, escalated, stamp);
      if previous != result {
        trace := trace
          + [Escalation(i.pressure.memoryPressure, i.pressure.vramPressure, i.pressure.ioPressure, later)];
        activations := activations + [result];
      }
    }

    method CountEvaluation(result: Action, previous: Action, escalated: bool, stamp: nat)
      requires Valid()
      modifies this`stats
      ensures Valid() && stats == Counted(old(stats), result, previous, escalated, stamp)
    {
      stats := stats.(evaluations := stats.evaluations + 1);
      match result {
        case Allow => stats := stats.(allowed := stats.allowed + 1);
        case Throttle => stats := stats.(throttled := stats.throttled + 1);
        case Reject => stats := stats.(rejected := stats.rejected + 1);
        case CriticalOnly => stats := stats.(criticalOnly := stats.criticalOnly + 1);
      }
      if previous != result {
        stats := stats.(lastActionChange := stamp, consecutiveSame := 0);
      } else {
        stats := stats.(consecutiveSame := stats.consecutiveSame + 1);
      }
      if escalated {
        stats := stats.(diskEscalations := stats.diskEscalations + 1);
      }
    }

    method ShouldAllow(priority: TransferPriority) returns (allowed: bool)
      requires Valid()
      modifies this`stats
      ensures Valid() && allowed == action.Allows(priority)
      ensures stats == if allowed then old(stats) else old(stats).(transfersRejected := old(stats).transfersRejected + 1)
    {
      allowed := action.Allows(priority);
      if !allowed {
        stats := stats.(transfersRejected := stats.transfersRejected + 1);
      }
    }
  }

  // ---- what each level takes ----

  predicate AnyPressure(p: PressureState, threshold: real) {
    p.memoryPressure >= threshold || p.vramPressure >= threshold || p.ioPressure >= threshold
  }

  /** Some reading calls for rejecting. */
  predicate Severe(cfg: Config, i: Input) {
    || (i.disk.Some? && i.disk.value.queueDepth >= cfg.diskQueueHardLimit)
    || i.pressure.ioPressure >= cfg.ioHardLimit
    || i.pressure.queueDepth > 2 * cfg.queueDepthThreshold
    || AnyPressure(i.pressure, cfg.rejectThreshold)
    || AnyPressure(i.pressure, cfg.criticalThreshold)
  }

  /** Some reading calls for throttling at least. */
  predicate Raised(cfg: Config, i: Input) {
    || Severe(cfg, i)
    || (i.disk.Some? && (i.disk.value.queueDepth >= cfg.diskQueueSoftLimit
                         || i.disk.value.rollingLatency >= cfg.diskLatencyThreshold))
    || i.pressure.ioPressure >= cfg.ioSoftLimit
    || i.pressure.queueDepth > cfg.queueDepthThreshold
    || AnyPressure(i.pressure, cfg.throttleThreshold)
  }

  /** Each level in terms of the readings; an open cooldown calls for throttling and no more. */
  lemma LevelIff(cfg: Config, st: State, i: Input)
    ensures Step(cfg, st, i).action == CriticalOnly <==> AnyPressure(i.pressure, cfg.criticalThreshold)
    ensures Step(cfg, st, i).action in {Reject, CriticalOnly} <==> Severe(cfg, i)
    ensures Step(cfg, st, i).action != Allow <==>
      Raised(cfg, i) || (st.since.Some? && SaturatingSub(i.now, st.since.value) < cfg.cooldown)
  {
  }

  /** Who is admitted: critical transfers always, high ones unless a reading is severe, others only if all is quiet. */
  lemma AdmitsIff(cfg: Config, st: State, i: Input, p: TransferPriority)
    ensures Step(cfg, st, i).action.Allows(p) <==>
      || p == Critical
      || (p == High && !Severe(cfg, i))
      || (!Raised(cfg, i) && (st.since.Some? ==> SaturatingSub(i.now, st.since.value) >= cfg.cooldown))
  {
    LevelIff(cfg, st, i);
  }

  // ---- more pressure never loosens the action ----

  predicate NoHigher(a: Input, b: Input) {
    && a.pressure.memoryPressure <= b.pressure.memoryPressure
    && a.pressure.vramPressure <= b.pressure.vramPressure
    && a.pressure.ioPressure <= b.pressure.ioPressure
    && a.pressure.queueDepth <= b.pressure.queueDepth
    && (a.disk.Some? ==>
          (b.disk.Some? && a.disk.value.queueDepth <= b.disk.value.queueDepth
           && a.disk.value.rollingLatency <= b.disk.value.rollingLatency))
    && b.now <= a.now
  }

  /**
   * From the same state, raising any pressure, queue depth or latency, or evaluating sooner, never loosens the
   * action: whatever the stricter one admits, the other admits too. Thresholds need not be in any order.
   */
  lemma MorePressureNeverLoosens(cfg: Config, st: State, a: Input, b: Input, p: TransferPriority)
    requires NoHigher(a, b)
    ensures Step(cfg, st, a).action.Level() <= Step(cfg, st, b).action.Level()
    ensures Step(cfg, st, b).action.Allows(p) ==> Step(cfg, st, a).action.Allows(p)
    ensures Step(cfg, st, b).action.Allows(Critical)
  {
  }

  // ---- runs over time ----

  function After(cfg: Config, inputs: seq<Input>): State {
    if inputs == [] then State(Allow, None)
    else Step(cfg, After(cfg, inputs[..|inputs| - 1]), inputs[|inputs| - 1])
  }

  /** The clock is monotonic. */
  ghost predicate Timed(inputs: seq<Input>) {
    forall i, j :: 0 <= i < j < |inputs| ==> inputs[i].now <= inputs[j].now
  }

  /** When the spell of pressure that the run ends in began. */
  function Onset(cfg: Config, inputs: seq<Input>): Option<nat> {
    if inputs == [] || After(cfg, inputs).action == Allow then None
    else
      var front := inputs[..|inputs| - 1];
      if After(cfg, front).action == Allow then Some(inputs[|inputs| - 1].now) else Onset(cfg, front)
  }

  /** All times at which the action changed from `Allow` to something stricter. */
  function Onsets(cfg: Config, inputs: seq<Input>): seq<int> {
    if inputs == [] then []
    else
      var front := inputs[..|inputs| - 1];
      Onsets(cfg, front) +
      (if After(cfg, front).action == Allow && After(cfg, inputs).action != Allow then [inputs[|inputs| - 1].now] else [])
  }

  /** `since` is set exactly while the last action is not `Allow`, and then holds the onset of the spell. */
  lemma {:induction false} SinceIsOnset(cfg: Config, inputs: seq<Input>)
    ensures After(cfg, inputs).since == Onset(cfg, inputs)
    ensures After(cfg, inputs).since.Some? <==> After(cfg, inputs).action != Allow
  {
    if inputs != [] {
      SinceIsOnset(cfg, inputs[..|inputs| - 1]);
    }
  }

  lemma {:induction false} OnsetInPast(cfg: Config, inputs: seq<Input>)
    requires Timed(inputs) && Onset(cfg, inputs).Some?
    ensures inputs != [] && Onset(cfg, inputs).value <= inputs[|inputs| - 1].now
  {
    var front := inputs[..|inputs| - 1];
    if After(cfg, front).action != Allow {
      OnsetInPast(cfg, front);
    }
  }

  /** An evaluation allows exactly if its input is quiet and the cooldown, counted from the onset, has passed. */
  lemma {:induction false} AllowsIff(cfg: Config, inputs: seq<Input>)
    requires Timed(inputs) && inputs != []
    ensures var onset, last := Onset(cfg, inputs[..|inputs| - 1]), inputs[|inputs| - 1];
      After(cfg, inputs).action == Allow <==>
        Quiet(cfg, last) && (onset.Some? ==> onset.value + cfg.cooldown <= last.now)
  {
    var front := inputs[..|inputs| - 1];
    SinceIsOnset(cfg, front);
    if Onset(cfg, front).Some? {
      OnsetInPast(cfg, front);
      assert front[|front| - 1].now <= inputs[|inputs| - 1].now;
    }
  }

  /** The onset read off the inputs alone: a spell opens at a loud input and ends at a quiet one past the cooldown. */
  function Spell(cfg: Config, inputs: seq<Input>): Option<nat> {
    if inputs == [] then None
    else
      var before, last := Spell(cfg, inputs[..|inputs| - 1]), inputs[|inputs| - 1];
      if Quiet(cfg, last) && (before.Some? ==> before.value + cfg.cooldown <= last.now) then None
      else if before.Some? then before
      else Some(last.now)
  }

  lemma {:induction false} SpellIsOnset(cfg: Config, inputs: seq<Input>)
    requires Timed(inputs)
    ensures Onset(cfg, inputs) == Spell(cfg, inputs)
  {
    if inputs != [] {
      var front := inputs[..|inputs| - 1];
      SpellIsOnset(cfg, front);
      AllowsIff(cfg, inputs);
      SinceIsOnset(cfg, front);
    }
  }

  // ---- the wait after pressure has subsided ----

  /** The time of the last input that was not quiet. */
  function LastLoud(cfg: Config, inputs: seq<Input>): Option<nat> {
    if inputs == [] then None
    else if !Quiet(cfg, inputs[|inputs| - 1]) then Some(inputs[|inputs| - 1].now)
    else LastLoud(cfg, inputs[..|inputs| - 1])
  }

  lemma {:induction false} LoudInPast(cfg: Config, inputs: seq<Input>)
    requires Timed(inputs) && LastLoud(cfg, inputs).Some?
    ensures inputs != [] && LastLoud(cfg, inputs).value <= inputs[|inputs| - 1].now
  {
    if Quiet(cfg, inputs[|inputs| - 1]) {
      LoudInPast(cfg, inputs[..|inputs| - 1]);
    }
  }

  lemma {:induction false} SpellWasLoud(cfg: Config, inputs: seq<Input>)
    requires Spell(cfg, inputs).Some?
    ensures LastLoud(cfg, inputs).Some?
  {
    var front := inputs[..|inputs| - 1];
    if Spell(cfg, front).Some? {
      SpellWasLoud(cfg, front);
    }
  }

  /** The last evaluation ends a spell sooner than the cooldown after the last loud input. */
  predicate CutShort(cfg: Config, inputs: seq<Input>) {
    inputs != [] &&
    var front, last := inputs[..|inputs| - 1], inputs[|inputs| - 1];
    && After(cfg, front).action != Allow && After(cfg, inputs).action == Allow
    && LastLoud(cfg, front).Some? && last.now < LastLoud(cfg, front).value + cfg.cooldown
  }

  /** The configured wait is meant to start when pressure subsides; it is cut short exactly in this window. */
  lemma {:induction false} CutShortIff(cfg: Config, inputs: seq<Input>)
    requires Timed(inputs) && inputs != []
    ensures var front, last := inputs[..|inputs| - 1], inputs[|inputs| - 1];
      var onset, loud := Spell(cfg, front), LastLoud(cfg, front);
      CutShort(cfg, inputs) <==>
        && Quiet(cfg, last) && onset.Some? && loud.Some?
        && onset.value + cfg.cooldown <= last.now < loud.value + cfg.cooldown
  {
    var front := inputs[..|inputs| - 1];
    SinceIsOnset(cfg, front);
    SpellIsOnset(cfg, front);
    AllowsIff(cfg, inputs);
  }

  function At(i: Input, now: nat): Input { i.(now := now) }

  /** However long the cooldown, pressure that lasts as long as the cooldown is followed by no wait at all. */
  lemma {:induction false} NoWaitAfterLongPressure(cfg: Config, loud: Input, quiet: Input)
    requires !Quiet(cfg, loud) && Quiet(cfg, quiet) && cfg.cooldown > 0
    ensures var inputs := [At(loud, 0), At(loud, cfg.cooldown), At(quiet, cfg.cooldown)];
      Timed(inputs) && CutShort(cfg, inputs)
  {
    var one := [At(loud, 0)];
    var two := [At(loud, 0), At(loud, cfg.cooldown)];
    var inputs := [At(loud, 0), At(loud, cfg.cooldown), At(quiet, cfg.cooldown)];
    assert one[..0] == [] && two[..1] == one && inputs[..2] == two;
    assert Spell(cfg, one) == Some(0);
    assert Spell(cfg, two) == Some(0) && LastLoud(cfg, two) == Some(cfg.cooldown);
    CutShortIff(cfg, inputs);
  }

  /** So the wait is kept in all runs exactly if there is nothing to wait for. */
  lemma {:induction false} WaitKeptIffNone(cfg: Config, loud: Input, quiet: Input)
    requires !Quiet(cfg, loud) && Quiet(cfg, quiet)
    ensures (forall inputs :: Timed(inputs) ==> !CutShort(cfg, inputs)) <==> cfg.cooldown == 0
  {
    if cfg.cooldown > 0 {
      NoWaitAfterLongPressure(cfg, loud, quiet);
    } else {
      forall inputs: seq<Input> | Timed(inputs) ensures !CutShort(cfg, inputs) {
        if inputs != [] && LastLoud(cfg, inputs[..|inputs| - 1]).Some? {
          var front := inputs[..|inputs| - 1];
          LoudInPast(cfg, front);
          assert front[|front| - 1].now <= inputs[|inputs| - 1].now;
        }
      }
    }
  }

  const SAMPLE_CONFIG := Config(0.7, 0.85, 0.95, 0.7, 0.9, 100, 32, 64, 1000, 10)

  /** Memory pressure of nine tenths at 0 and at 10, and none at 11. */
  function Relapse(): seq<Input> {
    [Input(PressureState(0.9, 0.0, 0.0, 0, 0), None, 0),
     Input(PressureState(0.9, 0.0, 0.0, 0, 0), None, 10),
     Input(PressureState(0.0, 0.0, 0.0, 0, 0), None, 11)]
  }

  /** With a cooldown of 10, transfers are allowed again one tick after pressure ended. */
  lemma {:induction false} AllowedOneTickLater()
    ensures Timed(Relapse()) && CutShort(SAMPLE_CONFIG, Relapse())
    ensures After(SAMPLE_CONFIG, Relapse()).action == Allow && LastLoud(SAMPLE_CONFIG, Relapse()) == Some(10)
  {
    var inputs := Relapse();
    assert inputs[..2][..1] == inputs[..1] && inputs[..1][..0] == [];
    assert Spell(SAMPLE_CONFIG, inputs[..1]) == Some(0);
    assert Spell(SAMPLE_CONFIG, inputs[..2]) == Some(0) && LastLoud(SAMPLE_CONFIG, inputs[..2]) == Some(10);
    CutShortIff(SAMPLE_CONFIG, inputs);
  }

  // ---- onsets ----

  ghost predicate Spaced(cfg: Config, inputs: seq<Input>) {
    var onsets, st := Onsets(cfg, inputs), After(cfg, inputs);
    && SpacedBy(onsets, cfg.cooldown)
    && (st.since.Some? ==> onsets != [] && onsets[|onsets| - 1] == st.since.value)
    && (st.since == None && onsets != [] ==> onsets[|onsets| - 1] + cfg.cooldown <= inputs[|inputs| - 1].now)
    && (inputs == [] ==> onsets == [])
  }

  lemma {:induction false} OnsetsSpaced(cfg: Config, inputs: seq<Input>)
    requires Timed(inputs)
    ensures Spaced(cfg, inputs)
  {
    if inputs != [] {
      var front, last := inputs[..|inputs| - 1], inputs[|inputs| - 1];
      OnsetsSpaced(cfg, front);
      SinceIsOnset(cfg, front);
      SinceIsOnset(cfg, inputs);
      assert front != [] ==> front[|front| - 1].now <= last.now;
      if After(cfg, front).action == Allow && After(cfg, inputs).action != Allow {
        SpacingGrows(Onsets(cfg, front), last.now, cfg.cooldown);
      } else if After(cfg, inputs).action == Allow {
        AllowsIff(cfg, inputs);
      }
    }
  }

  /** Spells of pressure begin at least a cooldown apart: at most `width / cooldown + 1` of them in any window. */
  lemma {:induction false} FewOnsets(cfg: Config, inputs: seq<Input>, lo: int, width: nat)
    requires Timed(inputs) && 0 < cfg.cooldown
    ensures SpacedBy(Onsets(cfg, inputs), cfg.cooldown)
    ensures CountIn(Onsets(cfg, inputs), lo, lo + width) <= width / cfg.cooldown + 1
  {
    OnsetsSpaced(cfg, inputs);
    WindowBound(Onsets(cfg, inputs), cfg.cooldown, lo, width);
  }

  /** Loud at 0, then at every multiple of the cooldown quiet and at once loud again. */
  function Pulses(cfg: Config, loud: Input, quiet: Input, k: nat): seq<Input> {
    if k == 0 then [At(loud, 0)]
    else
      Pulses(cfg, loud, quiet, k - 1)
      + [At(quiet, Ticks(k, cfg.cooldown))] + [At(loud, Ticks(k, cfg.cooldown))]
  }

  lemma {:induction false} PulsesTimed(cfg: Config, loud: Input, quiet: Input, k: nat)
    ensures var inputs := Pulses(cfg, loud, quiet, k);
      Timed(inputs) && inputs != [] && inputs[|inputs| - 1].now == Ticks(k, cfg.cooldown)
  {
    if k > 0 {
      PulsesTimed(cfg, loud, quiet, k - 1);
      var front, t := Pulses(cfg, loud, quiet, k - 1), Ticks(k, cfg.cooldown);
    }
  }

  /** Within a spell, a quiet input past the cooldown ends it and a loud one at the same time opens the next. */
  lemma {:induction false} OnePulse(cfg: Config, front: seq<Input>, loud: Input, quiet: Input, t: nat)
    requires !Quiet(cfg, loud) && Quiet(cfg, quiet)
    requires After(cfg, front).since.Some? && After(cfg, front).since.value + cfg.cooldown <= t
    ensures var inputs := front + [At(quiet, t)] + [At(loud, t)];
      && After(cfg, inputs).action != Allow && After(cfg, inputs).since == Some(t)
      && Onsets(cfg, inputs) == Onsets(cfg, front) + [t]
  {
  }

  lemma FirstPulse(cfg: Config, loud: Input)
    requires !Quiet(cfg, loud)
    ensures After(cfg, [At(loud, 0)]).since == Some(0) && After(cfg, [At(loud, 0)]).action != Allow
    ensures Onsets(cfg, [At(loud, 0)]) == [0]
  {
    assert [] + [At(loud, 0)] == [At(loud, 0)];
  }

  lemma {:induction false} PulsesOnsets(cfg: Config, loud: Input, quiet: Input, k: nat, hi: nat)
    requires !Quiet(cfg, loud) && Quiet(cfg, quiet) && Ticks(k, cfg.cooldown) <= hi
    ensures var inputs := Pulses(cfg, loud, quiet, k);
      && After(cfg, inputs).action != Allow && After(cfg, inputs).since == Some(Ticks(k, cfg.cooldown))
      && CountIn(Onsets(cfg, inputs), 0, hi) == k + 1
  {
    if k == 0 {
      FirstPulse(cfg, loud);
      CountAppend([], 0, 0, hi);
    } else {
      var front := Pulses(cfg, loud, quiet, k - 1);
      PulsesOnsets(cfg, loud, quiet, k - 1, hi);
      OnePulse(cfg, front, loud, quiet, Ticks(k, cfg.cooldown));
      CountAppend(Onsets(cfg, front), Ticks(k, cfg.cooldown), 0, hi);
    }
  }

  /** The bound is attained: for every number of cooldowns some run has one onset more than that within them. */
  lemma {:induction false} OnsetBoundIsTight(cfg: Config, loud: Input, quiet: Input, k: nat)
    requires !Quiet(cfg, loud) && Quiet(cfg, quiet)
    ensures var inputs := Pulses(cfg, loud, quiet, k);
      Timed(inputs) && CountIn(Onsets(cfg, inputs), 0, k * cfg.cooldown) == k + 1
  {
    TicksMultiply(k, cfg.cooldown);
    PulsesTimed(cfg, loud, quiet, k);
    PulsesOnsets(cfg, loud, quiet, k, k * cfg.cooldown);
  }

  // ---- the lock on `pressure_since` ----

  datatype LockOp = Lock | Unlock

  /**
   * The operations of one evaluation on the mutex around `pressure_since`. The guard taken to inspect the
   * value lives until the action has been computed, so it is still held when the value is cleared.
   */
  function EvaluateLocks(cfg: Config, st: State, i: Input): seq<LockOp> {
    var inspect :=
      if !Quiet(cfg, i) then []
      else if st.since.Some? && !CoolingDown(cfg, st.since, i.now) then [Lock, Lock, Unlock, Unlock]
      else [Lock, Unlock];
    var track :=
      if Step(cfg, st, i).action == Allow then []
      else [Lock, Unlock] + (if st.since == None then [Lock, Unlock] else []);
    inspect + track
  }

  /** The mutex is not reentrant: locking it again while holding it never returns. */
  predicate Blocks(ops: seq<LockOp>, held: bool) {
    ops != [] && ((ops[0] == Lock && held) || Blocks(ops[1..], ops[0] == Lock))
  }

  lemma PairsNeverBlock()
    ensures !Blocks([], false) && !Blocks([Lock, Unlock], false)
    ensures !Blocks([Lock, Unlock, Lock, Unlock], false)
    ensures !Blocks([Lock, Unlock, Lock, Unlock, Lock, Unlock], false)
  {
  }

  /** The guard of the branch that clears the field. */
  predicate Clears(cfg: Config, st: State, i: Input) {
    Quiet(cfg, i) && st.since.Some? && SaturatingSub(i.now, st.since.value) >= cfg.cooldown
  }

  lemma LockShapes(cfg: Config, st: State, i: Input)
    ensures var ops := EvaluateLocks(cfg, st, i);
      if Clears(cfg, st, i) then ops == [Lock, Lock, Unlock, Unlock]
      else
        || ops == [] || ops == [Lock, Unlock] || ops == [Lock, Unlock, Lock, Unlock]
        || ops == [Lock, Unlock, Lock, Unlock, Lock, Unlock]
  {
  }

  /** An evaluation blocks on its own guard exactly if the input is quiet and the cooldown since the onset is over. */
  lemma BlocksIffGuard(cfg: Config, st: State, i: Input)
    ensures Blocks(EvaluateLocks(cfg, st, i), false) <==>
      Quiet(cfg, i) && st.since.Some? && SaturatingSub(i.now, st.since.value) >= cfg.cooldown
  {
    LockShapes(cfg, st, i);
    PairsNeverBlock();
    assert Blocks([Lock, Lock, Unlock, Unlock][1..], true);
    assert Blocks([Lock, Lock, Unlock, Unlock], false);
  }

  /** The `n`-th evaluation of the run blocks. */
  predicate BlocksAt(cfg: Config, inputs: seq<Input>, n: nat)
    requires n < |inputs|
  {
    Blocks(EvaluateLocks(cfg, After(cfg, inputs[..n]), inputs[n]), false)
  }

  /** `f` is the first input of the run that is not quiet. */
  ghost predicate FirstLoud(cfg: Config, inputs: seq<Input>, f: nat) {
    f < |inputs| && !Quiet(cfg, inputs[f]) && forall k :: 0 <= k < f ==> Quiet(cfg, inputs[k])
  }

  ghost predicate WithinCooldown(cfg: Config, inputs: seq<Input>, f: nat, k: nat)
    requires f < |inputs| && k < |inputs|
  {
    SaturatingSub(inputs[k].now, inputs[f].now) < cfg.cooldown
  }

  lemma {:induction false} QuietSoFar(cfg: Config, inputs: seq<Input>, n: nat)
    requires n <= |inputs| && forall k :: 0 <= k < n ==> Quiet(cfg, inputs[k])
    ensures After(cfg, inputs[..n]) == State(Allow, None)
  {
    if n > 0 {
      QuietSoFar(cfg, inputs, n - 1);
      assert inputs[..n][..n - 1] == inputs[..n - 1];
    }
  }

  /** As long as nothing has blocked, the field holds the time of the first loud input. */
  lemma {:induction false} HeldSince(cfg: Config, inputs: seq<Input>, f: nat, n: nat)
    requires FirstLoud(cfg, inputs, f) && f < n <= |inputs|
    requires forall k :: f < k < n ==> !BlocksAt(cfg, inputs, k)
    ensures After(cfg, inputs[..n]).since == Some(inputs[f].now)
    decreases n
  {
    assert inputs[..n][..n - 1] == inputs[..n - 1];
    if n == f + 1 {
      QuietSoFar(cfg, inputs, f);
    } else {
      HeldSince(cfg, inputs, f, n - 1);
      assert !BlocksAt(cfg, inputs, n - 1);
      BlocksIffGuard(cfg, After(cfg, inputs[..n - 1]), inputs[n - 1]);
      assert !Clears(cfg, After(cfg, inputs[..n - 1]), inputs[n - 1]);
    }
  }

  /** Up to the first loud input nothing blocks. */
  lemma {:induction false} NoBlockBefore(cfg: Config, inputs: seq<Input>, n: nat)
    requires n < |inputs| && forall k :: 0 <= k < n ==> Quiet(cfg, inputs[k])
    ensures !BlocksAt(cfg, inputs, n)
  {
    QuietSoFar(cfg, inputs, n);
    BlocksIffGuard(cfg, After(cfg, inputs[..n]), inputs[n]);
  }

  lemma {:induction false} NoBlockAfter(cfg: Config, inputs: seq<Input>, f: nat, n: nat)
    requires FirstLoud(cfg, inputs, f) && n < |inputs|
    requires forall k :: f < k < |inputs| && Quiet(cfg, inputs[k]) ==> WithinCooldown(cfg, inputs, f, k)
    ensures !BlocksAt(cfg, inputs, n)
    decreases n
  {
    if n <= f {
      NoBlockBefore(cfg, inputs, n);
    } else {
      forall k | f < k < n ensures !BlocksAt(cfg, inputs, k) {
        NoBlockAfter(cfg, inputs, f, k);
      }
      HeldSince(cfg, inputs, f, n);
      BlocksIffGuard(cfg, After(cfg, inputs[..n]), inputs[n]);
    }
  }

  lemma {:induction false} SomeFirstLoud(cfg: Config, inputs: seq<Input>, n: nat) returns (f: nat)
    requires n < |inputs| && !Quiet(cfg, inputs[n])
    ensures f <= n && FirstLoud(cfg, inputs, f)
  {
    if k :| 0 <= k < n && !Quiet(cfg, inputs[k]) {
      f := SomeFirstLoud(cfg, inputs, k);
    } else {
      f := n;
    }
  }

  /**
   * Every evaluation of a run returns exactly if, after the first loud input, every quiet one comes within the
   * cooldown of it: the code does not survive the end of its first spell of pressure.
   */
  lemma {:induction false} ReturnsIffFirstSpellLasts(cfg: Config, inputs: seq<Input>)
    ensures
      (forall n :: 0 <= n < |inputs| ==> !BlocksAt(cfg, inputs, n))
      <==>
      (forall f: nat, k: nat :: FirstLoud(cfg, inputs, f) && f < k < |inputs| && Quiet(cfg, inputs[k]) ==>
          WithinCooldown(cfg, inputs, f, k))
  {
    if forall n :: 0 <= n < |inputs| ==> !BlocksAt(cfg, inputs, n) {
      forall f: nat, k: nat | FirstLoud(cfg, inputs, f) && f < k < |inputs| && Quiet(cfg, inputs[k])
        ensures WithinCooldown(cfg, inputs, f, k)
      {
        HeldSince(cfg, inputs, f, k);
        BlocksIffGuard(cfg, After(cfg, inputs[..k]), inputs[k]);
        assert !BlocksAt(cfg, inputs, k);
      }
    }
    if forall f: nat, k: nat :: FirstLoud(cfg, inputs, f) && f < k < |inputs| && Quiet(cfg, inputs[k]) ==>
        WithinCooldown(cfg, inputs, f, k)
    {
      forall n | 0 <= n < |inputs| ensures !BlocksAt(cfg, inputs, n) {
        if m :| 0 <= m < n && !Quiet(cfg, inputs[m]) {
          var f := SomeFirstLoud(cfg, inputs, m);
          NoBlockAfter(cfg, inputs, f, n);
        } else {
          NoBlockBefore(cfg, inputs, n);
        }
      }
    }
  }

  /** The third evaluation of the sample run never returns. */
  lemma {:induction false} SampleRunBlocks()
    ensures BlocksAt(SAMPLE_CONFIG, Relapse(), 2)
    ensures !BlocksAt(SAMPLE_CONFIG, Relapse(), 0) && !BlocksAt(SAMPLE_CONFIG, Relapse(), 1)
  {
    var inputs := Relapse();
    NoBlockBefore(SAMPLE_CONFIG, inputs, 0);
    HeldSince(SAMPLE_CONFIG, inputs, 0, 1);
    BlocksIffGuard(SAMPLE_CONFIG, After(SAMPLE_CONFIG, inputs[..1]), inputs[1]);
    HeldSince(SAMPLE_CONFIG, inputs, 0, 2);
    BlocksIffGuard(SAMPLE_CONFIG, After(SAMPLE_CONFIG, inputs[..2]), inputs[2]);
  }

  // ---- the statistics over a run ----

  /** One evaluation as the statistics see it. */
  datatype Evaluation = Evaluation(result: Action, escalated: bool, stamp: nat)

  function ResultOf(run: seq<Evaluation>): Action {
    if run == [] then Allow else run[|run| - 1].result
  }

  function Tally(run: seq<Evaluation>): Stats {
    if run == [] then Stats(0, 0, 0, 0, 0, 0, 0, 0, 0)
    else
      var front, last := run[..|run| - 1], run[|run| - 1];
      Counted(Tally(front), last.result, ResultOf(front), last.escalated, last.stamp)
  }

  function Results(run: seq<Evaluation>): (results: seq<Action>)
    ensures |results| == |run| && forall i :: 0 <= i < |run| ==> results[i] == run[i].result
  {
    if run == [] then [] else Results(run[..|run| - 1]) + [run[|run| - 1].result]
  }

  function Escalations(run: seq<Evaluation>): (escalations: seq<bool>)
    ensures |escalations| == |run| && forall i :: 0 <= i < |run| ==> escalations[i] == run[i].escalated
  {
    if run == [] then [] else Escalations(run[..|run| - 1]) + [run[|run| - 1].escalated]
  }

  /** Over a run each counter is the number of evaluations with that result. */
  lemma {:induction false} TallyCounts(run: seq<Evaluation>)
    ensures var s, results := Tally(run), multiset(Results(run));
      && s.evaluations == |run| && s.transfersRejected == 0
      && s.allowed == results[Allow] && s.throttled == results[Throttle]
      && s.rejected == results[Reject] && s.criticalOnly == results[CriticalOnly]
  {
    if run != [] {
      TallyCounts(run[..|run| - 1]);
    }
  }

  lemma {:induction false} TallyEscalations(run: seq<Evaluation>)
    ensures Tally(run).diskEscalations == multiset(Escalations(run))[true]
  {
    if run != [] {
      TallyEscalations(run[..|run| - 1]);
    }
  }

  /** Evaluation `n` of the run changes the action. */
  predicate ChangesAt(run: seq<Evaluation>, n: nat)
    requires n < |run|
  {
    run[n].result != ResultOf(run[..n])
  }

  ghost predicate StreakIs(run: seq<Evaluation>, streak: nat, changed: nat) {
    var n := |run|;
    && streak <= n
    && (forall m :: n - streak <= m < n ==> !ChangesAt(run, m))
    && (if streak < n then ChangesAt(run, n - streak - 1) && changed == run[n - streak - 1].stamp else changed == 0)
  }

  /** The streak counts the evaluations since the last change of action, and the change time is its wall clock. */
  lemma {:induction false} TallyStreak(run: seq<Evaluation>)
    ensures var s := Tally(run); StreakIs(run, s.consecutiveSame, s.lastActionChange)
  {
    if run != [] {
      var n := |run| - 1;
      var front := run[..n];
      TallyStreak(front);
      forall m | 0 <= m < n ensures ChangesAt(front, m) == ChangesAt(run, m) {
        assert front[..m] == run[..m];
      }
    }
  }
}

# GhostPages control plane, verified

A model in Dafny of the stateful control plane of the GhostPages daemon: the migration engine with its locks, its
cooldown and its active set; the lock-free latency average; the event emitter and the multiplexer that checks event
order; the I/O scheduler and the run-time checks over it; the backpressure controller; the backend health tracker; and
the two bounded histories with their trends. `dafny verify dfyconfig.toml` checks everything.

Objects that the daemon updates in place are classes, and each of their methods is proved against a function on values.
The main theorems are about those functions, over every input, every run or every interleaving. Protocols that several
threads take part in are transition systems: one step is one atomic action, and a run is any sequence of enabled steps.

| component | files |
|---|---|
| migration engine | `MigrationEngine`, `MigrationSelection`, `EvictionCooldown`, `MigrationConcurrency`, `MigrationLocks`, `LockOrder`, `LockGraph` |
| I/O metrics | `IoMetrics`, `EmaLatency`, `LockFreeSteps`, `LockFreeLatency`, `LockFreeFactor`, `LockFreeRetries` |
| event ordering | `EventBus`, `EventMultiplexer` |
| I/O scheduler | `IoScheduler`, `IoInvariants` |
| backpressure | `Backpressure` |
| backend health | `Health` |
| histories | `PressureHistory`, `HotnessHistory`, `AccessTrend` |
| shared | `Types`, `Sequences`, `Spacing` |

## Where the code differs from what is said about it

- Emitter clones stamp a record and send it in two steps. The documentation of the emitter promises ids in order; two
  clones can deliver them out of order (`ClonesCanReorder`). `ReorderingIffOvertaken` says exactly when that happens.
- `evaluate` in the migration engine announces a decision for every admitted chunk, also for those it then cuts off.
  `AllReturnedIffRoom` says when the two agree, `AnnouncedButCutOff` shows an evaluation in which they do not.
- `BackpressureController::evaluate` locks `pressure_since` a second time while the guard of the enclosing `if let` is
  still alive. `BlocksIffGuard` gives the guard under which an evaluation blocks on itself. `ReturnsIffFirstSpellLasts`
  says for which inputs a whole run is free of it, and `SampleRunBlocks` shows a run that is not. All other results on
  backpressure are about the intended effect of that branch, clearing the field.
- The backpressure cooldown is documented as a wait after pressure subsides; the code counts it from the onset.
  `CutShortIff` says exactly which releases break the documented wait and `WaitKeptIffNone` that every positive cooldown
  is broken in some run. In `AllowedOneTickLater` a cooldown of 10 is over one tick after pressure ended.
- `io_request_id_monotonic` is documented as following from monotone id allocation. It holds throughout a run exactly if
  requests complete smallest id first (`MonotonicIffSmallestFirst`); `YoungerFirstTrips` is a run in which it fails.
- `io_failure_eventual` is documented as counting consecutive failures; it counts all of them (`FailureCheckIff`), so 257
  failures trip it with a success after each (`ScatteredFailuresTrip`).
- `io_buffer_within_capacity` cannot fail exactly if the scheduler's own limit is at most 4096 (`CapacityCheckIffLimit`).
- The ordering check skips a record that follows an id of 0 (`ZeroHidesAGap`). `ContiguousIffSilent` says when silence
  still means a contiguous run.
- `reset` changes a tier's health without an event, so replaying the events reproduces the state exactly if every reset
  finds the tier healthy or untracked (`ReplayIffQuietResets`, `ResetGoesUnreported`).
- The truncated latency average stops short of a steady load above it and stays there (`RestsShortOfTheLoad`).
  `ReachesIff` says exactly when a steady load is reached.
- A pressure window read backwards has the opposite trend, except that for every odd length from five on some window
  has not (`LopsidedIffOdd`): the middle reading counts to the later half both ways.
- A region that only warms up can be called flapping, with three to five observations and with no other number
  (`MistakenIffFewObservations`).

## Assumptions

- Times are natural numbers in the unit of the clock they are compared with. The code computes cooldowns in
  microseconds and reads a clock in milliseconds; the results are stated in ticks of that clock.
- `f32` and `f64` values are exact numbers, counters do not overflow, and there is no NaN among the hotness scores. A
  standard deviation above half the mean is stated without the root, as four times the variance above the squared mean.
- The placement policy is a parameter. Its victim selection, asked about one candidate, returns that candidate or
  nothing.
- The latency cell is one sequentially consistent location: its `Relaxed` loads read the current value.
- A swap on the latency cell either sees the loaded value or fails; it does not fail spuriously.
- Pushing into a pressure history of capacity 0 panics in the code; in the model `Push` requires a positive capacity.
- The run-time checks are applied to the scheduler's own pending and completed requests, with the in-flight count taken
  from its events. The daemon feeds them less: the number pending and an empty completed list
  (crates/ghost-daemon/src/orchestrator.rs:1067-1068).
- Completing an unknown request panics in the code; in the model the call reports `ok == false` and changes nothing.

## Model

| member | source | states |
|---|---|---|
| `LockOrder.RunKeepsGood` | crates/ghost-daemon/src/migration.rs:200-606 | along every interleaving of disciplined threads, conflicting holds are excluded, the discipline is kept, and each step uses up exactly one operation |
| `LockOrder.Progress` | crates/ghost-daemon/src/migration.rs:200-606 | threads that acquire in ascending rank never deadlock: work left means some thread can step, even with writers preferred over readers, and the run goes on with that step |
| `MigrationLocks.CallNeutral` | crates/ghost-daemon/src/migration.rs:200-606 | on every path of every engine operation each acquisition outranks all locks held, and all are released in the end |
| `MigrationLocks.EngineNeverDeadlocks` | crates/ghost-daemon/src/migration.rs:200-606 | any number of threads running any engine calls: exclusion holds in every reachable state, and all are done or one can step and the run goes on |
| `MigrationLocks.MaximalRunsFinish` | crates/ghost-daemon/src/migration.rs:200-606 | a run that cannot be extended has finished every call, with every lock free, after exactly as many steps as the programs have operations |
| `LockGraph.GraphIsExact` | crates/ghost-daemon/src/migration.rs:200-606 | one lock is taken while holding another on some path of some operation if and only if the pair is one of fourteen |
| `LockFreeLatency.UpdatesLinearise` | crates/ghost-daemon/src/io_metrics.rs:231-252 | in every interleaving the latency is the sequential fold of the finished updates in swap order, each exactly once and no unfinished one |
| `LockFreeFactor.FactorAsRead` | crates/ghost-daemon/src/io_metrics.rs:232 | every finished update is folded in with the factor in force when that update read it |
| `LockFreeFactor.OneFactor` | crates/ghost-daemon/src/io_metrics.rs:231-252 | while nobody changes the factor, the latency is the fold of the finished samples with that one factor |
| `LockFreeLatency.RetriesBounded` | crates/ghost-daemon/src/io_metrics.rs:231-252 | `n` concurrent updates fail at most `n(n-1)/2` swaps in all, and an update at most once per update finished before it |
| `LockFreeRetries.RetryBoundIsTight` | crates/ghost-daemon/src/io_metrics.rs:231-252 | for every `n` some interleaving of `n` updates has exactly `n(n-1)/2` failed swaps |
| `EmaLatency.EncodeFactor` | crates/ghost-daemon/src/io_metrics.rs:72-75 | the stored factor is the clamped one in millionths, rounded down, and never above a million |
| `EmaLatency.AverageWithinSamples` | crates/ghost-daemon/src/io_metrics.rs:231-252 | truncated as it is, the average lies between the smallest and the largest sample seen |
| `EmaLatency.NeverDiverges` | crates/ghost-daemon/src/io_metrics.rs:231-252 | under a constant load the distance to it never grows |
| `EmaLatency.Converges` | crates/ghost-daemon/src/io_metrics.rs:231-252 | after at most `abs(start - v)` samples of `v` the average is at rest, at most `v` and closer than one truncation step, and on `v` itself if it came from above |
| `EmaLatency.ReachesIff` | crates/ghost-daemon/src/io_metrics.rs:231-252 | a steady load is ever reached if and only if there was no average yet, or it equalled the load, or lay above it with a factor that is not zero, or the factor is one |
| `EmaLatency.RestsShortOfTheLoad` | crates/ghost-daemon/src/io_metrics.rs:231-252 | with the default factor an average of 97 never reaches a steady load of 100 |
| `IoMetrics.IoMetrics.SetSmoothingFactor` | crates/ghost-daemon/src/io_metrics.rs:72-75 | stores the clamped factor in millionths, rounded down, and changes nothing else |
| `IoMetrics.IoMetrics.RecordRead` | crates/ghost-daemon/src/io_metrics.rs:80-83 | one read is counted and its sample folded into the cell as found at the successful swap |
| `IoMetrics.IoMetrics.RecordWrite` | crates/ghost-daemon/src/io_metrics.rs:89-94 | one write and its bytes are counted and its sample folded into the cell as found at the successful swap |
| `IoMetrics.IoMetrics.UpdateRollingLatency` | crates/ghost-daemon/src/io_metrics.rs:231-252 | under any interference the loop ends; it retries exactly while the cell was changed, and folds the sample in once |
| `EventMultiplexer.EventMultiplexer.VerifyOrdering` | crates/ghost-core/src/event_multiplexer.rs:146-186 | remembers the id and appends the violation, if any, that the pair of ids calls for |
| `EventMultiplexer.EventMultiplexer.Run` | crates/ghost-core/src/event_multiplexer.rs:125-140 | every handler sees every record in channel order whichever handlers fail, and the violations are the report on the ids |
| `EventMultiplexer.ReportCountsBreaks` | crates/ghost-core/src/event_multiplexer.rs:146-186 | there is one violation for each adjacent pair that is not consecutive, and no other |
| `EventMultiplexer.ViolationsNameBreaks` | crates/ghost-core/src/event_multiplexer.rs:146-186 | every violation names the two ids of a break and, for a gap, how many are missing |
| `EventMultiplexer.SilentIffContiguous` | crates/ghost-core/src/event_multiplexer.rs:146-186 | for positive ids there is no violation if and only if the ids form one contiguous ascending run |
| `EventMultiplexer.ContiguousIffSilent` | crates/ghost-core/src/event_multiplexer.rs:146-186 | arbitrary ids form one contiguous ascending run if and only if there is no violation and no zero is followed by an id other than 1 |
| `EventMultiplexer.ZeroHidesAGap` | crates/ghost-core/src/event_multiplexer.rs:146-186 | a concrete gap after an id of 0 that goes unreported |
| `EventMultiplexer.ReorderingIffNotAscending` | crates/ghost-core/src/event_multiplexer.rs:146-186 | a reordering is reported if and only if the ids are not ascending |
| `EventMultiplexer.GapsAddUp` | crates/ghost-core/src/event_multiplexer.rs:146-186 | for ascending ids the reported gap sizes add up to the ids missing between the first and the last |
| `EventBus.EventEmitter.constructor` | crates/ghost-core/src/emitter.rs:62-67 | ids start at 1 on an empty open channel |
| `EventBus.EventEmitter.MakeRecord` | crates/ghost-core/src/emitter.rs:70-81 | handing out an id is one stamp step of the bus |
| `EventBus.EventEmitter.TrySend` | crates/ghost-core/src/emitter.rs:89-91 | succeeds if and only if the channel is open with room beyond the slots reserved for waiting senders; then it is one send step of the bus, and otherwise the record is dropped |
| `EventBus.EventEmitter.TryEmit` | crates/ghost-core/src/emitter.rs:89-91 | uninterrupted, emitting is a stamp followed by sending or dropping that record; a refused record still uses up its id |
| `EventBus.EveryIdAccountedFor` | crates/ghost-core/src/emitter.rs:70-98 | in every run of any number of clones the ids received, queued, in flight and dropped are distinct and are exactly `1 .. counter-1` |
| `EventBus.NothingAfterClose` | crates/ghost-core/src/emitter.rs:89-98 | once the receiver is gone nothing is accepted or received any more and what was queued is dropped |
| `EventBus.TaskEventsInOrder` | crates/ghost-core/src/emitter.rs:70-98 | whatever the interleaving, the records of one task arrive in the order of their ids |
| `EventBus.ReorderingIffOvertaken` | crates/ghost-core/src/emitter.rs:70-98 | in every run, a reordering has been reported if and only if some send went ahead of an older record that was in flight then and has been received by now |
| `EventBus.ClonesCanReorder` | crates/ghost-core/src/emitter.rs:70-98 | a run of two clones that is reported as reordered |
| `EventBus.GapsAreDrops` | crates/ghost-core/src/event_multiplexer.rs:125-186 | if tasks send in stamp order, no reordering is reported and the gap sizes add up to the ids dropped between the first and last received |
| `EventBus.AtomicGapsAreDrops` | crates/ghost-core/src/event_multiplexer.rs:125-186 | the same whenever stamp and send are one step |
| `IoScheduler.IoScheduler.IssueRequest` | crates/ghost-core/src/io_abstraction.rs:151-204 | refused, with no id consumed, exactly at the limit; otherwise the next id is pending and announced |
| `IoScheduler.IoScheduler.CompleteRequest` | crates/ghost-core/src/io_abstraction.rs:221-259 | accepted exactly for a pending id, which moves to the completed list with its outcome and event; otherwise nothing changes |
| `IoScheduler.IoScheduler.FlushPending` | crates/ghost-core/src/io_abstraction.rs:346-390 | the loop drains every pending request in ascending order, between a flush-issued and a flush-completed event |
| `IoScheduler.IdsPartitioned` | crates/ghost-core/src/io_abstraction.rs:151-390 | in every run pending and completed ids partition `1 .. nextId-1`, no id completes twice, and pending stays within the limit |
| `IoScheduler.EventsMatchState` | crates/ghost-core/src/io_abstraction.rs:151-390 | in every run issued minus completed minus failed events is the pending count, one issue event per id, and every request was announced as it is |
| `IoScheduler.CallsPossible` | crates/ghost-core/src/io_abstraction.rs:221-259 | in every reachable state every call is possible except completing an id that is not pending |
| `IoScheduler.RequestRoundTrip` | crates/ghost-core/src/io_abstraction.rs:151-259 | a request completed after any calls in between ends up as it was issued, with the time it took or its error, in the list and in the event |
| `IoScheduler.FlushIsCompleteInOrder` | crates/ghost-core/src/io_abstraction.rs:346-390 | a flush leaves the same pending and completed requests, and the same events between its own two, as completing the pending ids in ascending order |
| `IoInvariants.MaxCompletedId` | crates/ghost-core/src/invariant_registry.rs:178-183 | the result is a completed id and no completed id exceeds it |
| `IoInvariants.MinPendingId` | crates/ghost-core/src/invariant_registry.rs:187-191 | the result is a pending id and no pending id is below it |
| `IoInvariants.CheckNoDoubleComplete` | crates/ghost-core/src/invariant_registry.rs:98-109 | succeeds if and only if no completed id is pending |
| `IoInvariants.CheckRequestIdMonotonic` | crates/ghost-core/src/invariant_registry.rs:172-201 | comparing maximum with minimum succeeds if and only if every completed id is below every pending one |
| `IoInvariants.CheckFailureEventual` | crates/ghost-core/src/invariant_registry.rs:210-227 | succeeds if and only if at most 256 completed requests failed |
| `IoInvariants.InvariantRegistry.CheckAll` | crates/ghost-core/src/invariant_registry.rs:46-51 | passes if and only if every registered check holds, and otherwise names the first that fails |
| `IoInvariants.BookkeepingChecksHold` | crates/ghost-core/src/invariant_registry.rs:98-148 | no-double-complete, flush-completeness and completion-bounded hold in every reachable state of the scheduler |
| `IoInvariants.MiscountCaught` | crates/ghost-core/src/invariant_registry.rs:117-148 | of a reachable state shown with any in-flight count, completion-bounded fails if and only if the count is wrong, flush-completeness if and only if it is zero with requests pending |
| `IoInvariants.RevivalCaught` | crates/ghost-core/src/invariant_registry.rs:98-109 | a completed request put back among the pending ones fails no-double-complete |
| `IoInvariants.MonotonicIffSmallestFirst` | crates/ghost-core/src/invariant_registry.rs:172-201 | the id-monotonic check holds at every state of a run if and only if every completion takes the smallest pending id |
| `IoInvariants.YoungerFirstTrips` | crates/ghost-core/src/invariant_registry.rs:172-201 | two requests, the younger completed first, fail the id-monotonic check |
| `IoInvariants.CapacityCheckIffLimit` | crates/ghost-core/src/invariant_registry.rs:155-165 | the capacity check holds in all runs if and only if the scheduler's limit is at most 4096 |
| `IoInvariants.FailureCheckIff` | crates/ghost-core/src/invariant_registry.rs:210-227 | the failure check holds after a run if and only if the run had at most 256 failing completions, consecutive or not |
| `IoInvariants.ScatteredFailuresTrip` | crates/ghost-core/src/invariant_registry.rs:210-227 | a run with 257 failures, no two of them consecutive, fails the failure check |
| `EvictionCooldown.EvictionCooldown.constructor` | crates/ghost-daemon/src/migration.rs:93-99 | starts with nothing remembered and the period in microseconds |
| `EvictionCooldown.EvictionCooldown.MayEvict` | crates/ghost-daemon/src/migration.rs:106-122 | the two early returns decide `CanEvict`, whose meaning over runs is `EvictableIff` |
| `EvictionCooldown.RunInvariant` | crates/ghost-daemon/src/migration.rs:106-132 | in every run the two maps hold the latest recorded times, and the recorded evictions are spaced from each other and from promotions |
| `EvictionCooldown.EvictableIff` | crates/ghost-daemon/src/migration.rs:106-132 | after any run a chunk may be evicted if and only if its last eviction and its last promotion, where there are any, lie a period back |
| `EvictionCooldown.NoEvictionStorm` | crates/ghost-daemon/src/migration.rs:106-132 | whatever the clock does, evictions of one chunk lie a period apart and a period after the last promotion, so a window `W` holds at most `W/C + 1` |
| `EvictionCooldown.StormBoundIsTight` | crates/ghost-daemon/src/migration.rs:106-132 | for every number of periods there is a run that attains the bound |
| `MigrationSelection.SortIsStable` | crates/ghost-daemon/src/migration.rs:313-322 | the sort is a permutation, in order, with equals in their original order |
| `MigrationSelection.RankOrder` | crates/ghost-daemon/src/migration.rs:313-322 | critical before high before normal before low, and within a priority the hotter first |
| `MigrationSelection.StableSortUnique` | crates/ghost-daemon/src/migration.rs:313-322 | there is only one stable sort, so any implementation of one gives this result |
| `MigrationSelection.BestAreBest` | crates/ghost-daemon/src/migration.rs:313-327 | the selection has the right size, distinct chunks, is in order, and nothing left out outranks anything chosen |
| `MigrationEngine.MigrationEngine.constructor` | crates/ghost-daemon/src/migration.rs:163-185 | nothing active or remembered, statistics at zero, and a cooldown of at least five seconds |
| `MigrationEngine.MigrationEngine.Evaluate` | crates/ghost-daemon/src/migration.rs:200-328 | returns the best of the admitted candidates, announces and traces every admitted one, counts exactly the skipped ones, and changes nothing else |
| `MigrationEngine.MigrationEngine.EvaluateEvictions` | crates/ghost-daemon/src/migration.rs:394-479 | below the pressure threshold nothing happens; otherwise evictions, cooldown and blocked count are those of the pass over the cold chunks, and exactly the evictions are announced and traced |
| `MigrationEngine.MigrationEngine.DecideMigration` | crates/ghost-daemon/src/migration.rs:637-727 | accepts if and only if backpressure, I/O pressure, I/O cost and capacity all permit, and the event names the first that does not |
| `MigrationEngine.MigrationEngine.MarkActive` | crates/ghost-daemon/src/migration.rs:564-569 | adds the chunk and keeps the reported count equal to the size of the active set |
| `MigrationEngine.MigrationEngine.MarkComplete` | crates/ghost-daemon/src/migration.rs:572-606 | removes the chunk, records the times and the outcome, keeps the reported count equal to the size of the active set, and reports a completion whether it succeeded or not |
| `MigrationEngine.EveryChunkAccountedFor` | crates/ghost-daemon/src/migration.rs:209-307 | stored chunks are the active, the rate-limited, the skipped and the admitted, each counted once |
| `MigrationEngine.VerdictIff` | crates/ghost-daemon/src/migration.rs:226-307 | a chunk counts as active, rate limited or skipped if and only if the engine's state, the clock and the policy say so |
| `MigrationEngine.AdmittedIffEligible` | crates/ghost-daemon/src/migration.rs:226-307 | the admitted candidates are exactly the eligible stored chunks, each with the policy's target and priority and the map's hotness |
| `MigrationEngine.AnnouncedInOrder` | crates/ghost-daemon/src/migration.rs:284-302 | each migration is announced and traced once, in order, under its own chunk and tiers |
| `MigrationEngine.SelectionIsTopK` | crates/ghost-daemon/src/migration.rs:209-327 | the chosen are distinct, stored, eligible and described as the policy says, and an eligible chunk is left out only if the cycle is full of chunks to which neither the policy's priority nor, at the same priority, the hotness prefers it |
| `MigrationEngine.AllReturnedIffRoom` | crates/ghost-daemon/src/migration.rs:285-327 | every announced migration is returned if and only if no more were admitted than fit in a cycle |
| `MigrationEngine.AnnouncedButCutOff` | crates/ghost-daemon/src/migration.rs:285-327 | two admitted chunks and a limit of one: both are announced, one is not returned |
| `MigrationEngine.PassIsConsiderations` | crates/ghost-daemon/src/migration.rs:394-479 | the eviction loop is a run of the cooldown, and its evictions are exactly the run's recorded evictions |
| `MigrationEngine.EvictionsExact` | crates/ghost-daemon/src/migration.rs:394-479 | a pass over distinct cold chunks evicts exactly the stored ones that the policy picks and sends elsewhere and the cooldown permits, described as the policy says, and counts exactly the stored ones held back |
| `MigrationEngine.EngineFollowsCooldown` | crates/ghost-daemon/src/migration.rs:394-606 | any sequence of engine calls acts on the cooldown as one run of it, with the same history |
| `MigrationEngine.EngineEvictableIff` | crates/ghost-daemon/src/migration.rs:394-606 | after any engine calls a chunk may be evicted if and only if its last eviction and promotion lie the engine's period back |
| `MigrationEngine.CompletionHoldsBack` | crates/ghost-daemon/src/migration.rs:588-592 | a successful completion holds its own chunk back for a period; a failed one, or one of another chunk, changes nothing |
| `MigrationEngine.EngineNoEvictionStorm` | crates/ghost-daemon/src/migration.rs:394-606 | over any run of the engine, spacing of evictions and the window bound hold with the engine's own period |
| `MigrationConcurrency.ActiveBounded` | crates/ghost-daemon/src/migration.rs:564-727 | with at most `k` callers between decision and marking, at most `limit + k - 1` migrations are active, and the reported count is right whenever the lock is free |
| `MigrationConcurrency.ActiveIffLastAdded` | crates/ghost-daemon/src/migration.rs:564-577 | a chunk is active if and only if the last mark made for it was its start and not its completion |
| `MigrationConcurrency.ReachableCanReturn` | crates/ghost-daemon/src/migration.rs:564-727 | every run can be continued until every thread is idle and the lock is free |
| `MigrationConcurrency.BoundIsTight` | crates/ghost-daemon/src/migration.rs:564-727 | for every limit and every `k` there is a run that reaches `limit + k - 1` |
| `Backpressure.BackpressureController.EvaluateDiskCongestion` | crates/ghost-daemon/src/backpressure.rs:311-333 | the early returns compute the disk assessment, whose thresholds are pinned by `LevelIff` |
| `Backpressure.BackpressureController.Evaluate` | crates/ghost-daemon/src/backpressure.rs:152-303 | the nested branches compute the strictest of four assessments; onset time, all statistics, and on a change the trace record and the announced level follow |
| `Backpressure.BackpressureController.ShouldAllow` | crates/ghost-daemon/src/backpressure.rs:336-346 | admits by the current action and counts exactly the refusals |
| `Backpressure.LevelIff` | crates/ghost-daemon/src/backpressure.rs:152-333 | each level in terms of the raw readings: critical-only, at least reject, and anything but allow hold if and only if one of the listed thresholds is met or, for the last, the cooldown is open |
| `Backpressure.AdmitsIff` | crates/ghost-daemon/src/backpressure.rs:42-55 | critical transfers are admitted always, high ones if and only if no reading is severe, others if and only if all is quiet and no cooldown is open |
| `Backpressure.TallyCounts` | crates/ghost-daemon/src/backpressure.rs:245-265 | over a run each counter is the number of evaluations with that result |
| `Backpressure.TallyEscalations` | crates/ghost-daemon/src/backpressure.rs:245-265 | over a run the disk counter is the number of evaluations with a disk escalation |
| `Backpressure.TallyStreak` | crates/ghost-daemon/src/backpressure.rs:245-265 | the streak counts the evaluations since the last change of action, and the change time is the wall clock of that change |
| `Backpressure.MorePressureNeverLoosens` | crates/ghost-daemon/src/backpressure.rs:42-227 | from the same state, raising any pressure, depth or latency never loosens the action nor admits another priority, and critical is always admitted |
| `Backpressure.SinceIsOnset` | crates/ghost-daemon/src/backpressure.rs:213-232 | over every run the field is set exactly while the action is not Allow, and holds the time the spell began |
| `Backpressure.AllowsIff` | crates/ghost-daemon/src/backpressure.rs:188-232 | an evaluation returns Allow if and only if its input is quiet and, within a spell, the cooldown since the onset has passed |
| `Backpressure.SpellIsOnset` | crates/ghost-daemon/src/backpressure.rs:188-232 | the onset can be read off the inputs alone |
| `Backpressure.CutShortIff` | crates/ghost-daemon/src/config.rs:327-328 | a release breaks the documented wait if and only if its input is quiet and lies at least the cooldown after the onset but less than it after the last loud input |
| `Backpressure.WaitKeptIffNone` | crates/ghost-daemon/src/config.rs:327-328 | no run breaks the documented wait if and only if the cooldown is zero, given that some input is loud and some quiet |
| `Backpressure.AllowedOneTickLater` | crates/ghost-daemon/src/backpressure.rs:213-227 | a run with a cooldown of 10 that is allowed again one tick after pressure ended |
| `Backpressure.FewOnsets` | crates/ghost-daemon/src/backpressure.rs:188-232 | onsets lie a cooldown apart, so a window `W` has at most `W/cooldown + 1` of them |
| `Backpressure.OnsetBoundIsTight` | crates/ghost-daemon/src/backpressure.rs:188-232 | for every `k` some run has `k + 1` onsets within `k` cooldowns |
| `Backpressure.BlocksIffGuard` | crates/ghost-daemon/src/backpressure.rs:213-232 | an evaluation locks a mutex it holds if and only if the input is quiet, a spell is open and the cooldown since its onset is over |
| `Backpressure.ReturnsIffFirstSpellLasts` | crates/ghost-daemon/src/backpressure.rs:213-232 | every evaluation of a run returns if and only if every quiet input after the first loud one comes within the cooldown of it |
| `Backpressure.SampleRunBlocks` | crates/ghost-daemon/src/backpressure.rs:213-232 | a run whose third evaluation blocks and whose first two do not |
| `Health.HealthTracker.DoRegister` | crates/ghost-daemon/src/health.rs:110-118 | the tier starts healthy with cleared counters; other tiers and the events are untouched |
| `Health.HealthTracker.RecordFailure` | crates/ghost-daemon/src/health.rs:123-163 | the tier takes the failure transition and emits its event; other tiers are untouched |
| `Health.HealthTracker.RecordSuccess` | crates/ghost-daemon/src/health.rs:169-222 | the tier takes the success transition of its state and emits its event; other tiers are untouched |
| `Health.HealthTracker.DoBeginRecovery` | crates/ghost-daemon/src/health.rs:246-264 | only an unavailable tier starts recovering, with its successes cleared and an event |
| `Health.HealthTracker.DoReset` | crates/ghost-daemon/src/health.rs:277-286 | the tier is healthy with cleared counters, and no event says so |
| `Health.HealthTracker.IsAvailable` | crates/ghost-daemon/src/health.rs:238-243 | available exactly when tracked and healthy or degraded |
| `Health.RunClassified` | crates/ghost-daemon/src/health.rs:110-264 | with ordered thresholds, in every reachable state the health is exactly what the failure count says |
| `Health.ClassifiedIffThresholds` | crates/ghost-daemon/src/health.rs:110-264 | that classification holds in all runs if and only if `1 <= degraded <= unavailable` |
| `Health.AvailableIffFewFailures` | crates/ghost-daemon/src/health.rs:238-243 | in every reachable state a tier is available if and only if it is tracked with fewer failures than the unavailable threshold |
| `Health.FailureEndsRecovery` | crates/ghost-daemon/src/health.rs:123-163 | for any thresholds, one failure of a reachable unavailable or recovering tier leaves it unavailable |
| `Health.FailuresAddUp` | crates/ghost-daemon/src/health.rs:123-163 | `n` failures add exactly `n` to the count of any tier, and the thresholds then decide |
| `Health.NoEffectIff` | crates/ghost-daemon/src/health.rs:110-286 | which calls leave a reachable tier as it is; a success does not make up for failures of a healthy tier |
| `Health.ResetIsFresh` | crates/ghost-daemon/src/health.rs:277-286 | after a reset a tier is as if newly registered |
| `Health.RecoveryHeals` | crates/ghost-daemon/src/health.rs:169-264 | a probed tier recovers for fewer than the needed successes and is as new after exactly those |
| `Health.OnlyRecoveryHeals` | crates/ghost-daemon/src/health.rs:169-264 | without reset, a way from Unavailable to Healthy contains a begin-recovery followed by exactly the needed successes with no failure between |
| `Health.DegradedHeals` | crates/ghost-daemon/src/health.rs:169-222 | a degraded tier with `c` failures becomes healthy at exactly the `c - degraded + 1`-th success |
| `Health.TiersIndependent` | crates/ghost-daemon/src/health.rs:110-286 | a tier's state depends only on the calls about that tier |
| `Health.ReplayIffQuietResets` | crates/ghost-daemon/src/health.rs:123-286 | folding the events reproduces every tier's state at every point if and only if every reset finds its tier healthy or untracked |
| `Health.ResetGoesUnreported` | crates/ghost-daemon/src/health.rs:277-286 | a tier that failed and was reset is healthy while its events say degraded |
| `Health.EventsChain` | crates/ghost-daemon/src/health.rs:123-264 | each event's old state is the previous event's new state for that tier, and no event repeats a state |
| `PressureHistory.PressureHistory.constructor` | crates/ghost-daemon/src/pressure.rs:68-75 | an empty log and the given capacity |
| `PressureHistory.PressureHistory.Push` | crates/ghost-daemon/src/pressure.rs:78-86 | the ring buffer goes on holding the latest entries of the full log |
| `PressureHistory.PressureHistory.Recent` | crates/ghost-daemon/src/pressure.rs:89-108 | walking the ring backwards and reversing yields the last entries of the full log, oldest first |
| `PressureHistory.PressureHistory.Average` | crates/ghost-daemon/src/pressure.rs:111-139 | the mean of that suffix in each dimension, or nothing if it is empty |
| `PressureHistory.PressureHistory.Trend` | crates/ghost-daemon/src/pressure.rs:145-174 | the trend of the largest pressures in that suffix |
| `PressureHistory.AverageIsMean` | crates/ghost-daemon/src/pressure.rs:111-139 | in each dimension the average is the arithmetic mean of the readings |
| `PressureHistory.CountAverages` | crates/ghost-daemon/src/pressure.rs:111-139 | the averages of queue depth and throughput are the means of the readings, rounded down |
| `PressureHistory.TrendExact` | crates/ghost-daemon/src/pressure.rs:145-174 | rising and falling compare the sums of the two halves, each weighted with the length of the other, without division |
| `PressureHistory.AverageWithinReadings` | crates/ghost-daemon/src/pressure.rs:111-139 | in each dimension the average lies within any bounds the readings lie in |
| `PressureHistory.TrendByBounds` | crates/ghost-daemon/src/pressure.rs:145-174 | any bounds on the two halves more than 0.05 apart force rising or falling, and bounds that cannot be that far apart rule them out |
| `PressureHistory.TrendFollowsWindow` | crates/ghost-daemon/src/pressure.rs:145-174 | pressures that never fall are not called falling, and ones that never rise not rising |
| `PressureHistory.TrendMirrors` | crates/ghost-daemon/src/pressure.rs:145-174 | a window of even length read backwards has rising and falling exchanged |
| `PressureHistory.LopsidedIffOdd` | crates/ghost-daemon/src/pressure.rs:145-174 | some window of length `n` with pressures between 0 and 1 fails to mirror if and only if `n` is odd and at least 5 |
| `HotnessHistory.HotnessHistory.constructor` | crates/ghost-core/src/hotness_history.rs:45-50 | an empty log and a limit of at least one |
| `HotnessHistory.HotnessHistory.Push` | crates/ghost-core/src/hotness_history.rs:55-62 | the shifted vector goes on being the latest snapshots of the full log |
| `HotnessHistory.HotnessHistory.Clear` | crates/ghost-core/src/hotness_history.rs:192-194 | the log starts over |
| `HotnessHistory.HotnessHistory.GetTemperatureTrend` | crates/ghost-core/src/hotness_history.rs:68-109 | the loops compute the trend of the region's temperatures over the latest snapshots of the full log |
| `HotnessHistory.HotnessHistory.GetAccessTrend` | crates/ghost-core/src/hotness_history.rs:115-174 | the regression trend of the region's counts over the latest snapshots of the full log |
| `HotnessHistory.Find` | crates/ghost-core/src/hotness_history.rs:76 | the sample found is of the region asked for, and none is found only if there is none |
| `HotnessHistory.SeenEach` | crates/ghost-core/src/hotness_history.rs:74-79 | if every snapshot has the region, its first samples are collected in order |
| `HotnessHistory.SeenSkips` | crates/ghost-core/src/hotness_history.rs:74-79 | a snapshot without the region leaves no trace |
| `HotnessHistory.TemperatureTrendIff` | crates/ghost-core/src/hotness_history.rs:85-108 | flapping if and only if more than half of the positions differ from the one before; otherwise the two ends decide between warming, cooling and stable |
| `HotnessHistory.SteadyRegion` | crates/ghost-core/src/hotness_history.rs:68-109 | a region that never cools is stable if its ends agree and, from six observations on, warming between its ends if not |
| `HotnessHistory.WarmingNotCooling` | crates/ghost-core/src/hotness_history.rs:68-109 | temperatures that never fall are not cooling and, but for three to five observations, not flapping |
| `HotnessHistory.MistakenIffFewObservations` | crates/ghost-core/src/hotness_history.rs:87-95 | some never-falling history of length `n` is called flapping if and only if `3 <= n <= 5` |
| `HotnessHistory.HistoryMirrors` | crates/ghost-core/src/hotness_history.rs:68-174 | reversing the snapshots mirrors both trends of every region |
| `AccessTrend.DenominatorPositive` | crates/ghost-core/src/hotness_history.rs:139-142 | the denominator is `n^2(n^2-1)/12`, positive if and only if there are at least two counts |
| `AccessTrend.NumeratorIsPairSum` | crates/ghost-core/src/hotness_history.rs:139-144 | the numerator is the sum over all pairs of later minus earlier count, weighted by distance |
| `AccessTrend.AccessTrendExact` | crates/ghost-core/src/hotness_history.rs:132-173 | the regression, its threshold and the volatility test amount to comparisons of whole numbers: volatile if `4n * sum(c^2) > 5 * sum(c)^2`, else by `120 * pairs` against `n(n^2-1) * sum(c)` |
| `AccessTrend.RisingNotDecreasing` | crates/ghost-core/src/hotness_history.rs:132-173 | counts that never fall are not called decreasing |
| `AccessTrend.FallingNotIncreasing` | crates/ghost-core/src/hotness_history.rs:132-173 | counts that never rise are not called increasing |
| `AccessTrend.AccessTrendMirrors` | crates/ghost-core/src/hotness_history.rs:132-173 | reversing the counts exchanges increasing and decreasing and keeps stable and volatile |

## Left out

- The IPC server, the command line, the metrics exporter, diagnostics, tracing and the daemon's start-up: input, output and plumbing.
- Compression and hashing of chunks: chunk ids are numbers that are compared and nothing else.
- `ghost-bench`: reports and workloads that average measurements.
- The transfer queue, the worker, the tier scheduler and the orchestrator: only the orchestrator's order of deciding, then marking, is used.
- The formulas of placement policies and cost models, the exponential decay of hotness and the jitter of retries: answers of the policy are parameters.
- `evaluate_promotions`: its locks are part of the deadlock result; the list it returns is not modelled.
- `StateMachine` and `DmaPipeline`: the first appears only as the ascending list of stored chunks.
- The six checks in `invariant_registry.rs` that always succeed.
- The deactivation event of the backpressure controller: its branch cannot be taken.
- `PressureMonitor`: the smoothing in front of the pressure history.
- Overflow of the channel that carries ordering violations: the model keeps every violation.
- The unlocked reads of the engine's statistics and the remaining counters of `IoMetrics`.
- Waiting inside `emit` for room in the channel: the wait itself is not a step, only its end, by sending or by cancellation.
- Backpressure.BackpressureController.Evaluate: clears the field by its intended effect, because what the second lock does is stated by BlocksIffGuard.
- MigrationEngine.MigrationEngine.Evaluate: events and trace records carry the pressure itself where the code carries a text with two decimals of it.
- MigrationEngine.MigrationEngine.EvaluateEvictions: events carry the pressure itself, not the text.
- HotnessHistory.HotnessHistory.GetAccessTrend: rounding of `f64` is not modelled, so a slope within rounding error of the threshold may be classified differently.

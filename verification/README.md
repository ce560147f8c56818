# Edge telemetry daemon: a verified model of the control plane

The daemon samples a host's CPU and memory, judges each sample against streaming statistics, damps the resulting
alarms, adapts its own sampling rate and CPU quota, and hands alerts to a bounded outbox from which three workers post
them to a remote endpoint. This project models the deterministic core of that pipeline and proves what it guarantees
over all inputs, all runs and all interleavings. `dafny verify dfyconfig.toml` checks every file.

| Files | Part of the daemon |
|---|---|
| `Outbox.dfy`, `OutboxProtocol.dfy`, `OutboxTheorems.dfy` | the ring buffer class; the same critical sections as a step system with any number of threads, a mutex, a token channel, Close and cancellation; theorems over its runs |
| `Dispatcher.dfy`, `DispatcherSystem.dfy` | the retry loop with capped, jittered backoff; three workers interleaved with the outbox |
| `StreamingStats.dfy`, `Welford.dfy`, `Detector.dfy` | exponentially weighted and Welford statistics against batch definitions; the two-horizon detector |
| `Suppressor.dfy`, `RingBuffer.dfy`, `Heartbeat.dfy`, `Cgroup.dfy`, `Interval.dfy` | the agent's components: hysteresis and holdoff, pre-alert context, heartbeat windows, CPU quota, sampling interval |
| `AgentSpec.dfy`, `Measurement.dfy`, `Instruments.dfy`, `Agent.dfy` | the tick loop: what it does with its measurements as functions of the whole history; where the measurements come from; and the two classes that follow them |
| `Arithmetic.dfy` | nonlinear facts used by several files |
| `Decimal.dfy`, `CpuLine.dfy`, `LineFormat.dfy`, `MemInfo.dfy`, `Usage.dfy` | the /proc and cgroup parsers, and the percentages computed from them |

Each stateful type of the source is a class with the source's fields. Its methods are proved to keep those fields equal
to a function of the inputs seen so far (a ghost sequence such as `samples`, `trace` or `scans`); the main results are
lemmas about those functions. Concurrency is a step system: one step is one critical section or one channel operation,
and a run is any sequence of enabled steps.

Conventions: `time.Time` and `time.Duration` are integer nanoseconds, with 0 for the zero time; `float64` is `real`;
NaN is `None`; the square root inside `math.Hypot` is a parameter, any function with the defining property of a square
root; `uint64` values read by the parsers wrap at 2^64; a byte is a character.

## Where the code and its documentation differ

The model follows the code. Each difference is a proved statement.

- `internal/filter/suppressor.go:36` calls the holdoff the minimum quiet period between alerts. The Normal branch does
  not consult it, so the promise holds exactly when clearing and tripping again takes at least the holdoff
  (`QuietPeriodIff`); with the daemon's settings that means samples two seconds apart (`DaemonQuietPeriodIff`). What
  always holds is `AlertGap` and `AlertRateBounded`.
- `internal/outbox/queue.go:140` says a token is consumed to keep the channel synchronized. Whenever the mutex is free,
  tokens and events agree if and only if Pop calls never overlap (`SynchronizedIff`); with P of them they drift apart
  by at most P - 1 (`NoLostWakeup`), and for every P some run reaches that (`DriftAttained`). A cancelled Pop never
  took an event. It took one token for each time it was woken in vain (`CancellablePopTookNothing`), and none at all
  under the same condition, that Pop calls never overlap (`CancelIsFreeIff`).
- `internal/engine/stats.go:41-43` keeps a variance inflated by 1/(1 - alpha) (`VrIsInflatedVariance`). `Variance`
  returns the weighted variance exactly for streams whose samples are all equal or, with alpha = 1, whose last two
  are (`VrIsVarianceIff`); the samples 0 and 1 already tell them apart (`TwoSamplesInflate`).
- `README.md:22` calls the return to rest step-wise exponential; it is linear, one fixed step a tick (`QuietTicks`).
- `internal/transport/dispatcher.go:114` shifts a 64-bit word: past 64 retries the backoff collapses to zero
  (`BackoffMonotoneIff`).
- `internal/collector/cpu_linux.go:77-78` expects the prefix "cpu"; any first token is accepted
  (`ParsesIffCounterLine`).
- `cmd/agent/main.go:275-295` acts on changes of state only, so a failed quota write is not retried until the next
  change. The quota is the one the suppressor calls for if and only if the last request whose write succeeded asked
  for it (`QuotaAgreesIff`); on a host short of memory a single failed write keeps the daemon throttled for any number
  of ticks, until the holdoff lets the alert be raised again (`FailedBurstNotRetried`).

## Model

| member | source | states |
|---|---|---|
| Outbox.Outbox.constructor | internal/outbox/queue.go:73-84 | an empty open outbox; a non-positive capacity becomes 100 |
| Outbox.Outbox.Push | internal/outbox/queue.go:87-123 | the ring, seen oldest first, gains the event, evicts its oldest or refuses, by capacity, policy and closed flag; a token is offered exactly when the queue grew; vacated slots are cleared |
| Outbox.Outbox.PopOnEntry | internal/outbox/queue.go:132-153 | the fast path returns the oldest event and drops one token if there is one; on an empty ring nothing changes and closed decides |
| Outbox.Outbox.PopAfterClosed | internal/outbox/queue.go:160-176 | after Close the remaining events are still returned in order; only an empty ring refuses |
| Outbox.Outbox.PopAfterToken | internal/outbox/queue.go:177-193 | the token path returns the oldest event without touching the channel, refuses or goes back to waiting |
| Outbox.Outbox.RemoveHead | internal/outbox/queue.go:134-138 | in place: the head slot is zeroed and the flattened ring loses its first element |
| Outbox.Outbox.Append | internal/outbox/queue.go:109-111 | in place: the flattened ring gains the event at its end |
| Outbox.Outbox.Close | internal/outbox/queue.go:217-224 | sets closed and nothing else, idempotently |
| Outbox.SlotIsModular | internal/outbox/queue.go:105-110 | one wrap is all that a modular ring index needs |
| OutboxProtocol.TokensReceive | internal/outbox/queue.go:140-144 | the opportunistic receive, hit or miss, keeps slack within 0 and P - 1 and the miss ledger balanced |
| OutboxProtocol.TokensSend | internal/outbox/queue.go:114-119 | a token send, also into a full channel, keeps the token invariant |
| OutboxProtocol.TokensRing | internal/outbox/queue.go:132-193 | every critical section on the ring keeps the token invariant |
| OutboxProtocol.HistoryRing | internal/outbox/queue.go:87-193 | every critical section keeps the queue equal to the undecided tail of the accepted log, and the counters equal to the lengths of the histories |
| OutboxProtocol.ShapeStep | internal/outbox/queue.go:87-224 | mutual exclusion, bounds of ring and channel, and closedCh closed exactly once closed is set, survive every step |
| OutboxProtocol.StepInv | internal/outbox/queue.go:87-224 | the whole invariant is inductive over every step of every thread |
| OutboxTheorems.NoLostWakeup | internal/outbox/queue.go:94-193 | in every run with at most P concurrent Pops, whenever the mutex is free, queued events <= tokens + woken waiters <= queued events + P - 1; a queued event leaves a token available or a woken waiter on its way |
| OutboxTheorems.WakeupLedger | internal/outbox/queue.go:114-193 | in every run: missed receives = slack + spurious wake-ups + sends into a full channel |
| OutboxTheorems.SpuriousTurnLowersSlack | internal/outbox/queue.go:177-193 | a turn that finds the queue empty lowers the slack by exactly one and changes nothing else in the queue |
| OutboxTheorems.EveryEventHasOneFate | internal/outbox/queue.go:87-214 | the queue is the tail of the accepted log, the rest splits in order into delivered and evicted; enqueued, dequeued, dropped and attempts balance under either policy |
| OutboxTheorems.RefusalMeansDrained | internal/outbox/queue.go:149-191 | any Pop about to return ErrQueueClosed saw a closed, empty ring |
| OutboxTheorems.CloseDrains | internal/outbox/queue.go:89-92 | after Close nothing is accepted, evicted or dropped, and what leaves the queue is delivered in order |
| OutboxTheorems.RefusedPopIsFinal | internal/outbox/queue.go:149-224 | once a Pop is refused, every accepted event has met its fate and the ring stays empty in every continuation |
| OutboxTheorems.InternalRunsAreBounded | internal/outbox/queue.go:126-195 | no interleaving of the outbox's own steps is longer than a measure of its state: spurious turns cannot go on for ever |
| OutboxTheorems.SettledMeansNothingMissed | internal/outbox/queue.go:156-194 | when no internal step is left, a Pop still blocked waits on an empty, open queue with no token |
| OutboxTheorems.DriftAttained | internal/outbox/queue.go:140-144 | for every P some run with at most P Pops in progress leaves the mutex free with a drift of exactly P - 1 |
| OutboxTheorems.SynchronizedIff | internal/outbox/queue.go:140-144 | tokens plus woken waiters equal queued events in every run, whenever the mutex is free, if and only if Pop calls never overlap |
| OutboxTheorems.CancellablePopTookNothing | internal/outbox/queue.go:156-193 | a Pop that can still be cancelled removed no event, and received exactly as many tokens as it had spurious turns |
| OutboxTheorems.CancelIsFreeIff | internal/outbox/queue.go:156-193 | no run lets a Pop that can be cancelled take a token if and only if Pop calls never overlap |
| Dispatcher.Normalized | internal/transport/dispatcher.go:44-52 | out-of-range settings become usable ones, usable ones are kept |
| Dispatcher.BackoffPositive | internal/transport/dispatcher.go:114-117 | the backoff never exceeds the maximum, and is zero exactly from attempt 65 on |
| Dispatcher.BackoffFirst | internal/transport/dispatcher.go:114-117 | the first pause is the lesser of the configured backoff and the cap |
| Dispatcher.BackoffDoubles | internal/transport/dispatcher.go:114-117 | up to the 64th retry each pause is the lesser of twice the one before and the cap |
| Dispatcher.BackoffMonotoneIff | internal/transport/dispatcher.go:114-117 | successive backoffs never shrink if and only if at most 64 retries are configured |
| Dispatcher.TotalBackoffCapped | internal/transport/dispatcher.go:108-129 | all backoffs together are at most retries times the maximum |
| Dispatcher.TotalBackoffDoubling | internal/transport/dispatcher.go:108-129 | and at most the initial backoff times 2^retries - 1 |
| Dispatcher.TotalBackoffExact | internal/transport/dispatcher.go:114-117 | while the cap is not reached, the last pause is initial 2^(retries - 1) and all of them initial (2^retries - 1) |
| Dispatcher.SleepDuration | internal/transport/dispatcher.go:114-121 | the pause is backoff (1 + jitter) rounded down to the nanosecond, within a quarter of the backoff either way |
| Dispatcher.DispatchWithRetry | internal/transport/dispatcher.go:107-139 | exhausted exactly when every post failed and no sleep was interrupted; at most MaxRetries + 1 posts; total sleep within a quarter of the backoffs of the retries made, either way, and at most 1.25 times both bounds |
| DispatcherSystem.MoveInv | internal/transport/dispatcher.go:73-139 | conservation of events and of posts is inductive over every move of workers, outbox and shutdown |
| DispatcherSystem.EveryAcceptedEventAccountedFor | internal/transport/dispatcher.go:87-105 | in every interleaving each accepted event, whichever events one counts, is queued, evicted, in a worker's hand, dispatched, failed or abandoned, exactly once; none is abandoned before shutdown |
| DispatcherSystem.DispatchLedger | internal/transport/dispatcher.go:73-105 | outbox.dequeued exceeds dispatched + failed + abandoned by at most three |
| DispatcherSystem.PostLedger | internal/transport/dispatcher.go:107-139 | event by event in every interleaving: 1 to MaxRetries + 1 posts for each one dispatched, exactly MaxRetries + 1 for each recorded failure, 1 to MaxRetries + 1 for each abandoned; and no post besides these and those of the events in hand |
| DispatcherSystem.PostTotals | internal/transport/dispatcher.go:107-139 | the bounds this puts on the requests made in all |
| DispatcherSystem.DispatchedAreAccepted | internal/transport/dispatcher.go:94-141 | over every run each request is counted, and the dispatched events are as many as the requests the endpoint accepted |
| DispatcherSystem.NoFailureAfterShutdown | internal/transport/dispatcher.go:94-99 | once shutdown has begun no event is counted as failed, in every continuation |
| DispatcherSystem.NoWorkerLeftWaiting | internal/transport/dispatcher.go:87-92 | when the outbox has settled with an event queued or closed, every worker is out of Pop or holds its result |
| DispatcherSystem.StuckMeansStopped | internal/transport/dispatcher.go:73-105 | after shutdown, if nothing can move by itself, all three workers have returned |
| StreamingStats.ClampAlpha | internal/engine/stats.go:17-24 | smoothing factors end up in (0, 1] |
| StreamingStats.StreamingStats.Update | internal/engine/stats.go:27-44 | the accumulators hold the recurrences over all samples fed |
| StreamingStats.StreamingStats.Variance | internal/engine/stats.go:55-60 | NaN below two samples, the variance recurrence otherwise |
| StreamingStats.WeightsSumToOne | internal/engine/stats.go:27-44 | the explicit weights of all samples sum to 1 |
| StreamingStats.MeanIsWeightedMean | internal/engine/stats.go:36-40 | the recurrence is the weighted mean with those weights |
| StreamingStats.SpreadAround | internal/engine/stats.go:36-44 | around any centre c, the weighted sum of (x - c)^2 is (1 - alpha) vr + (mean - c)^2 |
| StreamingStats.VrIsInflatedVariance | internal/engine/stats.go:41-44 | the weighted variance is (1 - alpha) vr |
| StreamingStats.VrZeroIffFlat | internal/engine/stats.go:41-44 | below alpha = 1 the variance is zero if and only if all samples are equal |
| StreamingStats.VrIsVarianceIff | internal/engine/stats.go:55-60 | vr is the weighted variance if and only if all samples are equal or, for alpha = 1, the last two |
| StreamingStats.TwoSamplesInflate | internal/engine/stats.go:36-44 | after 0 and 1, vr is alpha and the weighted variance (1 - alpha) alpha |
| StreamingStats.StaysInRange | internal/engine/stats.go:27-44 | for samples in [lo, hi] the mean stays in [lo, hi] and 0 <= vr <= (hi - lo)^2 |
| StreamingStats.Ewma.Update | internal/engine/ewma.go:44-51 | the other algebraic form computes the same average of the samples fed |
| Welford.Welford.Update | internal/engine/welford.go:17-23 | in place: the state stays the size, average and squared deviation of the samples |
| Welford.Welford.Merge | internal/engine/welford.go:25-38 | merging is concatenation of the samples, with empty sides and with an object merged into itself |
| Welford.Welford.Variance | internal/engine/welford.go:47-52 | NaN below two samples, otherwise the squared deviation over n - 1 |
| Welford.Welford.PopulationVariance | internal/engine/welford.go:53-58 | NaN without samples, otherwise the squared deviation over n |
| Welford.UpdateSummary | internal/engine/welford.go:17-23 | the incremental formulas give the batch average and deviation of one more sample |
| Welford.MergeSummary | internal/engine/welford.go:32-37 | the merge formulas give the batch average and deviation of both streams together |
| Welford.MergeOrderIrrelevant | internal/engine/welford.go:25-38 | the merged state is the same in either order, and its m2 is never negative |
| Detector.ZScoreDetector.constructor | internal/engine/detector.go:28-64 | settings are repaired, and the slow factor ends up below the fast one |
| Detector.ZScoreDetector.Update | internal/engine/detector.go:67-110 | the verdict compares the new pair with the earlier stream only; drift compares the horizons after it; non-finite input changes nothing |
| Detector.SurpriseIs | internal/engine/detector.go:113-120 | the squared score times the variance before it, or times the square of max(1, abs(mean)) when that is flat, is the squared distance from the mean |
| Detector.LastScoreIs | internal/engine/detector.go:75-81 | the squared combined score of the last pair, free of divisions; 0 during warm-up |
| Detector.VerdictIff | internal/engine/detector.go:75-110 | on any two streams the verdict is an inequality between means, variances and the threshold, past the warm-up |
| Detector.VaryingVerdict | internal/engine/detector.go:75-115 | two varying baselines: an alarm if and only if the squared distances, each over its variance, add up to the squared threshold |
| Detector.MixedVerdict | internal/engine/detector.go:113-120 | the same with one varying and one flat baseline, either way round |
| Detector.DriftIndexIs | internal/engine/detector.go:93-100 | the drift index is the relative gap between the horizons of one metric and bounds that of the other |
| Detector.DriftingIff | internal/engine/detector.go:93-107 | a drift is on if and only if, past the warm-up, the horizons of either metric differ by more than the threshold times max(1, abs(slow)) |
| Detector.RisingOrder | internal/engine/detector.go:84-87 | on a nondecreasing stream slow <= fast <= latest, for every pair of factors |
| Detector.FallingOrder | internal/engine/detector.go:84-87 | the mirror image on a nonincreasing stream |
| Detector.StepGap | internal/engine/detector.go:93-100 | k samples after a step from c to d the horizons are exactly abs(d - c) ((1 - slow)^k - (1 - fast)^k) apart |
| Detector.DriftAfterStep | internal/engine/detector.go:93-100 | the drift index in that situation, relative to the slow baseline, whichever metric steps |
| Detector.JumpFromFlatBaseline | internal/engine/detector.go:113-120 | after a flat baseline an alarm is exactly a combined relative jump of at least the threshold |
| Detector.ScoreIsScaleFree | internal/engine/detector.go:113-116 | the score has no unit: rescaling stream and sample alike leaves it unchanged above the variance floor |
| Suppressor.Repaired | internal/filter/suppressor.go:62-76 | invalid settings become valid ones, valid ones are kept |
| Suppressor.Suppressor.Process | internal/filter/suppressor.go:80-121 | state, counters and verdict follow the transition function on the whole trace |
| Suppressor.CountersAreStreaks | internal/filter/suppressor.go:85-112 | the run counters are the lengths of the current streaks |
| Suppressor.HysteresisExact | internal/filter/suppressor.go:84-118 | the state is not Normal if and only if some streak of A anomalies ended and no streak of N normals has since, whatever the clock and holdoff |
| Suppressor.ModeIff | internal/filter/suppressor.go:84-117 | over every trace a latched machine is alerting if and only if its last anomalous sample raised an alert, and suppressed if and only if it did not |
| Suppressor.AnomalyLedger | internal/filter/suppressor.go:84-121 | anomalies = alerts + suppressed + absorbed on the way to the threshold, each equal to its count over the trace |
| Suppressor.AlertRateBounded | internal/filter/suppressor.go:84-118 | between any two alerts, at most one further alert per holdoff elapsed plus one per A + N samples |
| Suppressor.AlertGap | internal/filter/suppressor.go:84-118 | every gap is at least the holdoff in time or at least A + N samples |
| Suppressor.AlertIff | internal/filter/suppressor.go:84-108 | without reference to the machine: an alert fires if and only if the sample is anomalous and, when latched, every earlier alert is at least a holdoff old, and otherwise a streak of A anomalies ends there |
| Suppressor.QuietPeriodIff | internal/filter/suppressor.go:36-37 | for samples at least d apart the documented quiet period holds if and only if holdoff <= (A + N) d |
| RingBuffer.RingBuffer.Push | internal/filter/ringbuffer.go:38-46 | in place: the ring holds the last `capacity` entries pushed |
| RingBuffer.RingBuffer.CopyTo | internal/filter/ringbuffer.go:62-74 | the copying loop writes those entries oldest first and leaves later slots alone |
| RingBuffer.RingBuffer.Snapshot | internal/filter/ringbuffer.go:50-75 | the destination is reused when its storage suffices, and replaced untouched otherwise |
| RingBuffer.RingBuffer.Reset | internal/filter/ringbuffer.go:91-96 | the ring is empty again |
| Heartbeat.HeartbeatAggregator.Observe | internal/filter/heartbeat_aggregator.go:50-75 | in place: all accumulators are the statistics of the window |
| Heartbeat.HeartbeatAggregator.Flush | internal/filter/heartbeat_aggregator.go:85-114 | returns the summary of the window and opens the next one where it ended |
| Heartbeat.ExtremesBound | internal/filter/heartbeat_aggregator.go:61-73 | minVal and maxVal are values of the window and bound all the others |
| Heartbeat.SumBetweenExtremes | internal/filter/heartbeat_aggregator.go:61-74 | min n <= sum <= max n for every window |
| Heartbeat.TotalsAddUp | internal/filter/heartbeat_aggregator.go:50-75 | sum and both counts add up over any split of a window, down to single observations |
| Cgroup.Controller.SetBurst | internal/cgroup/cgroup.go:128-144 | writes once, never when read-only; a failed write changes neither mode nor file |
| Cgroup.Controller.SetQuiescent | internal/cgroup/cgroup.go:148-168 | likewise, with five percent of all cores |
| Cgroup.ParseCpuStat | internal/cgroup/cgroup.go:228-266 | each field is the last value recorded for its key over the split, trimmed lines, or 0 |
| Interval.TargetInRange | cmd/agent/main.go:180-188 | the target lies in [tauMin, tauMax] |
| Interval.TargetAntitone | cmd/agent/main.go:180-188 | more instability never asks for a longer interval |
| Interval.PeakSnapsToMin | cmd/agent/main.go:180-190 | a score or drift at its threshold brings the interval to tauMin at once |
| Interval.TargetInterpolates | cmd/agent/main.go:172-188 | for every reading: the larger of score and drift, each in units of its threshold, takes that part of the range off tauMax, all of it from 1 on |
| Interval.DriftInterpolates | cmd/agent/main.go:180-188 | a drift p of the way to its threshold, with no larger score, takes p of the range off tauMax |
| Interval.ScoreInterpolates | cmd/agent/main.go:180-188 | and so does a score p of the way to theta, with no larger drift |
| Interval.TauInRange | cmd/agent/main.go:190-190 | every emitted interval lies in [tauMin, tauMax] |
| Interval.TauIsLeastCeiling | cmd/agent/main.go:180-221 | closed form: the least of start + n delta and of every target_j + (n - j) delta |
| Interval.EmittedIsGreatest | cmd/agent/main.go:190-221 | the emitted intervals are the pointwise greatest that respect all targets and grow by at most delta |
| Interval.QuietTicks | cmd/agent/main.go:190-190 | at rest the interval grows by exactly delta a tick until tauMax |
| Interval.RecoveryInTime | cmd/agent/main.go:190-221 | ceil((tauMax - tauMin) / delta) quiet ticks restore tauMax from anywhere |
| Interval.TauAntitone | cmd/agent/main.go:172-191 | over whole runs, pointwise more instability never samples less often |
| Agent.Agent.constructor | cmd/agent/main.go:93-141 | fresh components, the detector's settings, and one request for the quiescent quota |
| Agent.Agent.UpdateCgroup | cmd/agent/main.go:275-295 | acts on changes of the suppressor's state only |
| Agent.Agent.EmitAnomalyAlert | cmd/agent/main.go:313-337 | sends the tick's readings, baselines and threshold with the last 20 entries |
| Agent.Agent.HandleDrift | cmd/agent/main.go:339-358 | a drift alert on onset and once per holdoff while it lasts |
| Agent.Agent.FlushHeartbeat | cmd/agent/main.go:360-379 | sends the summary of a full window and opens the next |
| Agent.Agent.React | cmd/agent/main.go:203-221 | everything after the measurements: all components and the interval end at their functions of the ticks so far |
| Agent.Agent.Tick | cmd/agent/main.go:193-222 | scrape, detect and react: every object ends where the specification puts it after the history extended by this tick's inputs |
| Agent.Agent.HoldsHistory | cmd/agent/main.go:193-222 | of the objects themselves: every component, and everything sent, is its closed function of the whole history of scans |
| Instruments.Instruments.CollectUsage | cmd/agent/main.go:224-273 | both percentages from the scrapes, and the effect of an injected spike |
| Instruments.Instruments.Measure | cmd/agent/main.go:197-203 | every number the tick reacts to is its function of all scans so far |
| Measurement.VerdictIsScore | internal/engine/detector.go:75-109 | on every tick the score is a number, the raw verdict is score >= threshold, and during warm-up the score is 0 |
| Measurement.TickJudgesHistory | cmd/agent/main.go:197-203 | every tick's score, verdict, drift and baselines are those of the percentages of all ticks so far; the baselines are weighted means |
| Measurement.CpuOfTickIsShare | cmd/agent/main.go:227-240 | every tick's CPU percentage, less an injected spike, is the share of work between the last two scrapes that succeeded |
| Measurement.MemOfTickIsShare | cmd/agent/main.go:242-247 | every tick's memory percentage, less a spike, is the share in use of the memory last read, or the one before when nothing sensible was read |
| Measurement.SpikeRaises | cmd/agent/main.go:254-271 | a spike adds 90 to both percentages and multiplies the throughput by 50, or sets it to 500, and nothing happens without one |
| Measurement.MemFileScans | internal/collector/mem_linux.go:74-123 | a printed total and available memory are what the scrape reads |
| Measurement.FailedBurstNotRetried | cmd/agent/main.go:275-295 | from meminfo files alone: for any number of ticks within the holdoff of an alert whose write failed, the suppressor is not Normal and the quota stays quiescent |
| Measurement.StarvedInputs | internal/collector/mem_linux.go:74-123 | such inputs exist for every number of ticks |
| AgentSpec.ViewFollowsHistory | cmd/agent/main.go:193-222 | stepping tick by tick leaves every component at its closed function of the whole history |
| AgentSpec.BurstIffNotNormal | cmd/agent/main.go:205-295 | with a writable controller and no failed write, after every tick cpu.max is unlimited if the suppressor is not Normal and five percent of all cores if it is |
| AgentSpec.RecordedModeIsWritten | internal/cgroup/cgroup.go:128-168 | whatever fails, a recorded mode is the one in cpu.max, and a read-only host is never written |
| AgentSpec.QuotaIsLastGranted | cmd/agent/main.go:275-295 | on a writable host, mode and cpu.max are those of the last request whose write succeeded |
| AgentSpec.QuotaAgreesIff | cmd/agent/main.go:275-295 | the quota is the one the suppressor's state calls for if and only if the last request granted asked for it, or nothing was granted and it already was |
| AgentSpec.OnlyTransitionsWrite | cmd/agent/main.go:276-289 | a tick that changes no state, or ends suppressed, leaves the quota alone |
| AgentSpec.SaturatedIff | internal/engine/saturation.go:7-12 | with the agent's floor, memory is saturated if and only if it is known and 20 available < total |
| AgentSpec.AlertIffOnTicks | cmd/agent/main.go:203-214 | on the ticks alone: an alert if and only if the tick is troubled and is the second in a row, or, from such a pair until three calm ticks in a row, every earlier alert is ten seconds old |
| AgentSpec.IntervalOfTick | cmd/agent/main.go:219-221 | every tick's interval is the one its own score and drift call for, or one recovery step more than the last |
| AgentSpec.DriftAlertIff | cmd/agent/main.go:339-358 | a drift alert is raised if and only if a drift sets in, or it lasts and every earlier drift alert is at least a holdoff old |
| AgentSpec.ContextAtAlert | cmd/agent/main.go:205-214 | at every alert the snapshot is the last min(20, ticks) entries, ends with time, CPU and score of the anomalous tick, and on leaving Normal its last A entries are anomalous |
| AgentSpec.AlertsCarryTheirContext | cmd/agent/main.go:313-337 | every alert ever sent carries the context of the tick that raised it |
| AgentSpec.FiringTickSends | cmd/agent/main.go:212-214 | a tick sends exactly one alert if the suppressor fires, first, with its own readings, baselines and context, and none otherwise |
| AgentSpec.EveryAlertIsSent | cmd/agent/main.go:212-214 | over every run, the alerts sent are as many as the suppressor has counted |
| AgentSpec.SentInOrder | cmd/agent/main.go:212-217 | a tick sends at most one alert, one drift alert and one heartbeat, in that order |
| AgentSpec.DriftsAndBeatsSent | cmd/agent/main.go:339-379 | over every run the drift alerts and the heartbeats sent are exactly those raised, in order and unchanged |
| AgentSpec.WindowsTileTime | internal/filter/heartbeat_aggregator.go:78-114 | sent windows tile time without gaps from boot to the open window |
| AgentSpec.HeartbeatLedger | cmd/agent/main.go:205-217 | flushed plus pending counts equal the ticks and the suppressor's anomalies, and cover its suppressed total |
| AgentSpec.BeatsAreConsistent | internal/filter/heartbeat_aggregator.go:85-114 | every heartbeat sent spans a full interval, with min n <= sum <= max n |
| AgentSpec.BeatDescribesWindow | internal/filter/heartbeat_aggregator.go:50-114 | a heartbeat counts every tick since the last one, and its extremes are attained by those ticks and bound them all |
| AgentSpec.HeartbeatsAddUp | internal/filter/heartbeat_aggregator.go:50-114 | conservation: over every run the throughput and the suppressed ticks of all heartbeats and the open window are those of all ticks |
| AgentSpec.NoHeartbeatOverdue | cmd/agent/main.go:360-379 | after every tick the open window is younger than thirty seconds; a heartbeat ends, and the next window starts, at the tick that sent it |
| AgentSpec.DaemonQuietPeriodIff | cmd/agent/main.go:34-36 | with the daemon's constants the quiet period holds if and only if samples are two seconds apart |
| Decimal.ScanDigits | internal/collector/cpu_linux.go:128-133 | the digit loop reads the longest run of digits, with its value modulo 2^64 |
| Decimal.PrintIsDecimal | internal/collector/cpu_linux.go:128-133 | the value of a printed number is the number |
| Decimal.ValuePrintsBack | internal/collector/cpu_linux.go:128-133 | digits without a leading zero are how their value prints |
| CpuLine.SkipToken | internal/collector/cpu_linux.go:108-120 | returns what follows the first token and its spaces, or nothing |
| CpuLine.NextUint | internal/collector/cpu_linux.go:127-141 | any digit string's value modulo 2^64, and the rest after blanks; an error without a digit |
| CpuLine.CpuStats.Parse | internal/collector/cpu_linux.go:79-104 | on success ten counters and their sum modulo 2^64; on failure exactly which fields were overwritten, with the total untouched |
| CpuLine.WellFormedIsRead | internal/collector/cpu_linux.go:96-101 | every sequence of numbers separated by blanks is read back, whatever follows |
| CpuLine.ShortLineIsRead | internal/collector/cpu_linux.go:96-101 | a line with too few numbers is read up to exactly where they end |
| CpuLine.ParsesIffCounterLine | internal/collector/cpu_linux.go:79-104 | a line parses if and only if it is a token, spaces and that many numbers |
| CpuLine.PrintedLineParsesBack | internal/collector/cpu_linux.go:77-104 | round trip for all records, all separators and all tails |
| LineFormat.ParseValue | internal/collector/mem_linux.go:133-145 | the number after spaces and tabs, modulo 2^64, or nothing |
| LineFormat.ParseLine | internal/collector/mem_linux.go:84-98 | the key and value of one raw line after trimming, or nothing |
| LineFormat.KnownIffSeen | internal/collector/mem_linux.go:119-121 | some line records a known key if and only if some known key has a value |
| LineFormat.FieldIff | internal/collector/mem_linux.go:89-96 | a trimmed line records a field if and only if it is the key, the separator, spaces or tabs and digits, with anything but a digit after them |
| LineFormat.TrimsExactly | internal/collector/mem_linux.go:83-84 | trimming removes white space and carriage returns around a line, all of it, and nothing else |
| LineFormat.PrintedLineRecords | internal/collector/mem_linux.go:84-98 | a printed field is recorded whatever spaces, carriage returns or unit surround it |
| LineFormat.LinesOfUnlines | internal/collector/mem_linux.go:76-83 | splitting undoes joining, with or without a final newline |
| LineFormat.PrintedFieldParsesBack | internal/collector/mem_linux.go:74-117 | in any file, the last line printed for a key decides its value |
| LineFormat.PrintedRecordParsesBack | internal/collector/mem_linux.go:74-123 | round trip of whole records in any field order, among any other lines |
| MemInfo.MemStats.Store | internal/collector/mem_linux.go:99-116 | one recognised key sets one field and no other |
| MemInfo.MemStats.Parse | internal/collector/mem_linux.go:74-123 | each field is the last value recorded for its key or unchanged; fails exactly when no line records a known key |
| Usage.Sampler.CollectCpu | cmd/agent/main.go:227-240 | the percentage follows the last two successful scrapes; a failed one changes nothing |
| Usage.Sampler.CollectMem | cmd/agent/main.go:242-247 | fields merge what the file records; the share of memory in use, or the last one when the file is unreadable, unrecognised or inconsistent |
| Usage.PercentInRangeIff | cmd/agent/main.go:228-231 | without overflow the percentage lies in [0, 100] if and only if neither work nor the rest went backwards |
| Usage.PercentIsShare | cmd/agent/main.go:228-231 | without overflow it is the share of elapsed ticks that was work, where work lost counts 2^64 more |
| Usage.FailuresLeaveNoTrace | cmd/agent/main.go:227-240 | over whole runs the state depends on the successful scrapes alone |
| Usage.MetricIsShare | cmd/agent/main.go:227-240 | over any run of scrapes, failed ones among them, the percentage is the share of work between the last two that succeeded |
| Usage.MetricKept | cmd/agent/main.go:227-240 | a scrape that fails, is the first to succeed or shows no time passing keeps the percentage |
| Usage.NoPercentageYet | cmd/agent/main.go:227-240 | before two scrapes have succeeded the percentage is 0 |
| Usage.MemoryAfterScrape | cmd/agent/main.go:242-247 | each field is the one just read or the last one; the percentage times the total is what is not available, times 100, or is kept |
| Usage.PrintedScrape | internal/collector/cpu_linux.go:79-104 | a printed line of ten counters is scraped as those counters and the sum of all ten, modulo 2^64 |
| Usage.PercentagesStayInRange | cmd/agent/main.go:227-240 | with exact, nondecreasing counters every percentage of a run lies in [0, 100] |

## Left out

- HTTP, SSE and Unix-socket servers, signals, logging, metrics export and configuration loading: plumbing without state worth proving.
- Raw system calls, path buffers and cgroup path discovery: file contents and the success of writes are inputs, a file too large or unreadable is an absent one, and a failed write is taken to leave the file as it was.
- `postEvent`: replaced by an arbitrary success or failure per attempt, and cancellation by a flag that never goes back.
- IEEE-754 rounding, overflow and NaN inside the recurrences: numbers are exact and finite reals, NaN is modelled only at the guards, and marshalling a payload of finite numbers succeeds.
- Detector.ZScoreDetector.Update: scores are kept squared there and compared with the squared threshold; the agent takes their root by a function that is a parameter of the model.
- Wrap-around of the 64-bit event, sample and alert counters: they are unbounded naturals.
- Overflow of `Duration` arithmetic in the sampling interval: durations are unbounded integers.
- Outbox.Outbox.PopOnEntry: Pop as one blocking method with its select loop is not a Dafny method; its critical sections are methods, and the loop is the program counters of OutboxProtocol.
- OutboxTheorems.InternalRunsAreBounded: progress is a bound on the outbox's own steps and the shape of settled states; scheduler fairness is not assumed, so no liveness in real time is claimed.
- Agent.Agent.constructor: the outbox, the metrics and the workload generator are not objects of the agent; pushing to the outbox and to subscribers appends to a list, and the generator's next value and a pending spike are inputs of the tick.
- Agent.Agent.EmitAnomalyAlert: the event's identifier and its JSON text are left out.
- Subscriber broadcast, the synthetic workload generator and the counter of pending spikes: nothing hard to prove.
- DispatcherSystem.PostLedger: the retries metric is not a counter of the three-worker system; Dispatcher.DispatchWithRetry counts retries for one event.
- The mutexes of suppressor, ring buffer, heartbeat and controller: the tick loop calls them from one goroutine, so their methods are sequential here.
- Getters, `String` methods and the stubs for other platforms: easy members.

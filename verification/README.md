# Trading engine: exit machine, dispatcher, limiter and ledgers

A Dafny model of the stateful core of a stock trading service, with proofs of what that core keeps over all
inputs, all runs and all interleavings. `dafny verify dfyconfig.toml` checks everything.

Conventions: floating-point numbers are `real`; times are `int` (microseconds) or `real` seconds; database tables
are sequences of rows held by a class; prices, ATRs, broker answers, storage faults and clock readings are
arguments, so every theorem holds for all of them. Code that updates objects in loops is imperative here too: each
such method is proved equal to a specification function, and the laws are proved about that function.

## What is modelled

**Exit engine, twice.** `BacktestTrade` holds the long and short simulators, `StateMachine` and `LoopA` the live
machine OPEN, HALF_CLOSED, CLOSED, and `LoopARunner` the store and the monitoring loop in place.
`Refinement` proves that the two implementations agree price by price, and that a positive trailing distance is not
only enough but needed. `BacktestProperties` gives a loop-free meaning to the simulators and proves causality, loss
floors and the long/short mirror; `BacktestInputs` says in plain arithmetic what a trade reads and earns;
`BacktestScale` proves that scaling prices scales profit. `Drawdown`,
`JobReport` and `JobStore` cover one job's statistics and the table of concurrent jobs.

**Rate-limited priority dispatcher.** `Dispatcher` is a protocol of submit, dequeue, sleep, begin, finish, cancel
and time steps; its class makes exactly those steps. Invariants hold over every interleaving.

**OTP limiter.** `Auth` is a timed state machine per IP with ghost histories of issues and failures; `AuthLimits`
states for which configurations the sliding-window bound holds, as an equivalence; `AuthReplies` states when exactly
each answer is given, told by earlier answers and the clock.

**Performance accounting.** `Performance` covers cash-flow detection and drift, `PerformanceService` time-weighted
return, the single-pass equity curve and the report.

**Risk, orders and ingestion.** `Risk`, `MarginClose`, `OrderService`, `RuntimeSafety`, `LoopB`, `CandleStore` and
`Indicators`.

## What the proofs found

Places where the code meets its intent only under a condition. Each has an equivalence that says exactly when, and
a lemma with an input that breaks it.

- The simulator checks the trailing stop on the bar that takes the half, the live machine does not. They agree on
  all positive price sequences if and only if the trailing distance is positive
  (`Refinement.AgreementNeedsPositiveTrail`, `Refinement.DisagreeOnTake`). While half closed the simulator's stop is
  the live one clamped at zero, and the two can differ (`Refinement.StopsDifferBelowZero`).
- `lowest or candle.low` treats a tracked low of exactly zero as missing: the short trailing stop moves away from the
  market exactly when a bar that trades at zero is followed by one above zero
  (`BacktestProperties.ShortTrailNeverLoosens`, `BacktestProperties.ShortTrailLoosensAtZero`).
- Order, order row and position row are three separate steps. The broker has sold exactly what left the position row
  if and only if every filled close was written to that row (`LoopA.OversoldExactly`). If the row update fails, two
  full sells are recorded for one position (`LoopA.SellsMatchRow`, `LoopA.LostUpdateOversells`); if the order row
  fails, the books balance and the shares are sold twice all the same (`LoopA.LostOrderOversells`).
- The documented rule is that a failed placement is status-checked before it is retried (app/orders/service.py:23-24,
  docs/functional-spec-v0.1.md:150). The code places again unchecked exactly when the first placement failed without
  an id, which includes every placement that raised, such as a timeout after the request left
  (`OrderService.UncheckedRetryExactly`, `OrderService.TimeoutIsRetriedUnchecked`).
- The stored high stops being the highest price since the half exactly when a new high does not reach the row
  (`LoopA.TracksHighExactly`): after a lost row update (`LoopA.LostUpdateLosesHigh`), or, for trailing distances of
  zero and below, after a rejected close (`LoopA.TracksHighNeedsPositiveTrail`, `LoopA.RejectedCloseLosesHigh`).
  Such distances need another configuration or ATR provider than the deployed ones: `trail_atr_mult` is validated to
  0.5..5.0 (app/core/config.py:42) and the provider returns at least 1.0 (app/services/runtime_factory.py:196).
- The live stop moves down when the distance grows by more than the high does; whatever the prices, it never does so
  exactly when no positive distance is wider than the one before (`LoopA.StopNeverDropsExactly`,
  `LoopA.WiderDistanceLowersStop`).
- A job that raises or is cancelled does not move the dispatcher's timestamp. k starts are sure to span (k - 1)
  intervals exactly when every job before the last one succeeds (`Dispatcher.SpanGuaranteedExactly`,
  `Dispatcher.FailureAllowsBackToBack`). A cancellation, and nothing else, leaves a job's future unresolved by its
  own end (`Dispatcher.RunKeepsFutures`, `Dispatcher.CancellationLeavesPending`).
- The bound of twice the request limit per window fails when the lock is shorter than the window, and for a limit of
  one it also depends on the verification lock (`AuthLimits.BoundHoldsExactly`, `Auth.ShortLockBreaks`,
  `AuthLimits.QuickBreaks`, `AuthLimits.BarredBreaks`).
- A signal whose side is neither buy nor sell is simulated as a long but slipped in the trader's favour
  (`BacktestInputs.TradeOfSignal`, `BacktestInputs.SlippageAgainstTrader`).
- A completion alert that raises turns a completed backtest into a failed one that keeps its result
  (`JobStore.FinishedJobShowsItsReport`, `JobStore.RaisingAlertFailsTheJob`).
- The table of backtest jobs holds the jobs started last, after every event, exactly when each job with max_jobs
  later starts is no younger than any of those (`JobStore.KeepsLastExactly`). A clock that steps back can evict the
  newest job instead of the oldest (`JobStore.NewJobKept`, `JobStore.BackwardClockDropsNewJob`).
- A halted system is not paused in general exactly when the last command paused entry only
  (`RuntimeSafety.HaltedButNotPaused`, `RuntimeSafety.PauseAfterHaltLiftsPause`).
- Loop B repeats a batch, for some scan outcomes, exactly when a ticker and timeframe are attempted in a slot they
  have left before (`LoopB.RepeatsExactly`, `LoopB.BackwardClockRepeats`).
- `upsert_batch` looks up stored rows only, so the whole batch fails exactly when a new timestamp occurs twice in it
  (`CandleStore.CandleRepository.UpsertBatch`, `CandleStore.RepeatedNewTimestampFails`).
- The equity curve and the report disagree exactly when flows outside the snapshot span add up to something
  (`PerformanceService.CurveMatchesReport`, `PerformanceService.EarlyFlowSplitsThem`).

## Model

| member | source | states |
|---|---|---|
| BacktestTrade.SimulateLongTrade | app/services/backtest_jobs.py:263-320 | The bar loop ends with the trade of the exit machine `LongExit`, and with fills whose quantities add up to one unit, whose worth (quantity times price minus entry, added up) is the profit, and which make the return the profit over the entry price |
| BacktestTrade.SimulateShortTrade | app/services/backtest_jobs.py:323-379 | The same for the short side, with the worth negated, including the zero test on `lowest` |
| BacktestInputs.LongProfit | app/services/backtest_jobs.py:282-320 | At its first-touch exit a long earns exactly, in plain arithmetic: stop, target half, trailing half or last close, each against the entry |
| BacktestInputs.ShortProfit | app/services/backtest_jobs.py:342-379 | The same for shorts |
| BacktestProperties.LongExitMeaning | app/services/backtest_jobs.py:282-314 | A long leaves at an exit if and only if that exit is the first touch of stop or target (the stop winning on one bar), then the first touch of the trailing stop standing at that bar |
| BacktestProperties.ShortExitMeaning | app/services/backtest_jobs.py:342-373 | The same equivalence for the short side |
| BacktestProperties.HighSinceIsMaximum | app/services/backtest_jobs.py:298-310 | With a positive target or positive highs, the high behind the trailing stop is exactly the maximum of the target and every high since the half was taken |
| BacktestProperties.LowSinceIsMinimum | app/services/backtest_jobs.py:358-368 | With positive lows, the tracked low is exactly the minimum of the lows since the half, and never above the target |
| BacktestProperties.ShortTrailNeverLoosens | app/services/backtest_jobs.py:357-368 | For a half taken at bar i and lows not below zero, the short trailing stop never moves away from the market if and only if no bar with low zero is followed by one above zero |
| BacktestProperties.ShortTrailLoosensAtZero | app/services/backtest_jobs.py:367-368 | Concrete well-formed candles on which that happens: the stop moves from 1 to 6 |
| BacktestProperties.LongNoLookAhead | app/services/backtest_jobs.py:282-314 | Once a long has left at bar j, changing, dropping or adding bars after j leaves profit, return and reason unchanged |
| BacktestProperties.ShortNoLookAhead | app/services/backtest_jobs.py:342-373 | The same for shorts |
| BacktestProperties.AtrNoLookAhead | app/services/backtest_jobs.py:212-221 | The ATR of a signal depends on no candle after the signal bar |
| BacktestProperties.TradeNoLookAhead | app/services/backtest_jobs.py:223-260 | End to end, from signal to result: a stopped or trailed trade is settled by the candles up to the bar it left at |
| BacktestInputs.SignalIsSimulated | app/services/backtest_jobs.py:234-239 | A signal is simulated if and only if the next bar exists and its slipped open is positive |
| BacktestInputs.TradeOfSignal | app/services/backtest_jobs.py:234-260 | It enters at that price with the signal's ATR; sell signals go short, all others long |
| BacktestInputs.SlippageAgainstTrader | app/backtest/core.py:10-17 | Slippage never favours the trader on buys and sells; a side that is neither goes long but slips like a sell |
| BacktestInputs.AtrWindowBars | app/services/backtest_jobs.py:212-215 | The ATR reads exactly the last `atr_period` bars up to the signal bar, fewer at the start of the data |
| BacktestInputs.AtrOfSignal | app/services/backtest_jobs.py:212-221 | It is the mean over those bars of the larger of the bar's range and its gap from the previous close, and never below 1e-9 |
| BacktestProperties.LongFloor | app/services/backtest_jobs.py:273-320 | After the half a long earns at least its target distance minus half the trailing distance, otherwise at least stop minus entry; its return is never below -1 |
| BacktestProperties.ShortFloor | app/services/backtest_jobs.py:333-379 | The short floors for positive lows; a target clamped to zero is then never taken |
| BacktestProperties.LongShortMirror | app/services/backtest_jobs.py:263-379 | For every plan, a short on candles reflected about the entry has the profit, return and reason of the long on the original candles, when prices are positive on both sides; no clamp at zero then makes a difference |
| BacktestScale.TradeScales | app/services/backtest_jobs.py:263-379 | Multiplying prices and ATR by c > 0 multiplies profit by c and keeps return and reason, on both sides |
| BacktestRun.SimulateTrade | app/services/backtest_jobs.py:223-260 | Both error paths, the ATR window and the choice of simulator: equal to the specification `TradeOf` that the causality and job theorems are about |
| BacktestRun.ComputeAtr | app/services/backtest_jobs.py:212-221 | The clipped window before the signal, 1.0 when it is empty, and never below 1e-9 |
| Drawdown.MaxDrawdown | app/services/backtest_jobs.py:404-413 | The single pass finds the maximum, over all pairs i <= j, of the relative fall from point i to point j of the compounded equity |
| Drawdown.DrawdownUnique | app/services/backtest_jobs.py:404-413 | That maximum is unique, so the specification determines the result |
| Drawdown.DrawdownRange | app/services/backtest_jobs.py:404-413 | It lies in [0, 1] and never shrinks when returns are appended |
| Drawdown.DrawdownZero | app/services/backtest_jobs.py:404-413 | It is 0 if and only if no return is negative |
| Drawdown.DrawdownOfAssets | app/services/backtest_jobs.py:404-413 | For the returns of a positive asset series, it is the largest relative fall of the assets themselves |
| JobReport.Book | app/services/backtest_jobs.py:128-134 | One trade keeps all accumulators of the signal loop true: lists, reason counts, wins and losses |
| JobReport.SimulateNext | app/services/backtest_jobs.py:112-134 | One signal keeps them true as well; a signal that raises counts as skipped |
| JobReport.Summarize | app/services/backtest_jobs.py:138-170 | From those accumulators, every reported figure is what `IsReport` defines from the trades |
| JobReport.MoneyBalances | app/services/backtest_jobs.py:138-146 | Gross profit minus gross loss is the total, and a profit factor exceeds 1 if and only if the total is positive |
| JobReport.CountsBalance | app/services/backtest_jobs.py:104-170 | Wins, losses and break-even trades make up the trades, trades and skipped signals the signals, and exit reasons the trades |
| JobReport.LosslessJob | app/services/backtest_jobs.py:138-170 | Zero losses, zero drawdown and an absent profit factor, three figures computed apart, are equivalent |
| JobReport.EverySignalIsReported | app/services/backtest_jobs.py:112-134 | The trade of every signal that can be simulated is in the report, in signal order, and no other |
| JobStore.KeepsLastExactly | app/services/backtest_jobs.py:204-210 | In any interleaving, the table holds after every event exactly the last max_jobs started, in order, if and only if every job with max_jobs later starts is no younger than any of those |
| JobStore.KeepsLastStarted | app/services/backtest_jobs.py:204-210 | Creation times that never decrease are enough for that |
| JobStore.NewJobKept | app/services/backtest_jobs.py:42-53 | A new job survives its own start if and only if there is room or some listed job is not younger by the clock |
| JobStore.JobsAreIsolated | app/services/backtest_jobs.py:87-210 | In any interleaving, a job still listed has the row that its own events alone would have made |
| JobStore.FinishedJobShowsItsReport | app/services/backtest_jobs.py:87-195 | In any interleaving, a finished listed job shows its own report; it is completed if and only if its parameters parsed and its completion alert did not raise |
| JobStore.ProgressNeverGoesBack | app/services/backtest_jobs.py:124-136 | In any interleaving, the progress that a listed job shows never goes back and stays in 0..100 |
| JobStore.ListedProgress | app/services/backtest_jobs.py:87-202 | In any interleaving, a listed job is queued until it begins and running until it completes or fails, and its progress is the share of its signals done |
| JobStore.RaisingAlertFailsTheJob | app/services/backtest_jobs.py:172-195 | A stored report and a raising alert leave the job listed as failed with its report |
| JobStore.BackwardClockDropsNewJob | app/services/backtest_jobs.py:204-210 | A clock that steps back by one drops the new job of two |
| JobStore.BacktestJobService.StartJob | app/services/backtest_jobs.py:29-57 | Adds a queued row and trims the table: one more event of the run that the table is always the result of |
| JobStore.BacktestJobService.TrimJobs | app/services/backtest_jobs.py:204-210 | Evicts oldest rows, ties by insertion, until max_jobs are left |
| JobStore.BacktestJobService.Simulate | app/services/backtest_jobs.py:112-136 | The signal loop of a job: a correct report of all its trades, and exactly its progress events in the run |
| JobStore.BacktestJobService.RunJob | app/services/backtest_jobs.py:87-195 | A whole job adds exactly the events of its script to the run, which the theorems above are about, and stores a correct report |
| Refinement.BacktestRefinesLive | app/services/backtest_jobs.py:263-320 | On any positive prices with positive trailing distance, after every prefix the simulator and the live row agree on state, remaining fraction, stored high and reason; the simulator's trailing stop is the live one clamped at zero, and equals it when the trade leaves there |
| Refinement.StopsDifferBelowZero | app/services/backtest_jobs.py:299-309 | While half closed the two trailing stops can differ: 0 against -90 |
| Refinement.SameReason | app/orders/state_machine.py:27-85 | The live row is closed with a reason if and only if the simulator reports that reason, and it is open if and only if the simulator reports end of data |
| Refinement.LivePositionClosesAsBacktested | app/risk/engine.py:36-46 | End to end: a position opened with the shared stop and target formula closes with the reason its backtest reports, or stays open exactly when the backtest runs out of data |
| Refinement.AgreementNeedsPositiveTrail | app/services/backtest_jobs.py:299-308 | The two agree on all positive price sequences if and only if the trailing distance is positive |
| LoopA.RunConserves | app/loops/loop_a_runtime.py:105-193 | Over every run with any prices, distances, order outcomes and faults: quantity plus what lost updates sold again equals the remainder plus all recorded sells; the remainder is q, q/2 or 0 by state; at most two closes go through |
| LoopA.SellsMatchRow | app/repositories/ordering.py:140-157 | Recorded sells and remainder add up to the quantity if and only if no row update was lost after its order was recorded |
| LoopA.LostUpdateOversells | app/loops/loop_a_runtime.py:137-182 | One lost update records two full sells for one position |
| LoopA.OversoldExactly | app/loops/loop_a_runtime.py:137-182 | Over every run the broker has sold at least what left the row, and exactly that if and only if every filled close was written to the row, whichever of the two storage steps fails |
| LoopA.LostOrderOversells | app/loops/loop_a_runtime.py:160-182 | The order row fails to store: 20 shares of 10 are sold while the recorded sells balance |
| LoopA.ForwardOnly | app/orders/state_machine.py:27-96 | States only move forward; a closed row never changes |
| LoopA.VerdictMeaning | app/loops/loop_a_runtime.py:115-193 | A visit counts as closed if and only if it closes the row, and as failed if and only if it has no session or does not leave the row as a filled, faultless visit would |
| LoopA.ClosingStamp | app/repositories/ordering.py:140-157 | The visit that closes a row stamps its own time and the reason, and no other visit does |
| LoopA.TracksHighExactly | app/orders/state_machine.py:44-77 | Over every run, faults included: in every half-closed state the stored high is the maximum of all prices since and including the take-profit tick, at least the target, and the stop is that high minus the last written distance, if and only if every new high reached the row |
| LoopA.TracksHighNeedsPositiveTrail | app/loops/loop_a_runtime.py:137-190 | For one distance and no storage faults, that holds for all prices and order outcomes if and only if the distance is positive |
| LoopA.LostUpdateLosesHigh | app/loops/loop_a_runtime.py:183-191 | A row update lost at a new high leaves the old high in the row |
| LoopA.VisitLowersStop | app/orders/state_machine.py:58-77 | One visit lowers the stop of a half-closed row if and only if it writes the row with a distance that grew by more than the high did |
| LoopA.StopNeverDropsExactly | app/orders/state_machine.py:58-77 | For given trailing distances, the stop never moves down whatever the prices, order outcomes and faults, if and only if no positive distance is wider than the one before it |
| LoopA.TrailingNeverDrops | app/orders/state_machine.py:58-77 | Under that condition, constant distances included, any later stop is at least any earlier one |
| LoopA.WiderDistanceLowersStop | app/orders/state_machine.py:58-77 | A wider distance at an unchanged price lowers the stop from 115 to 110 |
| LoopA.RejectedCloseLosesHigh | app/loops/loop_a_runtime.py:137-190 | With a distance of zero or less, a rejected close leaves a stale high in the row |
| LoopARunner.OrderingStore.OpenPosition | app/repositories/ordering.py:70-101 | A new row conserves its quantity |
| LoopARunner.OrderingStore.ApplyTransition | app/repositories/ordering.py:140-157 | Rewrites one row by the transition, clamping the remainder at zero, and no other row |
| LoopARunner.OrderingStore.VisitOne | app/loops/loop_a_runtime.py:115-191 | One visit makes the row, the order row and the verdict that the model prescribes, and is one more tick of that row's run |
| LoopARunner.OrderingStore.MonitorPositionsOnce | app/loops/loop_a_runtime.py:105-198 | One cycle visits the open rows in order, up to an exception from a provider or from the critical event of a failed visit; counts monitored, closed and failed rows with closed + failed <= monitored; and leaves every stored row, over all cycles so far, where `LoopA.Run` takes it, its recorded orders being that run's sells |
| LoopARunner.CountsFit | app/loops/loop_a_runtime.py:105-193 | For all rows and answers, closed plus failed visits never exceed the open rows |
| LoopARunner.CountMeaning | app/loops/loop_a_runtime.py:105-193 | The closed and failed counts are the numbers of rows visited with that verdict |
| LoopARunner.SellMeaning | app/loops/loop_a_runtime.py:137-178 | The order recorded by a filled visit: the whole or half remainder, at the visit's price, for the reason that price gives |
| LoopARunner.OrderingStore.RowConserves | app/repositories/ordering.py:39-157 | For every stored row after any number of cycles: remainder and recorded orders add up to the quantity if and only if no row update of it was lost; remainder and broker sales do if and only if every filled close reached the row |
| LoopARunner.ReplayNext | app/loops/loop_a_runtime.py:115-191 | One more visit is one more step of a row's run, with the store's own moves |
| Dispatcher.RunKeepsInv | app/core/rate_limited_client.py:29-73 | In every state of every interleaving: each job submitted is queued or was dequeued, once; at most one is in flight; starts follow dequeues; jobs of one class leave in submission order |
| Dispatcher.QuiescentMeansAllStarted | app/core/rate_limited_client.py:58-73 | When nothing is queued or held, every submitted job has started exactly once |
| Dispatcher.OrderWaitsForOrdersOnly | app/core/rate_limited_client.py:29-37 | An order submitted behind q orders sees exactly q dequeues before its own, however many data jobs wait or arrive |
| Dispatcher.StartsAreSpaced | app/core/rate_limited_client.py:58-73 | Two starts are at least min_interval apart for each success from the earlier start up to the later one |
| Dispatcher.SuccessfulStartsSpan | app/core/rate_limited_client.py:58-73 | If all jobs from start a up to start b succeed, the two starts are at least b - a intervals apart |
| Dispatcher.TightRun | app/core/rate_limited_client.py:29-73 | For every sequence of outcomes and every interval that is not negative there is a run with those outcomes in which each start comes exactly one interval after the first for each success before it, so the bound is exact |
| Dispatcher.SpanGuaranteedExactly | app/core/rate_limited_client.py:58-73 | k starts are sure to span k - 1 intervals if and only if every job before the last one succeeds, or the interval is not positive |
| Dispatcher.SleepsExactly | app/core/rate_limited_client.py:58-64 | In every run and for both classes, a dequeued job sleeps until one interval after the end of the last successful job, and not at all if that has passed |
| Dispatcher.StartsAtOnce | app/core/rate_limited_client.py:58-66 | With an idle worker, a queued job and that interval over, the next job starts at the same instant, its dequeue being the only step in between |
| Dispatcher.FailureAllowsBackToBack | app/core/rate_limited_client.py:65-71 | A job that raises lets the next one start at the same instant |
| Dispatcher.RunKeepsFutures | app/core/rate_limited_client.py:58-73 | Every future is resolved by its own job's outcome, not before that job ran; a cancelled job leaves it unresolved |
| Dispatcher.CancellationLeavesPending | app/core/rate_limited_client.py:65-73 | A cancelled job leaves its future pending, the queue empty and no worker |
| Dispatcher.SettledStays | app/core/rate_limited_client.py:29-73 | A settled future never changes again |
| Dispatcher.RateLimitedClient.StartsSpaced | app/core/rate_limited_client.py:18-73 | The spacing bound, of the client object after any calls |
| Dispatcher.RateLimitedClient.Submit | app/core/rate_limited_client.py:29-37 | Submitting is one protocol step, next sequence number, class priority, worker restarted if it is gone, and one more event of the run that the client is always the result of |
| Dispatcher.RateLimitedClient.WorkerGet | app/core/rate_limited_client.py:58-64 | Dequeuing is one protocol step: the least job by class and sequence, waking at the later of now and one interval after the last success in the client's own run |
| Dispatcher.RateLimitedClient.WorkerBegin | app/core/rate_limited_client.py:62-66 | Starting after the sleep is one protocol step |
| Dispatcher.RateLimitedClient.WorkerFinish | app/core/rate_limited_client.py:65-73 | Finishing is one protocol step for success, exception and cancellation |
| Auth.IssuesPerWindow | app/services/auth.py:85-126 | With a lock at least as long as the window, no IP gets more than twice the limit of codes in any half-open interval of one window |
| Auth.BoundNeedsLongLock | app/services/auth.py:90-116 | For limits of two and more that bound holds for every history if and only if the lock is at least as long as the window, or the window is empty |
| AuthLimits.BoundHoldsExactly | app/services/auth.py:85-137 | For every limit and lock: the bound holds if and only if the lock outlasts the window, or the window is empty, or nothing is ever issued, or the limit is one, failed verifications never lock and two locks outlast the window |
| Auth.NoIssueWhileLocked | app/services/auth.py:95-116 | After a rate-limit rejection no code is issued for a full lock |
| Auth.FailuresPerLock | app/services/auth.py:212-237 | Between successes, any half-open interval of one verification lock registers at most the failure limit |
| Auth.StoredCodeIsLive | app/services/auth.py:118-172 | The stored code is always the latest issued one, with that issue's expiry, and no success has used it; it may be past its expiry |
| Auth.SuccessUsesLatestCode | app/services/auth.py:152-180 | A session is granted only for the latest issued code, equal and in time |
| AuthReplies.SuccessExactly | app/services/auth.py:139-182 | Over every ordered history: a verification opens a session if and only if it carries the code of the latest unused issue, in time, and no earlier lock-out still stands |
| AuthReplies.TypoIsForgiven | app/services/auth.py:159-172 | A mistyped code does not spend the right one |
| AuthReplies.TryReplies | app/services/auth.py:147-182 | A verification is answered as locked if and only if an earlier lock-out stands; otherwise it succeeds or counts as a failure |
| AuthReplies.MismatchExactly | app/services/auth.py:152-160 | A counted failure is a mismatch if and only if there is an unused code in time |
| AuthReplies.FailuresAreNumbered | app/services/auth.py:212-229 | Every failure answers its number since the last success or lock-out, and exactly the one that reaches the limit locks |
| AuthReplies.LockedRequests | app/services/auth.py:93-108 | A request is refused for a lock if and only if an earlier rate-limit rejection stands, or else an earlier lock-out does |
| AuthReplies.GrantedUnderLimit | app/services/auth.py:110-126 | Without a lock, a request is granted whenever fewer codes than the limit were issued within the last window |
| AuthReplies.RetryAfterMeaning | app/services/auth.py:99-101 | The announced wait is the whole seconds left, and at least one |
| Auth.SessionsAtMostCodes | app/services/auth.py:118-172 | In every prefix of every history, sessions opened plus a code still stored never exceed the codes issued, so a code yields at most one session |
| Auth.OtpAuthService.CodesPerWindow | app/services/auth.py:47-126 | The window bound, of the service object after any calls |
| Auth.OtpAuthService.RequestOtp | app/services/auth.py:85-137 | The dictionary updates and the reply are exactly the next event of this IP's history, of which every IP's record is always the result; no session changes |
| Auth.OtpAuthService.VerifyOtp | app/services/auth.py:139-182 | The same for a verification; a session is created exactly on success, and every stored session was opened by a success of its own IP |
| Auth.OtpAuthService.RegisterVerifyFailure | app/services/auth.py:212-229 | One failure counted, the lock set when the limit is reached |
| Auth.OtpAuthService.ValidateSession | app/services/auth.py:184-204 | Answers by presence, expiry and IP in that order, drops a session exactly when it has expired, and calls valid only what this IP's own history opened, not longer ago than the session lifetime |
| Auth.ValidationMeaning | app/services/auth.py:187-198 | A session is valid if and only if it exists, belongs to that IP and has not passed its expiry |
| Auth.OtpAuthService.RevokeSession | app/services/auth.py:206-210 | Removes that session and nothing else |
| Performance.ListSnapshots | app/repositories/performance.py:38-55 | The listed snapshots are the stored ones of the range, in time order |
| Performance.ListsEachSnapshot | app/repositories/performance.py:38-55 | Each as often as it is stored, both ends of the range included |
| Performance.ListFlows | app/repositories/performance.py:79-96 | The same for flows |
| Performance.ListsEachFlow | app/repositories/performance.py:79-96 | Each as often as it is stored, both ends of the range included |
| Performance.PnlTelescopes | app/services/performance.py:352-358 | Realised profit adds up over adjoining half-open intervals |
| Performance.RealizedIsSum | app/services/performance.py:352-358 | Realised profit is the sum of the profits of the trades with an exit price and a profit in the half-open interval; all others contribute nothing |
| Performance.DetectsExternalFlows | app/services/performance.py:104-151 | If assets move by their trades' profits plus an external amount per period, detection on well-spaced snapshots stores exactly the external amounts that reach the threshold, and no profits |
| Performance.RecordsMeaning | app/services/performance.py:119-138 | A period is recorded if and only if its unexplained amount reaches the threshold and no flow lies within 90 seconds of its end |
| Performance.DetectionIdempotent | app/services/performance.py:104-151 | For any snapshots, trades and earlier flows, an immediate second detection creates nothing |
| Performance.CreatedFlowsApart | app/repositories/performance.py:98-108 | Every flow that detection creates is more than 90 seconds from every other flow then stored |
| Performance.DriftAfterDetection | app/services/performance.py:258-266 | After detection the report's drift is the sum of the unrecorded inferred flows minus the flows listed before |
| Performance.DriftBounded | app/services/performance.py:104-151 | From an empty table and well-spaced snapshots, the drift is at most the threshold times the number of unrecorded periods |
| PerformanceService.ComputeTwr | app/services/performance.py:361-375 | The loop over neighbours computes the compounded gross return that `TwrIgnoresFlows` characterises |
| PerformanceService.TwrIgnoresFlows | app/services/performance.py:361-375 | If assets grow by r[k] and then receive the period's flows, the result is the product of 1 + r[k], whatever the flows |
| PerformanceService.WipeOutStays | app/services/performance.py:366-375 | Once flows make up all assets or more, the return is a total loss for good |
| PerformanceService.EmptyStartIsSkipped | app/services/performance.py:366-375 | A period that starts without assets does not change the return |
| PerformanceService.CurveShowsGrowth | app/services/performance.py:316-336 | Under the same growth, every point of the curve shows its period's own return and all of it compounded |
| PerformanceService.CurveProfit | app/services/performance.py:305-314 | The curve's profit is asset growth since the first snapshot without the flows since then |
| PerformanceService.EquityCurve | app/services/performance.py:301-340 | The single pass with two indices yields at every snapshot the sum of the flows up to it, and a final return equal to the report's |
| PerformanceService.PrefixIsUpTo | app/services/performance.py:305-312 | In a sorted list, the prefix consumed so far holds exactly the flows up to that time |
| PerformanceService.BuildReport | app/services/performance.py:241-276 | Return, cumulative profit, realised profit and drift of the report, including fewer than two snapshots |
| PerformanceService.ReportShowsProfits | app/services/performance.py:258-266 | The report's realised profit is the sum of the profits of the trades closed in the span, and its drift what growth, flows and that leave |
| PerformanceService.CurveMatchesReport | app/services/performance.py:258-340 | Curve and report agree on cumulative profit if and only if the listed flows outside the span add up to zero |
| PerformanceService.FlowsInSpan | app/services/performance.py:258-340 | In particular they agree when every listed flow lies in the span, the first snapshot excluded |
| PerformanceService.EarlyFlowSplitsThem | app/services/performance.py:258-340 | A flow before the first snapshot makes them differ: 5 against -5 |
| PerformanceService.PerformanceLedger.DetectCashFlows | app/services/performance.py:104-151 | The loop that reads and appends stores exactly the flows the detection theorems are about, and counts them |
| PerformanceService.PerformanceLedger.TwrReport | app/services/performance.py:241-276 | The report over the stored tables |
| PerformanceService.PerformanceLedger.Curve | app/services/performance.py:290-350 | The curve over the stored tables, whose final return is the report's |
| Risk.ComputeAtr | app/risk/engine.py:23-34 | The loop over true ranges computes the mean that `AtrBounds` bounds; it fails exactly on an empty series |
| Risk.AtrBounds | app/risk/engine.py:23-34 | For well-formed candles, mean(high - low) <= ATR <= max(high) - min(low) |
| MarginClose.MarginForcedCloseOrder | app/risk/engine.py:48-70 | Returns the shortest prefix of the stable priority order that brings exposure down to the base, everything if none does |
| MarginClose.LeftIsSum | app/risk/engine.py:55-69 | The exposure left is the sum of all values minus the sum of the values closed |
| MarginClose.LegacyMarginClose | legacy/app_v1/loops/loop_a.py:59-84 | The loop that closes and adds up again closes the rows of such a cut, in that order |
| MarginClose.NoInversion | app/risk/engine.py:50-55 | Every closed position comes before every kept one in the stable priority order |
| MarginClose.EnginesAgree | legacy/app_v1/loops/loop_a.py:59-84 | Running subtraction names exactly the positions that closing and adding up again closes |
| OrderService.Service.PlaceWithReconcile | app/orders/service.py:31-76 | For every gateway: calls, events and result are those of the protocol model, and a result that is not ok, or an exception, leaves the runtime halted |
| OrderService.FirstIsAlive | app/orders/service.py:41-52 | A refused first placement whose order the broker knows as accepted, partial or filled is a success, with one placement and no event |
| OrderService.FirstIsDead | app/orders/service.py:41-54 | Any other status, or an unknown order, gets the second placement |
| OrderService.FirstCheckRaises | app/orders/service.py:42-48 | A status check that raises ends the call with its own event and error |
| OrderService.SecondSucceeds | app/orders/service.py:53-71 | A second placement that succeeds, or that the broker knows as accepted, partial or filled, is the call's success |
| OrderService.SecondIsDead | app/orders/service.py:61-76 | Any other second refusal is unresolved, with its own event, the second id and the last error known |
| OrderService.SecondRaises | app/orders/service.py:54-76 | A second placement that raises has its own event and ends unresolved without an id |
| OrderService.AtMostTwoPlacements | app/orders/service.py:31-76 | One or two placements, whatever the gateway answers |
| OrderService.RetryExactly | app/orders/service.py:31-76 | There is a second placement if and only if the first failed and, if it has an id, its check neither raised nor found it live, and the alert for a placement that raised did not raise |
| OrderService.UncheckedRetryExactly | app/orders/service.py:31-60 | The retry comes without a status check if and only if the first placement failed without an id, every placement that raised included, and that alert did not raise |
| OrderService.TimeoutIsRetriedUnchecked | app/orders/service.py:31-60 | A timed-out placement is placed again at once, and only the second order is reported |
| OrderService.CheckedBeforeRetry | app/orders/service.py:41-52 | A failed first placement with an id is status-checked before the second |
| OrderService.OkMeansAlive | app/orders/service.py:31-76 | Success is reported only for a placement that succeeded or an order confirmed alive |
| OrderService.NotOkIsCritical | app/orders/service.py:31-81 | Everything else has reported a critical event |
| RuntimeSafety.RuntimeSafetyManager.Critical | app/services/runtime_safety.py:32-39 | The buffer is always the last max_events of the full history, and the runtime is halted |
| RuntimeSafety.RuntimeSafetyManager.LatestEvents | app/services/runtime_safety.py:41-44 | Returns the newest events of the full history, as many as asked for and kept |
| RuntimeSafety.HaltedButNotPaused | app/services/runtime_state.py:23-41 | Over every sequence of commands: the system is halted without a general pause if and only if a halt stands that no later command resumed and the last command paused entry only |
| RuntimeSafety.PauseAfterHaltLiftsPause | app/services/runtime_state.py:23-35 | A halt and one pause of entry are enough |
| RuntimeSafety.RuntimeState.Halt | app/services/runtime_state.py:31-35 | Halts and pauses everything, with the reason, as one more command |
| RuntimeSafety.RuntimeState.PauseEntry | app/services/runtime_state.py:23-25 | Pauses entry and clears the general pause, as one more command |
| LoopB.DueIsBarClose | app/loops/loop_b_runtime.py:28-53 | A timeframe is due if and only if the minute lies in the session, outside both call auctions, and closes one of its bars; the day at 15:30 |
| LoopB.DueShortestFirst | app/loops/loop_b_runtime.py:42-52 | Due timeframes come shortest bar first, each once |
| LoopB.DueSlotIsNow | app/loops/loop_b_runtime.py:28-68 | An intraday timeframe is attempted only in the very minute that its slot names |
| LoopB.SlotIsBar | app/loops/loop_b_runtime.py:55-68 | Two moments share a slot if and only if they fall into the same bar of that timeframe |
| LoopB.SlotMonotone | app/loops/loop_b_runtime.py:55-68 | Slots never move back while the clock does not |
| LoopB.RepeatsExactly | app/loops/loop_b_runtime.py:97-149 | For any keys and clock readings: no (ticker, timeframe, slot) is enqueued twice whatever the scans come to, if and only if no key is attempted in a slot it has left before |
| LoopB.OneBatchPerSlot | app/loops/loop_b_runtime.py:97-149 | With a non-decreasing clock and any failures, no (ticker, timeframe, slot) is enqueued twice, although only the last slot is remembered |
| LoopB.BackwardClockRepeats | app/loops/loop_b_runtime.py:97-114 | A clock that goes back one bar enqueues a batch twice |
| LoopB.LoopBRunner.RunOnceForTicker | app/loops/loop_b_runtime.py:97-114 | One tick makes exactly the model's attempts in due order, up to a failure that ends it, reports how many signals it produced, and over all ticks leaves the runner where `LoopB.Run` takes it |
| LoopB.SignalQueue.PutMany | app/loops/core.py:14-15 | Appends to everything ever put |
| LoopB.SignalQueue.PopOne | app/loops/core.py:17-20 | Takes signals in the order they were put, each at most once |
| CandleStore.CandleRepository.UpsertIncremental | app/repositories/candle.py:12-53 | Updates the candle's row or appends it, and keeps candles unique |
| CandleStore.LastBarWins | app/repositories/candle.py:12-53 | After any upserts each candle holds the last bar that came for it, and every other candle what it held |
| CandleStore.CandleRepository.UpsertBatch | app/repositories/candle.py:103-154 | Fails, leaving the table alone, if and only if a candle new to the table comes up twice; otherwise equals one-at-a-time upsert, with inserted + updated the batch size |
| CandleStore.BatchIsUpsertEach | app/repositories/candle.py:103-154 | The batch keeps candles unique if and only if it repeats no new candle, and then it is the fold of single upserts |
| CandleStore.RepeatsNewMeaning | app/repositories/candle.py:115-145 | Repeating a new candle means that two items share a timestamp the table lacks |
| CandleStore.DistinctBatch | app/repositories/candle.py:103-154 | For distinct timestamps, batch and single upserts give the same table |
| CandleStore.RepeatedNewTimestampFails | app/repositories/candle.py:115-152 | One new timestamp twice in a batch breaks the unique constraint, while single upserts keep one row |
| Indicators.Ema | app/strategies/helpers.py:6-15 | Fails exactly on a non-positive period or too few values; otherwise the loop computes the average the next rows are about |
| Indicators.EmaRecurrence | app/strategies/helpers.py:6-15 | The average starts as the mean of the first values and then moves two parts in period + 1 towards each new value |
| Indicators.EmaBetween | app/strategies/helpers.py:6-15 | The average lies between any bounds of its inputs |
| Indicators.EmaMonotone | app/strategies/helpers.py:6-15 | Raising inputs never lowers it |
| Indicators.EmaShift | app/strategies/helpers.py:6-15 | Shifting all inputs by c shifts it by c |

## Left out

- HTTP routes, templates, exports, Telegram, Kiwoom and KRX clients, response parsing, configuration parsing: their
  results enter as arguments.
- SQLAlchemy sessions, autoflush, row limits (5000 and 10000), migrations, and the `{"ok": False}` reports that
  storage exceptions turn into.
- Floating point: rounding, NaN and infinities, the Sharpe ratio (square roots), and one-off truncations of the
  progress percentage.
- Wall clock, time zones and daylight saving: times are arguments. Identifiers and codes from `uuid` and `secrets`
  are fresh arguments. `verify_otp` strips the code it gets; the model takes the stripped code.
- A negative `signal.index`, which Python would read from the end of the list, and a candle list that is empty when
  a simulator is called directly; `_simulate_trade` rules the second out.
- Audit entries, alert texts and the messages of critical events; whether a completion alert is due and raises is
  one argument.
- `_run_job` of a job evicted before it began returns at once; the model lets it run without effect on the table.
- Batch items whose `candle_time` is not a datetime, which `upsert_batch` skips.
- Trimming sorts once and drops a prefix; the model removes the oldest row until the table fits.
- `sorted(...)` in the margin close is the stable order that its contract describes. The legacy loop's positions
  with no remainder and its unfilled closes are not part of this model.
- `PositionStateMachine.apply`, which writes the same fields as `apply_transition`; `mark_position_closed`.
- Loop A's signal execution and its metrics; the queue it pops from is `LoopB.SignalQueue`.
- A query for the open positions that fails, which ends the cycle with zero counts and touches no row.
- Whether a halt stops the loops: Loop A does not consult the runtime flags.
- `enqueue` and the token fields of the client. `submit` takes its sequence number and enters the queue without
  suspending in between, because the queue is unbounded and its lock is never held across a suspension, so it is one
  step. A sleep lasts at least as long as asked for. A worker that is cancelled while it waits for a job or sleeps is
  not part of this model; nothing in the client cancels it.
- An order service without a safety manager (`safety is None`) reports nothing.
- AuthLimits.BoundHoldsExactly: takes the lock and the window in whole seconds, as the settings are counts of seconds.
- Refinement.BacktestRefinesLive: long side only, because the live machine has no short side.
- BacktestProperties.ShortTrailNeverLoosens: assumes prices that are not negative.

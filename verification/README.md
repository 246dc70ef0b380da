# Verified models of the trading platform's core

A Dafny project that models the stateful core of the trading platform's backend and proves what it keeps
over whole runs: the backtester, the incremental indicators, the feed's leader lock, candle construction, task
supervision, the event bus, the paper-trading ledger, and the algorithms for multiple testing, max pain, transaction
costs and portfolio pruning. Each component is one module, or a module with the code and a module with its properties:

| modules | component |
|---|---|
| `Common` | optional values, real arithmetic, sums |
| `IndicatorSpec`, `BatchIndicators`, `RollingIndicators`, `IndicatorProperties`, `IndicatorMeaning` | indicator definitions, the batch loops, the one-bar-at-a-time objects, what connects them, and what each indicator means |
| `Backtest`, `Drawdown` | trade simulator, causal bar walk, R-multiples and drawdown |
| `LeaderLock` | the Redis lease that elects one feed |
| `Timeframes`, `Candles`, `CandleProperties`, `CandleFeed` | bar boundaries, the aggregator, its guarantees, and the quote path into it |
| `Supervisor`, `SupervisorProperties`, `CrashRate` | backoff, circuit breaker, restart loop |
| `EventBus`, `EventBusProperties` | publish/subscribe with bounded queues and dead letters |
| `PaperEngine`, `PaperLedger`, `PaperProperties` | order decisions, the ledger, conservation |
| `MultipleTesting`, `MaxPain`, `Costs`, `Portfolio` | the stand-alone algorithms |

Conventions. Floats and decimals are `real` and nothing is rounded; timestamps are integers (seconds on the
supervisor's monotonic clock are `real`). Strategies, the correlation oracle, the fee of one side of a trade,
the square root and the session calendar are uninterpreted functions. Objects that the program updates in
place are classes, and their methods are proved against functions on values; the theorems are about those
functions, over every run. Exceptions are boolean or optional results, with the state the code leaves behind. Times
at which asynchronous steps happen, the jitter drawn, failures and the lengths of runs are chosen by the environment:
theorems quantify over all of them.

Where the code and its own documentation disagree, the model follows the code and the difference is a theorem:

- `backend/app/feed/lock.py:65` says the lease is refreshed "only if we still own it", but the command only
  asks that the key exists. A late renewal therefore takes over another instance's lease and both lead, for
  as long as both keep renewing (`LeaderLock.TwoLeaders`, `LeaderLock.SplitBrainPersists`). At most one leader
  is guaranteed in the runs in which no live leader's key expires under it, and every leader owns the key at every
  moment in exactly those runs (`LeaderLock.TimelyRunHasOneLeader`, `LeaderLock.SafeIffTimely`).
- `backend/app/feed/lock.py:74-83` is meant to free the lease on a graceful shutdown
  (`backend/app/feed/app.py:46-49`). It cancels the renewal task and awaits it under `suppress(Exception)`, but in
  the required Python versions (3.12 and later) the `CancelledError` raised there is no `Exception`. A release by a
  leader therefore ends in an error, before the script runs and before the flag is cleared: a release works if and
  only if the caller does not lead, and over whole runs no release ever frees the key
  (`LeaderLock.ReleaseWorksIff`, `LeaderLock.ReleaseNeverFreesKey`). A successor has to wait for the expiry
  (`LeaderLock.TakeoverAfterExpiry`).
- `backend/app/modules/backtesting/engine.py:71-72` and `backend/app/shared/indicators/incremental.py:10-11`
  call the incremental bundle equal to the full history. That holds for every value but ADX, which is computed on a
  250-bar window (`IndicatorProperties.AdxAgreesExactlyWithinWindow`), and VWAP, which restarts with each session: it
  agrees for all prices and volumes exactly while no second session has begun
  (`IndicatorProperties.VwapAgreesExactlyInOneSession`, `IndicatorProperties.VwapDiffers`).
- `backend/app/shared/events/bus.py:10-12` says the newest event is kept when a queue is full; the code drops the
  incoming event and keeps the older ones (`EventBusProperties.OrderAndConservation`).
- `backend/app/modules/market_data/candle_builder.py:106-136`: one tick priced at or below zero leaves a working bar that
  can never be closed, so the aggregator emits nothing more (`CandleProperties.BadTickBlocksForever`), and in
  the first timeframe it shuts out the symbol's other timeframes (`CandleFeed.StuckTimeframeShutsOutTheRest`).
- `backend/app/feed/service.py:249-276`: an off-session quote moves the cumulative count without building a candle, so
  what was traded before it is in no candle (`CandleFeed.OffSessionVolumeIsLost`). For a count that never falls the
  candles hold all traded volume if and only if nothing was gained on such quotes
  (`CandleFeed.CandlesHoldAllVolumeIff`).
- `backend/app/shared/supervision/supervisor.py:73-74`: a clean return clears the failure count, so the crash rate is
  bounded between clean returns (`SupervisorProperties.CrashRateBounded`), and across them if and only if the threshold
  is at most one or as many base delays as the threshold fill the window (`CrashRate.RateThroughoutIff`).
- `backend/app/modules/backtesting/engine.py:137-147` indexes the benchmark without a length check and divides by
  closes: one bar evaluated past the benchmark's end or against a zero close stops the whole run with an error
  (`Backtest.ShortBenchmarkEndsRun`). Runs complete for all strategies if and only if no symbol has such a bar
  (`Backtest.RunCompletesIff`).
- `backend/app/modules/validation/multiple_testing.py:43-58` caps q-values at one: for p-values above an alpha of at
  least one, and only then, rejection and q-value disagree (`MultipleTesting.RejectionIsQIff`).
- `backend/app/modules/paper_trading/engine.py:145-151` guards the stop against the fill price but not the target
  (`PaperEngine.TargetProfitIff`, `PaperEngine.TargetMayLose`).

## Model

| member | source | states |
|---|---|---|
| IndicatorSpec.AveragesWithinRange | backend/app/shared/indicators/core.py:42-68 | An EMA and a Wilder average of values from a range stay in that range. |
| IndicatorSpec.WilderNonNegative | backend/app/shared/indicators/core.py:57-68 | A Wilder average of non-negative values is non-negative. |
| BatchIndicators.SmaSeries | backend/app/shared/indicators/core.py:28-39 | The sliding-window sum yields at each index the mean of the last `period` values, and nothing before the window is full. |
| BatchIndicators.EmaSeries | backend/app/shared/indicators/core.py:42-54 | Entry i is the EMA of the first i + 1 values, seeded by their simple mean. |
| BatchIndicators.WilderSeries | backend/app/shared/indicators/core.py:57-68 | Entry i is Wilder's average of the first i + 1 values. |
| BatchIndicators.RsiSeries | backend/app/shared/indicators/core.py:71-98 | Entry i is the RSI of the first i + 1 closes; undefined through the warm-up. |
| BatchIndicators.MacdSeries | backend/app/shared/indicators/core.py:107-127 | Entry i holds the difference of two EMAs, the EMA of its defined part scattered back to the right bars, and the difference of both where both are defined. |
| BatchIndicators.TrueRangeSeries | backend/app/shared/indicators/core.py:130-142 | Entry i is the true range of bar i against the close before it. |
| BatchIndicators.AtrSeries | backend/app/shared/indicators/core.py:145-148 | Entry i is Wilder's average of the true ranges up to bar i. |
| BatchIndicators.SuperTrendSeries | backend/app/shared/indicators/core.py:230-270 | Entry i holds the line and direction of the ratcheting bands after i + 1 bars. |
| BatchIndicators.BollingerSeries | backend/app/shared/indicators/core.py:207-221 | Entry i holds the bands around the mean of the last `period` closes at the given multiple of their deviation. |
| BatchIndicators.AdxSeries | backend/app/shared/indicators/core.py:158-197 | Once there are more than two periods of bars, entry i of each of the three series is its value on the first i + 1 bars: the Wilder average of the directional indices defined so far, and the two directional lines. |
| BatchIndicators.VwapSeries | backend/app/shared/indicators/core.py:295-306 | Entry i is cumulative traded value over cumulative volume, undefined while nothing has traded. |
| BatchIndicators.ComputeBundle | backend/app/modules/market_data/indicator_engine.py:35-83 | The batch bundle is the last defined value of every indicator on the full history. |
| RollingIndicators.IncrementalEMA.Update | backend/app/shared/indicators/incremental.py:23-37 | After any history the object returns the EMA of that history. |
| RollingIndicators.IncrementalRSI.Update | backend/app/shared/indicators/incremental.py:40-76 | After any history the object returns the RSI of that history. |
| RollingIndicators.IncrementalATR.Update | backend/app/shared/indicators/incremental.py:79-99 | After any history the object returns the ATR of that history. |
| RollingIndicators.IncrementalMACD.Update | backend/app/shared/indicators/incremental.py:102-116 | After any history the object returns the MACD line and its signal, the average of the line's defined values. |
| RollingIndicators.IncrementalSupertrend.Update | backend/app/shared/indicators/incremental.py:119-161 | After any history the object returns the SuperTrend line and direction. |
| RollingIndicators.SessionVWAP.Update | backend/app/shared/indicators/incremental.py:164-185 | After any history the object returns the VWAP since the last change of session. |
| RollingIndicators.RollingIndicatorState.Update | backend/app/shared/indicators/incremental.py:188-232 | After any history, with only the last `window` bars in memory, the bundle is the specified one, for every window. |
| RollingIndicators.ReplayAll | backend/app/modules/backtesting/engine.py:126-134 | The bundle at bar i is the one of the first i + 1 bars: no look-ahead. |
| IndicatorProperties.RollingMatchesBatch | backend/app/shared/indicators/incremental.py:188-232 | For every history and window the specified bundles agree in every field but ADX, VWAP and the bands; in the bands exactly when the window covers their period or the history is shorter than it; in ADX up to the window; in VWAP exactly when the bars before the current session traded nothing or at the same average. |
| IndicatorProperties.BothForms | backend/app/modules/market_data/indicator_engine.py:35-83 | The same for the code: the objects fed bar by bar and the batch loops run once report bundles that agree in this way. |
| IndicatorProperties.VwapAgreesExactlyInOneSession | backend/app/shared/indicators/incremental.py:164-185 | At given times session and full VWAP are equal for all prices and volumes if and only if every in-session time is in the session of the first bar. |
| IndicatorProperties.VwapDiffers | backend/app/shared/indicators/incremental.py:164-185 | At any other times a history whose session VWAP is 2 while its full VWAP is below 2. |
| IndicatorProperties.AdxAgreesExactlyWithinWindow | backend/app/shared/indicators/incremental.py:219-232 | Windowed ADX equals full ADX on all histories of length n if and only if n fits in the window or is too short for any ADX. |
| IndicatorProperties.AdxForgets | backend/app/shared/indicators/incremental.py:219-232 | A history on which full ADX is 100 while windowed ADX is 0 or undefined. |
| IndicatorProperties.LineIsActiveBand | backend/app/shared/indicators/core.py:230-270 | After seeding the direction is 1 or -1 and the line is the lower band going up and the upper band going down. |
| IndicatorProperties.FlipIffCross | backend/app/shared/indicators/core.py:252-266 | The direction flips exactly when the close strictly crosses the previous line. |
| IndicatorProperties.BandsRatchet | backend/app/shared/indicators/core.py:246-256 | Over a stretch with no close below the lower band that band never falls; mirrored for the upper band. |
| IndicatorProperties.RsiWithinRange | backend/app/shared/indicators/core.py:71-98 | RSI lies between 0 and 100. |
| IndicatorMeaning.AveragesSeed | backend/app/shared/indicators/core.py:42-68 | EMA and Wilder average start at the mean of their first p values. |
| IndicatorMeaning.SmaIsWindowMean | backend/app/shared/indicators/core.py:28-39 | The simple average times its period is the sum of the last p values. |
| IndicatorMeaning.AveragesRespond | backend/app/shared/indicators/core.py:42-68 | A new value draws the EMA 2 / (p + 1) and the Wilder average 1 / p of the way towards itself. |
| IndicatorMeaning.ChangesSplit | backend/app/shared/indicators/core.py:78-92 | Each change of the close is a gain less a loss, one of them zero. |
| IndicatorMeaning.RsiIsShare | backend/app/shared/indicators/core.py:71-98 | RSI is the share of the average gain in all average movement, in percent, and 100 without average loss. |
| IndicatorMeaning.RsiExtremes | backend/app/shared/indicators/core.py:93-97 | RSI is 100 exactly without average loss, 0 exactly with losses only, and above 50 exactly when gains outweigh losses. |
| IndicatorMeaning.RsiRisesWithClose | backend/app/shared/indicators/core.py:71-98 | A larger last close never lowers RSI. |
| IndicatorMeaning.MacdIsGap | backend/app/shared/indicators/core.py:107-116 | The MACD line is what the slow average lacks of the fast one, from the first close on that completes both. |
| IndicatorMeaning.MacdRisesWithClose | backend/app/shared/indicators/core.py:107-127 | A larger last close raises the MACD line, when the first average is the faster one. |
| IndicatorMeaning.MacdDefinedAt | backend/app/shared/indicators/core.py:107-127 | The signal averages the line at every bar from the slow period on. |
| IndicatorMeaning.TrueRangeIsSpan | backend/app/shared/indicators/core.py:130-142 | The true range is the length of the stretch that holds the bar and the close before it. |
| IndicatorMeaning.UpperBandIsLeast | backend/app/shared/indicators/core.py:244-256 | Since its last restart the upper band is the least of the basic bands, mid price plus a multiple of ATR. |
| IndicatorMeaning.LowerBandIsGreatest | backend/app/shared/indicators/core.py:244-256 | And the lower band the greatest of the lower ones. |
| IndicatorMeaning.FirstDirection | backend/app/shared/indicators/core.py:240-270 | The first direction is up exactly when the close is not below the mid price. |
| IndicatorMeaning.BandsMeaning | backend/app/shared/indicators/core.py:207-221 | The Bollinger bands lie a multiple of the root of the window's variance on either side of its mean. |
| IndicatorMeaning.MovesMeaning | backend/app/shared/indicators/core.py:158-180 | At most one directional move of a bar is positive, the larger of rise of the high and fall of the low. |
| IndicatorMeaning.DiMeaning | backend/app/shared/indicators/core.py:158-197 | The directional lines are the smoothed moves in percent of ATR, from bar p on. |
| IndicatorMeaning.DxIsImbalance | backend/app/shared/indicators/core.py:158-197 | The directional index is the imbalance of the smoothed moves in percent of their sum, within 0 and 100. |
| IndicatorMeaning.AdxWithinRange | backend/app/shared/indicators/core.py:158-197 | ADX lies between 0 and 100 on every history of bars that are not upside down. |
| IndicatorMeaning.VwapBalances | backend/app/shared/indicators/core.py:295-306 | Highs, lows and closes of the traded volume miss VWAP by zero in total. |
| IndicatorMeaning.AnchorMeaning | backend/app/shared/indicators/incremental.py:173-180 | The anchor is where the current session began: all later in-session bars share its session, the last one before it did not. |
| Backtest.SimulateTrade | backend/app/modules/backtesting/simulator.py:20-50 | The trade ends on the first bar whose low or high reaches a level: at the stop if that bar reaches it, at the target only if not; otherwise at the last close of the horizon. |
| Backtest.StopBeforeTarget | backend/app/modules/backtesting/simulator.py:35-45 | For a well-formed signal a trade whose exit bar reaches the stop has R of exactly -1, and any other that touches a level the reward-to-risk ratio. |
| Backtest.FirstTouchUnique | backend/app/modules/backtesting/simulator.py:35-45 | The exit bar is the first one that touches either level. |
| Backtest.RMultipleBounds | backend/app/modules/backtesting/models.py:41-54 | For a well-formed signal and consistent bars every trade has R between -1 and the reward-to-risk ratio, with equality only at the levels. |
| Backtest.RunSymbol | backend/app/modules/backtesting/engine.py:53-95 | The walk appends the trades of the symbol, starting after the warm-up and skipping each holding period; too short a history gives none; a division by a zero close or an index past the benchmark ends it. |
| Backtest.Run | backend/app/modules/backtesting/engine.py:35-51 | The run concatenates the symbols' trades and counts bars and tested symbols; it fails exactly when some symbol raises an error. |
| Backtest.WalkCompletes | backend/app/modules/backtesting/engine.py:75-95 | A walk over bars none of which raises an error completes, for any strategy. |
| Backtest.OffendingBarRaises | backend/app/modules/backtesting/engine.py:97-147 | A walk that evaluates a bar with an empty window, a zero close to divide by or an index past the benchmark ends in an error. |
| Backtest.WalkCompletesIff | backend/app/modules/backtesting/engine.py:75-147 | From any start a walk completes for all strategies if and only if no bar up to the last but one is of that kind. |
| Backtest.RunCompletesIff | backend/app/modules/backtesting/engine.py:35-147 | A whole run completes for all strategies if and only if no symbol longer than the warm-up has such a bar from the warm-up on. |
| Backtest.ShortBenchmarkEndsRun | backend/app/modules/backtesting/engine.py:137-147 | Three bars against a benchmark of one, with a warm-up of one bar and no lookback: the run ends in an error. |
| Backtest.ContextIsCausal | backend/app/modules/backtesting/engine.py:97-124 | What a strategy sees at bar i, symbol and timeframe included, is the same in any two histories and benchmarks that agree up to bar i. |
| Backtest.ContextShows | backend/app/modules/backtesting/engine.py:68-124 | A context shows the trailing bars up to bar i, its time, the close before it and the indicators of the history so far. |
| Backtest.ContextStrength | backend/app/modules/backtesting/engine.py:137-147 | Its relative strength is the symbol's return over the lookback less the index's, present exactly when both reach back far enough. |
| Backtest.OutperformsIff | backend/app/modules/backtesting/engine.py:137-147 | Over positive closes it is positive exactly when the symbol has grown by more than the index. |
| Backtest.IndexTrendShows | backend/app/modules/backtesting/engine.py:150-161 | Its index trend compares the benchmark's 21- and 50-bar averages up to bar i. |
| Backtest.SymbolTradesAreTheSignals | backend/app/modules/backtesting/engine.py:53-95 | Every trade was opened by a signal past both warm-ups, and every such signal opened a trade or lies within one. |
| Backtest.ExtensionStability | backend/app/modules/backtesting/engine.py:68-95 | Adding bars keeps every earlier trade, except possibly a last one that timed out at the end of the shorter history before its holding limit; and whenever the longer run completes so does the shorter. |
| Backtest.TradesDoNotOverlap | backend/app/modules/backtesting/engine.py:75-95 | Each trade enters no earlier than the previous one exits. |
| Backtest.AllTradesBounded | backend/app/modules/backtesting/engine.py:35-95 | In any run of a strategy with well-formed signals no trade loses more than one unit of risk or gains more than its own reward-to-risk ratio. |
| Drawdown.MaxDrawdown | backend/app/modules/validation/monte_carlo.py:26-35 | The single pass returns the maximum over i <= j of equity at i less equity at j, for every path. |
| Drawdown.MaxDrawdownR | backend/app/modules/backtesting/models.py:136-146 | The same maximum on the path of R-multiples. |
| Drawdown.DrawdownAtMostLosses | backend/app/modules/backtesting/models.py:136-146 | If no step is below -1 the drawdown is at most the number of negative steps. |
| Drawdown.BacktestDrawdownAtMostLosses | backend/app/modules/backtesting/models.py:94-97 | Hence a run's drawdown in R is at most its number of losing trades. |
| LeaderLock.RedisKey.SetNx | backend/app/feed/lock.py:45-48 | Set-if-absent succeeds exactly when no live entry exists, and then stores token and expiry. |
| LeaderLock.RedisKey.SetXx | backend/app/feed/lock.py:65-66 | Set-if-present succeeds exactly when a live entry exists, whoever owns it, and then overwrites it. |
| LeaderLock.RedisKey.CompareAndDelete | backend/app/feed/lock.py:20-30 | Deletes the key exactly when its live token is the caller's. |
| LeaderLock.SingleInstanceLock.Acquire | backend/app/feed/lock.py:45-53 | Leadership after an attempt, and the renew loop it starts. |
| LeaderLock.SingleInstanceLock.RenewOnce | backend/app/feed/lock.py:61-72 | A leader stays leader exactly if the command raised or found a live key, and its renewal task ends exactly when it does not. |
| LeaderLock.SingleInstanceLock.Release | backend/app/feed/lock.py:74-83 | Raises exactly when there is a renewal task to cancel or one already cancelled, and then leaves key and flag as they were; otherwise the flag is cleared and a live key of the caller is deleted. |
| LeaderLock.SafeIffTimely | backend/app/feed/lock.py:45-83 | Over any run every leader owns the live key at every moment if and only if the key never expires under a live leader. |
| LeaderLock.TimelyRunHasOneLeader | backend/app/feed/lock.py:45-83 | A run in which the key never expires under a live leader has at most one leader. |
| LeaderLock.RunsFromStart | backend/app/feed/lock.py:45-83 | Any run of any number of fresh instances: the leaders own the key throughout if and only if it is timely, a timely one has at most one leader, and no release frees the key. |
| LeaderLock.TwoLeaders | backend/app/feed/lock.py:65-70 | A concrete run in which a late renewal leaves two leaders. |
| LeaderLock.SplitBrainPersists | backend/app/feed/lock.py:61-72 | From there both stay leaders through any number of rounds of renewals. |
| LeaderLock.ReleaseRemovesOnlyOwnLock | backend/app/feed/lock.py:20-30 | Releasing never removes an entry that holds another instance's token. |
| LeaderLock.ReleaseWorksIff | backend/app/feed/lock.py:74-83 | After a release the caller neither leads nor owns the key if and only if it did not lead before; a leader keeps both. |
| LeaderLock.ReleaseNeverFreesKey | backend/app/feed/lock.py:74-83 | Over any run from the start no release changes the key. |
| LeaderLock.TakeoverAfterExpiry | backend/app/feed/lock.py:45-59 | With no leader left, and however often standbys polled a live key in vain, the first attempt after the last expiry leads and owns the key. |
| LeaderLock.RenewalKeepsLeaderIff | backend/app/feed/lock.py:61-72 | In the cluster a renewal keeps its leader exactly while the key is live, and touches nobody else. |
| LeaderLock.ExpiredLeadersStepDown | backend/app/feed/lock.py:61-72 | After an expiry, until the next attempt, the leaders are exactly those that have neither tried a renewal since nor crashed. |
| LeaderLock.FreeAfterRenewals | backend/app/feed/lock.py:45-72 | Once every leader has done one of these the next attempt takes the lock, as the only leader. |
| LeaderLock.ToleranceIsExact | backend/app/feed/lock.py:61-72 | No run that is punctual with up to k consecutive renewal errors ends with two leaders, if and only if k + 1 renewal periods fit in the lease; the same for every leader owning the key. |
| LeaderLock.DefaultTolerance | backend/app/feed/lock.py:34 | With the default lease and period no punctual run with single errors ends with two leaders exactly for latencies under 2.5 seconds; with two errors in a row some run always does. |
| Timeframes.FixedFloor | backend/app/modules/market_data/candle_builder.py:51-67 | Every fixed-length timeframe, through its own branch of the code, floors to multiples of its length since Monday 0001-01-01. |
| Timeframes.DaysBeforeYear | backend/app/modules/market_data/candle_builder.py:54-55 | The month boundaries add up to the Gregorian calendar, for every year. |
| Timeframes.EpochIsNewYear1970 | backend/app/modules/market_data/candle_builder.py:64 | The epoch the intraday timeframes count from is the first day of 1970. |
| Timeframes.BarContains | backend/app/modules/market_data/candle_builder.py:51-76 | A timestamp lies in the bar it is floored to, whose start is a boundary, for every timeframe including months. |
| Timeframes.BarUnique | backend/app/modules/market_data/candle_builder.py:51-76 | Everything from a boundary up to the next bar floors to that boundary. |
| Timeframes.NextIsAligned | backend/app/modules/market_data/candle_builder.py:70-76 | The next bar starts later, on a boundary. |
| Timeframes.FloorIsMonotone | backend/app/modules/market_data/candle_builder.py:51-67 | Flooring keeps the order of timestamps. |
| Timeframes.FloorThroughFine | backend/app/modules/market_data/candle_builder.py:51-67 | For nesting timeframes, flooring to the fine one first does not change the coarse bar. |
| Timeframes.NestingIsExact | backend/app/modules/market_data/candle_builder.py:20-32 | The nesting relation is exactly the set of pairs for which that composition holds at every instant. |
| Candles.RollUpCompose | backend/app/modules/market_data/candle_builder.py:106-120 | Rolling up to a fine and then to a coarse nesting timeframe equals rolling up directly, in any order of arrival. |
| Candles.TimeframesAgree | backend/app/modules/market_data/candle_builder.py:106-120 | Coarse bars of a tick stream are the roll-up of its fine bars. |
| Candles.BarsAreBuckets | backend/app/modules/market_data/candle_builder.py:106-120 | In time order the bars are the open, high, low, close and volume of the ticks grouped by bucket, ascending, one per bucket. |
| Candles.ValidIff | backend/app/modules/market_data/candle_builder.py:79-91 | A bar passes validation exactly when its ticks are priced above zero and their volumes do not sum below zero. |
| Candles.TimeframeAggregator.Add | backend/app/modules/market_data/candle_builder.py:106-120 | The working bar and everything emitted are those of the accepted ticks; a tick is refused exactly when it would close an invalid bar, and then nothing changes. |
| Candles.TimeframeAggregator.Flush | backend/app/modules/market_data/candle_builder.py:122-126 | Emits the working bar and starts afresh, unless it is invalid. |
| Candles.TimeframeAggregator.CloseCurrent | backend/app/modules/market_data/candle_builder.py:132-136 | Emits the working bar exactly when it is valid. |
| Candles.TimeframeAggregator.FillGap | backend/app/modules/market_data/candle_builder.py:138-148 | Emits the flat bars from the gap's start to the target, at most the limit. |
| CandleProperties.FillLands | backend/app/modules/market_data/candle_builder.py:138-148 | The fill bars are consecutive, flat, before the target, and reach it exactly unless the limit runs out. |
| CandleProperties.NoErrorIff | backend/app/modules/market_data/candle_builder.py:106-136 | A stream is accepted without an error exactly when every bar that had to be closed is valid. |
| CandleProperties.ValidationNeverRaisesIff | backend/app/modules/market_data/candle_builder.py:79-136 | In time order all bars are valid exactly when every price is positive and no bucket's volumes sum below zero. |
| CandleProperties.BadTickBlocksForever | backend/app/modules/market_data/candle_builder.py:106-136 | After an accepted tick at or below zero nothing more is ever emitted. |
| CandleProperties.VolumeConserved | backend/app/modules/market_data/candle_builder.py:106-148 | Emitted volume plus the working bar's is the volume of the ticks, in any order of arrival. |
| CandleProperties.EmittedIsSpaced | backend/app/modules/market_data/candle_builder.py:106-148 | Emitted bars strictly ascend, are tick bars or repeat the last close, and are adjacent except after a full run of synthetic bars. |
| CandleProperties.EmittedTickBars | backend/app/modules/market_data/candle_builder.py:106-148 | The emitted bars that hold ticks are exactly the group-by-bucket bars. |
| CandleProperties.EmittedTimeframesAgree | backend/app/modules/market_data/candle_builder.py:106-148 | Rolling up the emitted tick bars of a fine timeframe gives the emitted tick bars of any timeframe it nests in, whatever the gap limits. |
| CandleFeed.CandleBuilder.AddQuote | backend/app/modules/market_data/candle_builder.py:159-166 | A quote reaches the symbol's timeframes in order up to the first that raises, and no other aggregator. |
| CandleFeed.QuoteReachesEveryTimeframe | backend/app/modules/market_data/candle_builder.py:159-166 | A quote that no timeframe refuses is added once to each of the symbol's timeframes and changes nothing else. |
| CandleFeed.QuoteHandler.HandleQuote | backend/app/feed/service.py:249-276 | One quote takes the counts and all sessions to the specified state: the volume handed on is the non-negative gain of the cumulative count; unknown symbols are ignored; off-session quotes build no candle but move the count; a refused quote has moved it too. |
| CandleFeed.StuckTimeframeShutsOutTheRest | backend/app/modules/market_data/candle_builder.py:159-166 | While the first timeframe refuses quotes no other timeframe of the symbol sees them. |
| CandleFeed.SessionIsBuilt | backend/app/feed/service.py:249-276 | Over any interleaving of quotes, a timeframe that accepts a symbol's quotes holds exactly the ticks of that symbol's in-session quotes. |
| CandleFeed.GainsTelescope | backend/app/feed/service.py:257-258 | A symbol's gains, on quotes that build candles and on those that do not, sum to the change of its cumulative count plus whatever it fell back. |
| CandleFeed.PositivePricesReach | backend/app/modules/market_data/candle_builder.py:79-166 | If a symbol's in-session prices are positive none of its quotes is refused by any timeframe. |
| CandleFeed.CandlesHoldTradedVolume | backend/app/feed/service.py:249-276 | End to end, over any interleaving of quotes, the candles of a timeframe that accepts a symbol's quotes hold the change of its cumulative count, plus fallbacks, less what was gained on quotes that build no candle. |
| CandleFeed.CandlesHoldAllVolumeIff | backend/app/feed/service.py:257-276 | For a count that never falls they hold all that was traded if and only if no off-session quote gained anything. |
| CandleFeed.OffSessionVolumeIsLost | backend/app/feed/service.py:257-276 | One morning with counts of 10 and 15 in the pre-open session and 20 after the open: the candles hold 5 of the 10 traded. |
| Supervisor.DelayBounds | backend/app/shared/supervision/supervisor.py:45-53 | Delays start at the base, never shrink with the attempt, and stay below the cap plus jitter. |
| Supervisor.DelayGrows | backend/app/shared/supervision/supervisor.py:51-53 | The first delay is the base, each further one the factor times the last, up to the cap. |
| Supervisor.JitterSpans | backend/app/shared/supervision/supervisor.py:51-53 | Jitter adds nothing at a draw of 0, its whole share of the delay at 1, and grows in between. |
| Supervisor.DelayReachesCap | backend/app/shared/supervision/supervisor.py:51-53 | With a factor above one the delay reaches the cap after finitely many crashes. |
| Supervisor.CircuitBreaker.RecordFailure | backend/app/shared/supervision/supervisor.py:65-71 | Keeps the failures of the last window, and opens for one window with a clean count at the threshold. |
| Supervisor.CircuitBreaker.RecordSuccess | backend/app/shared/supervision/supervisor.py:73-74 | Forgets the failures but not the open time. |
| Supervisor.SupervisedTask.Supervise | backend/app/shared/supervision/supervisor.py:135-167 | The loop, over any script of run lengths, outcomes, jitter and lateness, produces the specified log, state and clock. |
| SupervisorProperties.CrashRateBounded | backend/app/shared/supervision/supervisor.py:56-78 | At every moment of every run, between clean returns no half-open window holds more crashes than the threshold, and nothing starts while the breaker is open. |
| SupervisorProperties.BreakerOpensWhenDue | backend/app/shared/supervision/supervisor.py:65-71 | The breaker opens at a crash exactly when the crashes within the window since the last clean return or opening reach the threshold. |
| SupervisorProperties.CrashesAreSpaced | backend/app/shared/supervision/supervisor.py:146-167 | Crashes are at least the base delay apart, the backoff attempt counts crashes since the last clean return, restarts count all crashes, and while the state is running the breaker is closed. |
| SupervisorProperties.RestartsInTime | backend/app/shared/supervision/supervisor.py:137-145 | Once pauses of the largest delay, or five seconds if that is less, could cover what is left of the open time, one more turn has started the factory again. |
| SupervisorProperties.HaltsIff | backend/app/shared/supervision/supervisor.py:137-167 | The loop ends exactly by a cancellation of the running task or by a crash after the stop request, never while the breaker is open. |
| SupervisorProperties.StateShowsTurn | backend/app/shared/supervision/supervisor.py:137-163 | The reported state tells an open breaker, a crash and a running task apart. |
| SupervisorProperties.CleanReturnsHideCrashes | backend/app/shared/supervision/supervisor.py:73-74 | Crashes alternating with clean returns never open a breaker with threshold above one, at the base pace. |
| CrashRate.RateThroughoutIff | backend/app/shared/supervision/supervisor.py:56-78 | Across clean returns the windowed crash rate is bounded by the threshold in all runs if and only if the threshold is at most one or the window is at most the threshold times the base delay. |
| EventBus.EventBus.Register | backend/app/shared/events/bus.py:80-98 | A new subscription is last in both lists, with the default size for an absent or zero size. |
| EventBus.Subscription.PutNowait | backend/app/shared/events/bus.py:122-128 | An event is queued exactly when the size is not positive or the queue holds fewer events than it. |
| EventBus.EventBus.Send | backend/app/shared/events/bus.py:117-128 | Every matching subscriber is offered the event; full queues drop it into the dead-letter ring, in subscription order. |
| EventBus.EventBus.WorkerTake | backend/app/shared/events/bus.py:142-144 | A running idle worker takes the oldest queued event. |
| EventBus.EventBus.WorkerFinish | backend/app/shared/events/bus.py:145-159 | The end of a handler counts as delivery or error, dead-letters an error and lowers the unfinished count. |
| EventBusProperties.OrderAndConservation | backend/app/shared/events/bus.py:117-159 | In every interleaving a subscriber's handled, in-flight and queued events are, in order, its accepted offers; matched is delivered plus errors plus dropped plus queued plus in-flight; the queue keeps its bound. |
| EventBusProperties.AcceptedIffRoom | backend/app/shared/events/bus.py:122-128 | In every run a publication is accepted by a matching subscriber exactly when its queue is unbounded or its accepted events neither handled nor in hand number fewer than the size. |
| EventBusProperties.FewOffersNoDrops | backend/app/shared/events/bus.py:122-128 | A subscriber offered no more events than its queue holds has dropped none. |
| EventBusProperties.CountsPublications | backend/app/shared/events/bus.py:117-120 | Every publication is counted, also those nobody takes. |
| EventBusProperties.NothingHandledBeforeStart | backend/app/shared/events/bus.py:100-105 | Until the bus is started subscribers only collect. |
| EventBusProperties.Isolation | backend/app/shared/events/bus.py:69-75 | A subscriber ends in the same state with all other workers' steps and all other kinds' publications removed. |
| EventBusProperties.DeadLetters | backend/app/shared/events/bus.py:125-157 | The ring is the newest part of all dead letters, as long as it may be, and there is one letter per dropped and one per failed event. |
| EventBusProperties.Drains | backend/app/shared/events/bus.py:130-159 | In every interleaving without publications to a subscriber, errors allowed, each step of its worker does one unit of what was left, so the unfinished count is zero exactly after as many steps. |
| EventBusProperties.WorkerIsNeverStuck | backend/app/shared/events/bus.py:142-159 | On a running bus a worker with work left can always take its next step. |
| PaperEngine.FilledIff | backend/app/modules/paper_trading/engine.py:129-161 | Exactly which orders are filled, and that the price is the slipped reference or the binding limit, with the stop strictly on its losing side. |
| PaperEngine.SlippageIsAdverse | backend/app/modules/paper_trading/engine.py:61-80 | Nobody is filled better than the reference or worse than their limit. |
| PaperEngine.PnlBySide | backend/app/modules/paper_trading/models.py:132-168 | Marking a position shows what closing there yields, a rise for a buyer and a fall for a seller, and R is that over the risk. |
| PaperEngine.StopIsMinusOneR | backend/app/modules/paper_trading/models.py:161-168 | Closing at a protective stop gives R of exactly -1. |
| PaperEngine.TargetProfitIff | backend/app/modules/paper_trading/engine.py:103-114 | A target exit gains exactly when the target is beyond the entry. |
| PaperEngine.TargetMayLose | backend/app/modules/paper_trading/engine.py:145-151 | An accepted order whose target exit loses on an unchanged price. |
| PaperLedger.PaperTradingService.SubmitOrder | backend/app/modules/paper_trading/service.py:94-182 | Creates the account if needed, records the order, and on a fill reserves notional and fee and adds the row. |
| PaperLedger.SubmitBooks | backend/app/modules/paper_trading/service.py:94-182 | A filled order takes price times quantity and the fee out of the cash and adds a row with its terms; a rejected one only makes sure of the account. |
| PaperLedger.FeesOnNotional | backend/app/modules/paper_trading/service.py:126-240 | Each side of a trade is charged on its own notional, the exit as the opposite side. |
| PaperLedger.PaperTradingService.ApplyPriceTick | backend/app/modules/paper_trading/service.py:185-201 | An open row on the symbol closes at its stop if the price has reached that, at its target if only that, and every other row stays as it was. |
| PaperLedger.TickCloses | backend/app/modules/paper_trading/engine.py:83-114 | The same of the specified tick, on both sides, for every row. |
| PaperLedger.NothingLeftTriggered | backend/app/modules/paper_trading/service.py:192-201 | After a tick every position left open on the symbol is strictly between its stop and its target. |
| PaperLedger.PaperTradingService.CloseOne | backend/app/modules/paper_trading/service.py:203-214 | Closes an open position and ignores any other id. |
| PaperLedger.PaperTradingService.FinishTrade | backend/app/modules/paper_trading/service.py:216-273 | Releases the reserve with the result less the exit fee, books P&L and fees, closes the row and journals it once. |
| PaperProperties.LedgerConserves | backend/app/modules/paper_trading/service.py:126-267 | In every run cash plus reserves is starting cash plus realized P&L, realized P&L is the sum of the journal with one entry per closed position, and fees paid are the positions' fees. |
| PaperProperties.AccountEquity | backend/app/modules/paper_trading/models.py:213-218 | The equity loop returns starting cash plus realized P&L plus open results less entry fees, at any marks. |
| PaperProperties.StopExitsLoseOneR | backend/app/modules/paper_trading/engine.py:83-151 | In every run without explicit closes named as stops, each stop exit in the journal has R of exactly -1. |
| PaperProperties.ForcedStopIff | backend/app/modules/paper_trading/service.py:203-214 | An explicit close named as a stop has R of -1 exactly at the stop price. |
| MultipleTesting.BenjaminiHochberg | backend/app/modules/validation/multiple_testing.py:35-68 | In input order, results follow the ranks for any p-values; for non-negative ones each adjusted value is the q-value and each rejection the step-up rule, both defined without reference to ranks. |
| MultipleTesting.RejectedIffQ | backend/app/modules/validation/multiple_testing.py:43-58 | With alpha below one, or no p-value above alpha, an item is rejected exactly when its q-value is at most alpha. |
| MultipleTesting.RejectionIsQIff | backend/app/modules/validation/multiple_testing.py:43-58 | That condition is exact: rejection and q-value agree on all items if and only if it holds. |
| MultipleTesting.QMonotone | backend/app/modules/validation/multiple_testing.py:49-55 | Q-values grow with p-values and ties share one. |
| MultipleTesting.PermutationEquivariant | backend/app/modules/validation/multiple_testing.py:35-68 | Results depend only on the item's p-value and the bag of all p-values. |
| MultipleTesting.BonferroniMeaning | backend/app/modules/validation/multiple_testing.py:23-32 | An item is rejected exactly when n times its p-value is at most alpha, and its adjusted value is that product up to one. |
| MultipleTesting.BonferroniIsStricter | backend/app/modules/validation/multiple_testing.py:23-32 | Whatever Bonferroni rejects the step-up rejects, with a q-value no larger. |
| MaxPain.MaxPainStrike | backend/app/modules/market_data/options_math.py:108-126 | The smallest listed strike with the least writer payout among the listed ones, and none for an empty chain. |
| MaxPain.BestIsGlobalIff | backend/app/modules/market_data/options_math.py:108-126 | That strike minimises the payout over all real prices if and only if total call and total put interest are non-negative. |
| MaxPain.BestIsGlobal | backend/app/modules/market_data/options_math.py:108-126 | For non-negative open interest it is the global minimum. |
| MaxPain.LossIsLinear | backend/app/modules/market_data/options_math.py:119-122 | Between neighbouring strikes the payout is a straight line. |
| Costs.ChargeShape | backend/app/modules/paper_trading/costs.py:94-152 | Each side's charge is a proportional part plus taxed brokerage. |
| Costs.SidesPay | backend/app/modules/paper_trading/costs.py:102-128 | Stamp duty is the buyer's, transaction tax the seller's except on delivery, where both pay it. |
| Costs.CommonCharges | backend/app/modules/paper_trading/costs.py:94-152 | Both sides pay the same brokerage, none on delivery and never above the flat fee, the same exchange and regulator fees, and tax on these three alone. |
| Costs.ChargesMonotone | backend/app/modules/paper_trading/costs.py:130-162 | Charges are non-negative and grow with turnover. |
| Costs.SplittingNeverSaves | backend/app/modules/paper_trading/costs.py:94-162 | Any split of an order costs at least as much as the order, for every segment and side. |
| Costs.RoundtripRateFalls | backend/app/modules/validation/walk_forward.py:30-44 | Round-trip cost in basis points never rises with notional. |
| Costs.RoundtripIsPaidTwice | backend/app/modules/validation/walk_forward.py:30-44 | The rate times the notional is what both sides pay plus the spread and twice the volatility part. |
| Costs.OffsetGrows | backend/app/modules/paper_trading/costs.py:183-187 | Slippage grows with volatility and size. |
| Costs.OffsetAtZero | backend/app/modules/paper_trading/costs.py:183-187 | Without either it is half the spread. |
| Portfolio.Apply | backend/app/modules/portfolio/awareness.py:70-110 | The loop makes the specified greedy choice, with reasons, counts and risk. |
| Portfolio.GreedyIsSound | backend/app/modules/portfolio/awareness.py:70-110 | Accepted and dropped ideas split the ranking in order, and the accepted ones meet the count, risk, sector and correlation limits against each other and the held book. |
| Portfolio.GreedyTakesWhatFits | backend/app/modules/portfolio/awareness.py:84-110 | The next idea of a ranking is accepted exactly when the result with it stays within the limits. |
| Portfolio.GreedyIsMaximal | backend/app/modules/portfolio/awareness.py:87-103 | With any dropped idea added the final result would break a limit. |
| Portfolio.DropReasonsHold | backend/app/modules/portfolio/awareness.py:87-103 | The reason given for each drop is true of the final result. |
| Portfolio.SectorTagIff | backend/app/modules/portfolio/awareness.py:113-118 | The sector of an idea is what follows the prefix in its first tag that has it. |
| Portfolio.SectorIff | backend/app/modules/portfolio/awareness.py:84-97 | An empty sector counts as none. |
| Portfolio.OneIdeaPerSectorAndSide | backend/app/modules/portfolio/awareness.py:55-61 | With the default oracle and a threshold up to 0.8 no two accepted ideas share a sector and a direction. |
| Portfolio.HighThresholdAdmitsTwins | backend/app/modules/portfolio/awareness.py:55-61 | Above a threshold of 0.8 two ideas of one sector and direction are both accepted, so the bound on the threshold is sharp. |

## Left out

- Routers, schemas, the database, Redis connections, websockets, metrics, logging and the frontend: rows and the Redis key are plain state.
- Rounding, decimal conversion and float effects: every amount is an exact real.
- Options other than max pain, bootstrap, deflated Sharpe and Monte Carlo percentiles: transcendental functions and random sampling.
- Donchian channels, on-balance volume and volume averages: easy members; the indicator engine's per-instrument map of states.
- Unsupported timeframe strings and dates past the end of the calendar, which raise: the timeframe is an enumeration and time is unbounded.
- Stored-candle upserts and the effect of late ticks on them; a late tick is modelled in the aggregator, where it closes the working bar and reopens an old one.
- The candle callback raising an error, and `flush_all` over the map of aggregators.
- Stopping the bus and cancelling a worker inside a handler, where both the except branch and the finally branch count the event as done.
- Two transactions closing one position at the same time: each service call is atomic.
- Order metadata (strategy, source, holding seconds), journal queries and annotation; the account of a user stands for its id.
- `SlippageModel.fill_price` and walk-forward folds: easy members.
- Committee agents, scoring, explanations, news rules, sessions and permissions: threshold tables and single-branch readings.
- A leader calling `acquire` again: only waiting instances poll it (backend/app/feed/lock.py:55-59).
- CandleFeed.CandlesHoldTradedVolume: speaks of timeframes that refuse no quote of the symbol; `CandleFeed.PositivePricesReach` says when that is, and `CandleFeed.StuckTimeframeShutsOutTheRest` what happens otherwise.
- MultipleTesting.BenjaminiHochberg: for negative p-values only the rank-based rule is stated, because ties then need not share the value of the highest rank.
- CrashRate.RateThroughoutIff: requires a backoff with non-negative base, cap and jitter and a factor of at least one.
- SupervisorProperties.CrashesAreSpaced: requires a backoff with non-negative base, cap and jitter and a factor of at least one.
- Portfolio.OneIdeaPerSectorAndSide: speaks of the sector the oracle looks up by symbol; if a symbol is ranked twice with different tags the later one decides.

# Karsa Auto Session Manager: a Dafny model of its algorithms

This project models the decision and accounting core of a crypto trading bot and proves what that core
guarantees. Prices, amounts and indicator values are exact reals; sums, means and smoothing are the mathematical
ones. Results of services outside the modelled code (regime classifier, router score, risk profiles, AI replies,
database statistics, random resampling, the exchange, the clock) are arbitrary inputs or arbitrary functions of the
candles seen so far. `dafny verify dfyconfig.toml` checks the whole project.

| file | component |
|---|---|
| `AverageTrueRange.dfy` | the four ATR computations |
| `TradeSimulation.dfy` | one simulated backtest trade |
| `BacktestRun.dfy` | the backtest replay loop |
| `BacktestTermination.dfy` | when the replay loop ends, decided before any score is known |
| `Reconciliation.dfy` | live/shadow trade matching and its report |
| `RegimeFeedback.dfy` | automatic disabling and restoring of regimes |
| `SignalSlots.dfy` | signal workers and position slots |
| `VolumeProfile.dfy` | volume profile and value area |
| `DirectionalIndex.dfy` | the two ADX implementations |
| `DnsMessage.dfy` | DNS query builder and answer parser |
| `Drawdown.dfy` | drawdown loops, profit and loss totals |
| `CandleFeed.dfy` | candle buffer and market consumer |
| `PositionJudge.dfy` | hold counters of the position judge |
| `RegimeHysteresis.dfy` | regime hysteresis |
| `Prelude.dfy` | shared value types and sums |

## Main results

- **Backtest.** Appending candles never changes a settled report, with or without live gates. The loop terminates if
  and only if it never meets a bar whose directions are all gated while a taken trade is among the last reports it
  looks back on; without live gates it always terminates. With everything but the router fixed, it terminates under
  every router if and only if no possible entry lands in a trap: a fully gated bar, or an ungated bar of one direction
  followed by fully gated bars up to one of two directions, with bars of one direction between. Every report was made
  on a bar from 50 on, carries that bar's regime and a side it trades, and gives exit bar, reason, price, size, fees
  and funding as the candles determine them; trades never overlap. With a positive base size and multiplier, a
  non-negative entry price and no target on the losing side, a trade loses at most its risk budget if and only if it
  is entered before the last bar, or is short, or its entry price is at most its stop distance; when the stop lies on
  the entry price, at most 100 times the multiplier.
- **Matching.** The greedy matcher yields a valid, maximal matching that conserves the shadow trades and has at least
  half as many pairs as any other; the factor two is reached. In raw fields: entries pair trades of equal symbol and
  side within the window, each live trade gets the nearest shadow then free, and one without an entry has none left.
- **Regime feedback.** The stored size follows the expectancy tiers and never falls as it rises. Disabled status, size
  zero and a cooldown record always occur together; a regime is restored only after three positive days following the
  cooldown, more than 15 days after it was disabled.
- **Slots.** For every number of workers, every hash and every interleaving, no symbol is opened twice, every position
  carries a signal that arrived, and each limit is exceeded by at most the number of workers in use minus one, a
  worker being in use when the hash routes some symbol to it. For ordinary and for HYPER positions some run reaches
  this, so either limit holds in all runs if and only if all symbols are routed to the same worker. One run reaches
  both maxima at once if and only if no symbol has a worker to itself.
- **Volume profile.** The binned profile sums exactly to the traded volume; the value area holds 70% of it.
- **DNS.** Every well-formed response, taken as the datagram received (at most 512 bytes, `app/main.py:26`), parses to
  exactly its A-record addresses. A name is skipped correctly if and only if it does not consist of labels ending in a
  pointer; the skip loop lands after the question the builder writes if and only if the host name has no empty label.
  A response cut before the data of its last answer is always refused.
- **ADX.** Both versions lie between 0 and 100 and do not change when the market is turned upside down. For a period
  of at least two the classifier's DX values are the engine's after one zero per bar with range before the first
  movement, which decides when the two agree.

## Where the code falls short of its documentation

- `app/backtest/engine.py:399-415`: an entry on the last bar is closed at price zero (`LastBarLoss`, `LastBarExample`,
  `FlatLastBarExample`; `LossLimitHoldsIff` gives the exact condition).
- `app/backtest/engine.py:221-227`: with live gates the look-back can find an older trade and never advance
  (`GatedAfterTradeDiverges`, `MidnightDiverges`; `TerminatesIff` and `EveryRouterTerminatesIff` give the exact
  conditions).
- `app/commander/main.py:369-372`: a reset keeps the date of the last positive day, so a recovery that begins on that
  same day needs a fourth day (`StaleDayDelaysRestore`; `RestoredIff` gives the exact condition).
- `app/consumer/live_loop.py:1478-1481`: the worker count is configurable although the limits are kept only while all
  symbols go to one worker (`BoundReached`, `LimitHoldsIffOneRoute`).
- `app/alpha/regime.py:229-230` and `app/alpha/regime_classifier.py:365-371`: the two ADX versions treat bars before
  the first movement and short histories differently (`AgreeIff`, `ClassifierNeverStronger`, `StillBarDisagrees`).
- `app/consumer/candle_buffer.py:45-53`: two exchanges feeding one symbol can make the buffer go back in time
  (`TwoFeedsGoBack`; `BufferIncreasingIff` gives the exact condition).
- `app/main.py:36-41`: names made of labels ending in a pointer are not recognised (`MixedNameLeaps`,
  `MixedResponseFails`; `NameSkippedIff` gives the exact condition).

## Model

| member | source | states |
|---|---|---|
| `AverageTrueRange.AtrArray` | app/backtest/engine.py:499-519 | the one-pass array holds, at every index, the ATR of the candle prefix ending there, zero where the prefix is too short |
| `AverageTrueRange.HistoryAtr` | app/backtest/engine.py:522-540 | the recomputed ATR is the same per-prefix ATR, rounded |
| `AverageTrueRange.LiveAtr` | app/consumer/decision_engine.py:1371-1407 | the live engine's rolled-column computation is the same ATR, unrounded |
| `AverageTrueRange.ToolsAtr` | app/alpha/ta_tools.py:116-146 | the three-column computation is the same ATR, rounded; absent exactly when closes are short, a failure exactly when they are not but another column is shorter |
| `AverageTrueRange.WilderIsAtr` | app/alpha/ta_tools.py:142-144 | folding Wilder's smoothing over the list of true ranges gives the per-prefix ATR |
| `AverageTrueRange.AtrWithinTrueRanges` | app/backtest/engine.py:515-517 | the ATR never leaves the band its true ranges lie in |
| `AverageTrueRange.AtrNonNegative` | app/backtest/engine.py:505-517 | the ATR is never negative, on any candles |
| `AverageTrueRange.TrueRangeIsSpan` | app/backtest/engine.py:530-534 | the true range is the length of the shortest interval holding the bar and the previous close |
| `AverageTrueRange.TrueRangeIsLargest` | app/backtest/engine.py:506-512 | the true range is the largest of the bar's length and the distances of its ends from the previous close |
| `AverageTrueRange.AtrRecurrence` | app/backtest/engine.py:499-519 | zero up to `period` candles, then the mean of the true ranges, then one part in `period` of each new one |
| `AverageTrueRange.SmoothMovesOnePart` | app/backtest/engine.py:516-517 | a smoothing step moves the average towards the new value by one part in the period |
| `TradeSimulation.FirstExit` | app/backtest/engine.py:283-397 | the exit bar satisfies the per-bar exit rule and no earlier bar does |
| `TradeSimulation.SimulateTrade` | app/backtest/engine.py:236-415 | the loop with running worst price, funding and last-funding bar returns the report of the first bar meeting the per-bar rule, with funding in closed form |
| `TradeSimulation.OutcomeAt` | app/backtest/engine.py:283-397 | a bar that exits with no earlier exit determines the whole report |
| `TradeSimulation.LongReport` | app/backtest/engine.py:236-415 | from candle prices alone: a long stays open exactly until the first bar that touches stop or target, ends the holding time or is last; the report counts the bars to it and gives the reason, stop first, with price and gross result |
| `TradeSimulation.ShortReport` | app/backtest/engine.py:236-415 | the same for a short |
| `TradeSimulation.ReportAccounts` | app/backtest/engine.py:271-281 | entry and exit time, position size from the stop distance, maker or taker fee on entry, taker fee on exit, net result |
| `TradeSimulation.FundingPaid` | app/backtest/engine.py:346-355 | funding is one payment per full interval, up to the bar before a stop or target exit and up to the exit bar otherwise |
| `TradeSimulation.LastBarReport` | app/backtest/engine.py:399-415 | a trade entered on the last bar is closed at once at price zero |
| `TradeSimulation.FundingStep` | app/backtest/engine.py:347-355 | the loop's distance test fires exactly when the number of full funding intervals grows |
| `TradeSimulation.NetIsCashFlow` | app/backtest/engine.py:465-475 | the net result is the cash of the two fills, fees included, less funding |
| `TradeSimulation.EntryGeometry` | app/backtest/engine.py:417-443 | slippage is against the trade; stop and target lie at their ATR distances on the losing and winning side |
| `TradeSimulation.LossAtMostBudget` | app/backtest/engine.py:271-397 | wherever its stop is, a trade entered before the last bar loses at most base size times 100 times the multiplier, and exactly that if and only if it is stopped out at a stop on the losing side |
| `TradeSimulation.DegenerateStop` | app/backtest/engine.py:271-281 | a zero or inverted stop distance is stopped out on the first bar at no loss |
| `TradeSimulation.AmountTimesCushion` | app/backtest/engine.py:271-281 | position size times stop distance is the budget; with the stop on the entry price, size times 100 times the multiplier is |
| `TradeSimulation.LastBarLoss` | app/backtest/engine.py:271-415 | entered on the last bar and closed at zero, the budget holds exactly for shorts and for entry prices of at most the stop distance, or 100 times the multiplier when that distance is zero |
| `TradeSimulation.LossLimitHoldsIff` | app/backtest/engine.py:236-415 | wherever the stop is, the loss limit holds if and only if entry is before the last bar, or the trade is short, or its entry price is at most the stop distance, or 100 times the multiplier when that distance is zero |
| `TradeSimulation.LastBarExample` | app/backtest/engine.py:399-415 | a concrete last-bar long loses a hundred times its budget |
| `BacktestRun.Run` | app/backtest/engine.py:90-229 | the replay loop ends with the reports of the iterated step function |
| `BacktestRun.TryDirections` | app/backtest/engine.py:150-216 | gated directions leave no report, rejected ones one each, the first accepted one ends the scan |
| `BacktestRun.Scan` | app/backtest/engine.py:150-216 | at most the last report of a pass is a taken trade; a pass leaves no report exactly when all its directions are gated |
| `BacktestRun.PassReports` | app/backtest/engine.py:147-216 | a pass reports LONG, then SHORT, for each side the regime trades and no gate closes, except that an accepted LONG ends it; each report carries the bar's regime and score, and a trade exactly when the score reaches the gate |
| `BacktestRun.GatedIff` | app/backtest/engine.py:152-162 | with live gates a side is closed exactly from 00:00 to 07:00 UTC, except for the two majors, or when the sector filter rejects it |
| `BacktestRun.RunReports` | app/backtest/engine.py:125-229 | every report of a completed run was made on a bar from 50 on by these rules, in bar order, and after a trade only past its exit |
| `BacktestRun.NoBarSkipped` | app/backtest/engine.py:128-229 | from bar 50 on every bar is visited by a pass or lies inside a trade |
| `BacktestRun.StepProgress` | app/backtest/engine.py:128-229 | every pass that is not stuck reduces the remaining work, gated bars included |
| `BacktestRun.TerminatesIff` | app/backtest/engine.py:128-229 | the loop terminates if and only if it never reaches a stuck pass |
| `BacktestRun.GatesOffTerminates` | app/backtest/engine.py:128-229 | with live gates off the loop always ends and is never stuck |
| `BacktestRun.GatesOffPace` | app/backtest/engine.py:128-229 | with live gates off every pass moves to a strictly later bar |
| `BacktestRun.GatedAfterTradeDiverges` | app/backtest/engine.py:221-227 | a fully gated bar right after a trade makes the run endless |
| `BacktestRun.NightIsGated` | app/backtest/engine.py:152-156 | with live gates the first seven hours of a UTC day are closed to all but the two majors |
| `BacktestRun.MidnightDiverges` | app/backtest/engine.py:152-162 | a concrete altcoin run that never ends |
| `BacktestRun.FlatLastBarExample` | app/backtest/engine.py:271-415 | on flat candles the RANGE trade entered on the last bar loses 0.10005 against a budget of 0.07 |
| `BacktestRun.HeldOpen` | app/backtest/engine.py:283-397 | the bars a report says it held lead from its bar to the one on which the candle prices close the trade |
| `BacktestRun.TradesDoNotOverlap` | app/backtest/engine.py:179-191 | every later pass is on a bar strictly after the one on which the candle prices close the previous trade |
| `BacktestRun.SameFirstExit` | app/backtest/engine.py:283-397 | appended candles do not move an exit that was not forced by the end of data |
| `BacktestRun.NoLookAhead` | app/backtest/engine.py:125-229 | the settled reports of a run are a prefix of the reports of a run on any extension of its candles |
| `BacktestRun.CompletesOnce` | app/backtest/engine.py:90-229 | a run has one result |
| `BacktestTermination.UngatedBarsTerminate` | app/backtest/engine.py:128-229 | if every bar from the fiftieth on has an ungated direction, the loop ends |
| `BacktestTermination.HeldIgnoresScore` | app/backtest/engine.py:283-397 | how long a trade is held does not depend on its score |
| `BacktestTermination.TrapHangs` | app/backtest/engine.py:221-227 | for an entry that lands in a trap there is a router, taking that one trade only, under which the loop never ends |
| `BacktestTermination.EveryRouterTerminatesIff` | app/backtest/engine.py:128-229 | candles, gates and profiles fixed, the loop ends under every router if and only if no entry lands in a trap |
| `Reconciliation.MatchTrades` | app/analytics/reconciliation.py:83-157 | the nested loops return the entries of the greedy index matching, all pairs eligible |
| `Reconciliation.FindBest` | app/analytics/reconciliation.py:87-116 | the inner loop finds the first eligible shadow at the smallest time gap |
| `Reconciliation.NearestIsFirstMinimum` | app/analytics/reconciliation.py:113-116 | nothing eligible is passed over, nothing is closer, nothing earlier is as close |
| `Reconciliation.RemovalIsByIndex` | app/analytics/reconciliation.py:121 | removal by equality takes out exactly the chosen element |
| `Reconciliation.MatchPartition` | app/analytics/reconciliation.py:83-121 | each live and each shadow trade is used at most once, and pool and matches split the shadows |
| `Reconciliation.ShadowsConserved` | app/analytics/reconciliation.py:84-121 | pool plus matched shadows is the input multiset |
| `Reconciliation.MatchValid` | app/analytics/reconciliation.py:83-157 | the result is a valid matching |
| `Reconciliation.MatchMaximal` | app/analytics/reconciliation.py:86-121 | an unmatched live trade has no eligible shadow left |
| `Reconciliation.NothingToAdd` | app/analytics/reconciliation.py:83-157 | every eligible pair touches a matched trade |
| `Reconciliation.EntriesFromFields` | app/analytics/reconciliation.py:83-157 | every entry lists, field by field, a live and a shadow trade of equal symbol and side with both times known and at most the window apart; no trade is listed twice |
| `Reconciliation.UnmatchedFromFields` | app/analytics/reconciliation.py:86-119 | conversely, every such shadow of a live trade without an entry was taken by an earlier live trade |
| `Reconciliation.NearestFromFields` | app/analytics/reconciliation.py:113-121 | a matched live trade has the nearest in time of the such shadows then free, the first on a tie |
| `Reconciliation.HalfOfOptimum` | app/analytics/reconciliation.py:83-157 | at least half as many pairs as any valid matching |
| `Reconciliation.HalfIsReached` | app/analytics/reconciliation.py:83-157 | a case where the best matching has twice as many pairs |
| `Reconciliation.SummaryConsistent` | app/analytics/reconciliation.py:160-201 | mean PnL delta times pairs is the total penalty; fee and slippage asymmetries are differences of totals; mean execution penalty bounds the mean slippages |
| `Reconciliation.SummaryTotals` | app/analytics/reconciliation.py:160-201 | every total is the sum of its column over the pairs, every mean that sum per pair, and all are zero without pairs |
| `RegimeFeedback.AdjustRegime` | app/commander/main.py:268-375 | the dictionary updates realise one regime's step, touch no other regime, and leave everything unchanged when the flag is not set |
| `RegimeFeedback.Commander.RunCheck` | app/commander/main.py:260-385 | storing only when changed still leaves every regime's step applied |
| `RegimeFeedback.RunFollowsHistory` | app/commander/main.py:235-385 | what is stored about a regime depends on its own history alone |
| `RegimeFeedback.AlwaysCoherent` | app/commander/main.py:273-375 | disabled status, size zero and cooldown record occur together after any history |
| `RegimeFeedback.RunCoherent` | app/commander/main.py:260-385 | the same for every regime after every round of every run from the empty configuration |
| `RegimeFeedback.SizeFollowsExpectancy` | app/commander/main.py:268-331 | an enabled regime with 30 samples or more has size 1.0 from expectancy 1.0, 0.5 from -0.5, 0.3 from -2.0, and is disabled below; fewer samples change nothing |
| `RegimeFeedback.SizeMonotone` | app/commander/main.py:287-331 | the size never falls as the expectancy rises |
| `RegimeFeedback.DisabledStep` | app/commander/main.py:332-373 | a disabled regime ignores its first 14 days and repeated days, counts each other positive day, is restored at size 0.5 by the third, and starts again after a non-positive check |
| `RegimeFeedback.ManualStopStays` | app/commander/main.py:284-339 | a regime switched off by status or size without a cooldown record is never touched |
| `RegimeFeedback.RunSizes` | app/commander/main.py:260-385 | the stored configuration of a run has these sizes, overrides and cooldown records after every round |
| `RegimeFeedback.TrailHolds` | app/commander/main.py:332-373 | while disabled, the counter is the number of distinct positive days since the last setback, all after the cooldown |
| `RegimeFeedback.RestoredOnlyAfterRecovery` | app/commander/main.py:334-368 | restoring needs three uninterrupted positive days after the cooldown and comes more than 15 days after disabling |
| `RegimeFeedback.RunRestoredOnlyAfterRecovery` | app/commander/main.py:235-385 | the same between two rounds of any run with a clock that does not go back |
| `RegimeFeedback.RecoveryRestores` | app/commander/main.py:345-372 | such a recovery does restore the regime when its first day was not already counted |
| `RegimeFeedback.NewDaysAreDistinct` | app/commander/main.py:350-361 | under a clock that does not go back, the comparison with the remembered day counts distinct positive days |
| `RegimeFeedback.RestoredIff` | app/commander/main.py:345-372 | within an uninterrupted stretch after the cooldown a regime is restored if and only if the days counted before it and the distinct positive days in it, other than the remembered one, make three |
| `RegimeFeedback.StaleDayDelaysRestore` | app/commander/main.py:350-372 | a recovery that does not restore, because its first day was counted before a setback |
| `SignalSlots.AlwaysInv` | app/consumer/live_loop.py:249-478 | routing, duplicate absence and admission facts hold in every reachable state |
| `SignalSlots.NeverOpenedTwice` | app/consumer/live_loop.py:249-253 | a symbol about to be saved is open on neither side, and no symbol is ever open on both |
| `SignalSlots.OpenFromSignals` | app/consumer/live_loop.py:464-478 | every open position carries symbol, side and kind of a signal that arrived |
| `SignalSlots.QueuesInOrder` | app/consumer/live_loop.py:1482-1537 | queues hold at most 100 signals, refuse the rest, and are worked off first in, first out |
| `SignalSlots.WorkEndsIff` | app/consumer/live_loop.py:249-280 | a worker ends its work on a signal exactly by saving it, giving up, finding either side open, or finding the limit of its kind reached |
| `SignalSlots.PositionsChangeOnly` | app/consumer/live_loop.py:464-478 | saving adds the key of the worker's own signal, closing removes one key, no other step touches a position |
| `SignalSlots.GroupBound` | app/consumer/live_loop.py:255-280 | positions saved before the latest scan leave a slot free, all others were in flight, one per worker in use |
| `SignalSlots.SlotBounds` | app/consumer/live_loop.py:255-280 | under any hash each kind of position exceeds its limit by at most the number of workers in use minus one |
| `SignalSlots.SingleWorkerLimits` | app/consumer/live_loop.py:1478-1482 | with one worker both limits and their sum hold |
| `SignalSlots.BoundReached` | app/consumer/live_loop.py:1481-1537 | for either kind of position, either side, every worker count, hash and positive limit, some interleaving opens the limit plus the workers in use minus one |
| `SignalSlots.LimitHoldsIffOneRoute` | app/consumer/live_loop.py:1478-1519 | the ordinary limit, and likewise the HYPER limit, holds in all runs if and only if the hash routes all symbols to one worker |
| `SignalSlots.BothBoundsReachedIff` | app/consumer/live_loop.py:255-280 | one run opens the most positions of both kinds at once if and only if every symbol shares its worker with another |
| `VolumeProfile.BinContains` | app/alpha/ta_tools.py:183-190 | search and clipping find the bin that contains the price |
| `VolumeProfile.CenterInside` | app/alpha/ta_tools.py:172-173 | bins are equally wide and each centre is the middle of its bin |
| `VolumeProfile.ShareIsProportional` | app/alpha/ta_tools.py:186-202 | every bin gets volume in proportion to its overlap with the candle's range |
| `VolumeProfile.PointShare` | app/alpha/ta_tools.py:182-185 | a candle without a price range puts its volume into the bin that contains its price |
| `VolumeProfile.OverlapsTelescope` | app/alpha/ta_tools.py:196-202 | overlaps with consecutive bins add up to the covered range |
| `VolumeProfile.SharesConserve` | app/alpha/ta_tools.py:177-202 | one candle's shares add up to its volume |
| `VolumeProfile.ProfileConserves` | app/alpha/ta_tools.py:171-202 | the profile sums exactly to the traded volume |
| `VolumeProfile.ProfileAt` | app/alpha/ta_tools.py:175-202 | each bin holds the sum of its shares of all candles |
| `VolumeProfile.AddCandle` | app/alpha/ta_tools.py:177-202 | the in-place update adds exactly the candle's shares |
| `VolumeProfile.AddRange` | app/alpha/ta_tools.py:195-202 | the loop over the spanned bins adds the overlap shares and changes no other bin |
| `VolumeProfile.ExpandTakesLarger` | app/alpha/ta_tools.py:217-235 | an expansion takes the larger neighbour only, both exactly on a tie, and the remaining one at the end of the profile |
| `VolumeProfile.GrowReaches` | app/alpha/ta_tools.py:216-235 | growth takes the fewest expansions that cover the target |
| `VolumeProfile.GrowLoop` | app/alpha/ta_tools.py:204-235 | the loop with its running volume computes the value area |
| `VolumeProfile.CalculateVpvr` | app/alpha/ta_tools.py:148-240 | no result below two candles, one level for a flat range, else the centres of the value area of the conserved profile |
| `VolumeProfile.ValueAreaSpec` | app/alpha/ta_tools.py:204-240 | at least 70% of the traded volume is covered, by the fewest expansions around the point of control, and VAL, POC and VAH are in order |
| `DirectionalIndex.ComputeEngineAdx` | app/alpha/regime.py:182-243 | the list-based loops compute the engine's ADX |
| `DirectionalIndex.ComputeClassifierAdx` | app/alpha/regime_classifier.py:313-378 | the array-based loops compute the classifier's ADX |
| `DirectionalIndex.LargerMoveCounts` | app/alpha/regime.py:204-208 | only the larger outward move of a bar counts, up or down |
| `DirectionalIndex.SmoothedRecurrence` | app/alpha/regime.py:211-222 | plain sums over the first `period` bars, then each sum loses one part in `period` and gains the bar's value |
| `DirectionalIndex.DxOfMovement` | app/alpha/regime.py:224-232 | the engine lists 100 times the difference of the smoothed movements over their sum for every bar with range and movement |
| `DirectionalIndex.FinishRecurrence` | app/alpha/regime.py:237-240 | the first `period` values divided by the period, then one part in `period` of each later one |
| `DirectionalIndex.AdxIgnoresDirection` | app/alpha/regime.py:182-243 | turning the candles upside down changes neither ADX |
| `DirectionalIndex.MovementDominated` | app/alpha/regime.py:199-208 | directional movement of one bar is at most its true range |
| `DirectionalIndex.SmoothedDominated` | app/alpha/regime.py:213-222 | smoothed directional movement never exceeds smoothed true range |
| `DirectionalIndex.DiBounds` | app/alpha/regime.py:226-228 | both directional indicators are non-negative and sum to at most 100 |
| `DirectionalIndex.AdxBounds` | app/alpha/regime_classifier.py:346-378 | both ADX versions lie between 0 and 100 on any candles |
| `DirectionalIndex.StillIff` | app/alpha/regime.py:213-230 | for a period of at least two the smoothed range is zero only before the first bar with range, and the indicators sum to zero only before the first movement |
| `DirectionalIndex.ZerosFirst` | app/alpha/regime_classifier.py:351-369 | the classifier's DX values are the engine's after one zero for each bar with range before the first movement |
| `DirectionalIndex.AgreeIff` | app/alpha/regime_classifier.py:346-378 | for a period of at least two and any candles, the versions agree if and only if all DX values are zero, or there are enough of them and the leading zeros are harmless, by a condition on their number and the first positive index |
| `DirectionalIndex.AgreeIffPeriodOne` | app/alpha/regime_classifier.py:351-378 | at period one, where smoothing keeps nothing, the versions agree if and only if the last bar with range moves or the engine's last DX value is zero |
| `DirectionalIndex.ClassifierNeverStronger` | app/alpha/regime_classifier.py:351-378 | on any candles the classifier's ADX is at most the engine's |
| `DirectionalIndex.StillBarDisagrees` | app/alpha/regime.py:229-230 | thirty candles on which, at period 14, the engine reports 100 and the classifier less |
| `DnsMessage.BuildQuery` | app/main.py:14-21 | header and question of the split host name, or an error exactly when a label exceeds 255 bytes |
| `DnsMessage.SkipsOwnQuestionIff` | app/main.py:17-32 | the skip loop lands after the builder's question if and only if no label is empty |
| `DnsMessage.QueryNameRoundTrip` | app/main.py:17-20 | the name on the wire reads back as the host name |
| `DnsMessage.QueryIsMessage` | app/main.py:14-21 | the query is a well-formed message and parses to no address |
| `DnsMessage.SkipLoop` | app/main.py:30-31 | the loop stops at the first zero length byte or runs out of data |
| `DnsMessage.ReadOne` | app/main.py:35-49 | one pass reads one record, with the source's failures |
| `DnsMessage.NameEndByBits` | app/main.py:36-41 | the test of the two top bits decides between a two-byte pointer and the skip loop, for every byte |
| `DnsMessage.RecordErrors` | app/main.py:35-44 | a record fails with an index error exactly when its name runs past the data, with a struct error exactly when fewer than ten bytes follow |
| `DnsMessage.ParseResponse` | app/main.py:29-50 | the parser's result for every datagram, failures included |
| `DnsMessage.ParsesEveryResponse` | app/main.py:29-50 | every datagram of header, plain question and plainly or pointer-named answers parses to its A addresses in order |
| `DnsMessage.CutIsRefused` | app/main.py:26-50 | a response cut anywhere before the data of its last answer is refused, never read as a shorter one |
| `DnsMessage.MixedNameLeaps` | app/main.py:39-41 | after labels ending in a pointer the skip loop takes the pointer's first byte for a length and goes on that far beyond it |
| `DnsMessage.NameSkippedIff` | app/main.py:36-41 | a valid name is skipped correctly if and only if it is not labels ending in a pointer |
| `DnsMessage.MixedResponseFails` | app/main.py:29-41 | a 39-byte response with one such name on which the parser fails |
| `Drawdown.ComputeDrawdown` | app/analytics/performance.py:72-93 | equity series, final peak, the largest fall between any two moments, and its share of the peak it fell from at its first occurrence |
| `Drawdown.Fall` | app/backtest/walk_forward.py:188-199 | the walk-forward loop finds the largest fall and the final equity |
| `Drawdown.Resample` | app/backtest/monte_carlo.py:89-116 | every sample's final equity and largest fall, and the number of ruined samples |
| `Drawdown.RuinedIsCount` | app/backtest/monte_carlo.py:115-116 | ruin is the number of samples that end below zero |
| `Drawdown.LargestFallUnique` | app/analytics/performance.py:85-92 | the largest fall is one number, so the three loops agree |
| `Drawdown.NetIsFinalEquity` | app/analytics/performance.py:139-161 | gross profit minus gross loss is the final equity |
| `Drawdown.FallBetween` | app/analytics/performance.py:151-161 | the largest fall lies between the final loss and the gross loss |
| `CandleFeed.CandleBuffer.Append` | app/consumer/candle_buffer.py:35-53 | same timestamp replaces, otherwise appends within capacity; other symbols unchanged |
| `CandleFeed.CandleBuffer.ClearAll` | app/consumer/market_consumer.py:125-127 | a reconnect empties every symbol |
| `CandleFeed.BufferIsLogTail` | app/consumer/candle_buffer.py:45-53 | the bounded buffer is the tail of the unbounded last-write-wins log |
| `CandleFeed.LogStands` | app/consumer/candle_buffer.py:45-53 | the log holds, in order, exactly the candles not followed by one of the same timestamp |
| `CandleFeed.LogIncreasingIff` | app/consumer/candle_buffer.py:45-53 | the log is strictly increasing in time if and only if appended timestamps never go back |
| `CandleFeed.BufferIncreasingIff` | app/consumer/candle_buffer.py:45-53 | a buffer with room for two is strictly increasing at every moment if and only if appended timestamps never go back |
| `CandleFeed.OrderedFeedKeepsOrder` | app/consumer/market_consumer.py:187-188 | messages in time order keep the buffer strictly increasing |
| `CandleFeed.MarketConsumer.ProcessMessage` | app/consumer/market_consumer.py:182-216 | buffers every tick and evaluates exactly when the candle is the feed's newest and enough are buffered |
| `CandleFeed.TriggersIff` | app/consumer/market_consumer.py:182-201 | evaluation runs exactly when the timestamp is positive and newer than all its feed sent, and 50 candles of the symbol are buffered |
| `CandleFeed.MarketConsumer.Reconnect` | app/consumer/market_consumer.py:125-128 | buffers and timestamps are forgotten |
| `CandleFeed.EvaluationsIncrease` | app/consumer/market_consumer.py:182-193 | between reconnects each feed is evaluated at strictly increasing timestamps |
| `CandleFeed.NewestIsMaximum` | app/consumer/market_consumer.py:185-193 | the remembered timestamp is the largest the feed has sent |
| `CandleFeed.TwoFeedsGoBack` | app/consumer/candle_buffer.py:45-53 | two feeds for one symbol can make the buffer go back in time |
| `PositionJudge.Judge.Decide` | app/alpha/position_judge.py:129-242 | verdict and counter for arbitrary AI replies; other positions unchanged |
| `PositionJudge.RuleShape` | app/alpha/position_judge.py:136-242 | which tier speaks: a forced exit at a loss after three holds, two in a checkpoint review, else the cheap tier unless it holds below 70, else the escalated one, else HOLD; and what the count becomes |
| `PositionJudge.LossIff` | app/alpha/position_judge.py:129-131 | a short loses above its entry price, every other position below it |
| `PositionJudge.CounterBounded` | app/alpha/position_judge.py:133-221 | the hold counter stays between 0 and 3 in any run of calls |
| `PositionJudge.LosersAreNotGround` | app/alpha/position_judge.py:136-165 | four successive calls at a loss, or three ending in a checkpoint review, contain a verdict other than HOLD |
| `RegimeHysteresis.Hysteresis.Confirm` | app/consumer/decision_engine.py:409-424 | one reading moves one symbol's memory and returns the regime in effect |
| `RegimeHysteresis.SwitchesIff` | app/consumer/decision_engine.py:410-424 | the regime changes exactly on the second of two consecutive readings that differ from it |
| `RegimeHysteresis.FirstTakesEffect` | app/consumer/decision_engine.py:409-424 | the first reading takes effect at once |
| `RegimeHysteresis.SwitchBound` | app/consumer/decision_engine.py:410-424 | n readings switch at most (n - 1) / 2 times |

## Left out

- Rounding of floats and decimals: arithmetic is exact; the 8-decimal rounding of the ATR is an arbitrary function.
- Calculation of regime, score, volatility factor and risk profile: arbitrary functions of the candle prefix.
- `PortfolioRiskManager`, the ML prefilter, the AI analyst and order execution: any of them may abandon a signal, nothing more is modelled.
- Positions saved by the exchange synchronisation and orphan adoption jobs: only workers open positions in the slot model.
- `PositionStore.update_peak`, `update_sl`, `update_checkpoint` and `update_fields`: they read a position and write it back, so one may re-create a position closed in between; such re-creation is not modelled.
- Changes of the slot limits during a run: the limits are fixed.
- Writes to the stored configuration by other programs: only the feedback loop writes it in the model.
- Unreadable cooldown timestamps: the loop writes every timestamp it later reads, so the parse failure branch is not modelled.
- Trade dictionaries without a symbol or side key: the matcher's documentation asks for both keys; null values are modelled.
- Candles with negative volume or low above high in the volume profile: not promised by the source's data.
- The tie branches of the value-area loop with one neighbour missing: unreachable for non-negative volume.
- Text rendering of addresses: an address is its four bytes.
- Sharpe and Sortino ratios, Bollinger bands, Hurst exponent, percentiles: they need square roots, logarithms or sorting of floats.
- Telegram handlers, formatters, metrics, dashboards, database access and migrations: input and output only.
- The `symbol` field of backtest reports: it is the same in all reports of a run.
- The sector filter is a function of the candles seen so far; its own state is not modelled.
- Concurrent judge calls on one position: the counter is read before the AI reply is awaited and written after it; the model takes calls on one position one after the other.
- Truncation of DNS responses: the theorem is about the datagram received, at most 512 bytes.
- `BacktestRun.Run`: requires that the run is never stuck, because on a stuck run the source does not return.

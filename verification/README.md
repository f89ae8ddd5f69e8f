# MarketPilot, verified

MarketPilot supports decisions about same-day iron condors: it calibrates how far an index may move, picks strikes
from that, prices and simulates the position, gates an entry on its risk, and around that runs alert delivery, quote
collection, model governance, point-in-time replay and audit ledgers. It never trades by itself, so what it is worth
rests on its numbers and logs meaning what they claim. This project models that logic in Dafny and proves those
claims. `dafny verify dfyconfig.toml` checks all of it.

Times are integers (microseconds, or whole days for dates), money and prices are exact reals, and strings are ordered
by code point. Hashes, signatures, senders, clocks, tail models and the option pricing formula are parameters:
everything is proved for any of them, and where a hash matters the theorem names the collision that breaking it
would need instead of assuming that there is none.

| modules | what they model |
|---|---|
| `Common`, `Sorting`, `Order`, `Backoff` | results, Python's stable sort, string order, capped exponential backoff |
| `EmpiricalQuantile`, `BufferSearch`, `TailModel`, `TailModelIv`, `TailCalibration` | tail calibration: order statistics, the grid search for buffers, the fitted models, the conformal corridor |
| `RealizedExcursions`, `Strikes`, `CorridorGuarantee` | measured excursions, strikes and settlement, and the coverage guarantee along the whole chain |
| `CondorEconomics`, `ExitRules`, `ExecutionEconomics`, `RiskEconomics`, `ImpliedVol` | fills, exit simulation, exact execution costs, the CVaR gate, implied volatility |
| `WalkForward`, `WalkForwardEvaluation`, `DistanceRecommender` | purged folds, scoring on them, walk-forward recommendations |
| `AlertDelivery`, `DeliveryPacing`, `AlertOrchestrator` | the alert outbox: the protocol of one message, what its log says about its attempts, and the store and service that run it |
| `AlertStream` | the resumable alert stream |
| `DataQuality`, `Collector`, `CollectorProperties` | the quote-quality verdict and the collector state machine |
| `Governance`, `ChampionRegistry`, `GovernanceLog` | champion governance: the abstract machine, and the map-based and log-based registries that refine it |
| `Replay`, `ReplayLedger`, `HashChain` | point-in-time views and manifests, the ledgers behind them, hash-chained ledgers |

Where the code and its own documentation or intent part, the model follows the code:

- `recommend_walk_forward` documents training days strictly before the cutoff and trains on the cutoff day as well.
  Subtracting a duration from a date drops its hours, so a purge gap of less than a day is no gap: a day's own label
  then trains its own recommendation (`DistanceRecommender.OwnLabelIsTrainedOnExactlyWithoutGap`).
- The conformal corridor promises to cover P = min(n, ceil((n + 1)c)) of its n samples and caps its quantile at
  1 - 1e-12. Over all strata of size n it keeps the promise if and only if P <= n - n / 10^12 or the base quantiles
  already are the extreme samples, ceil(cn) = n (`TailCalibration.PromiseKeptExactlyWhenAttainable`); below a trillion
  samples that is always so. At a trillion samples and c = 0.9999999999985 a stratum is given on which one sample
  stays outside (`TailCalibration.CapBitesAtATrillion`).
- The computed tail average can stay below the expected loss, in two ways: the CVaR loop stops with up to 1e-15 of
  tail mass unfilled (`RiskEconomics.CutoffCanUnderstate`), and probabilities may add up to slightly more than one
  (`RiskEconomics.TotalAboveOneUnderstates`). Listed from the worst, scenarios of given probabilities have a tail
  average of at least their expected loss, whatever they pay, if and only if the loop fills at least the tail mass
  times their total probability (`RiskEconomics.CoversExactlyWhenShareFilled`). With a total of one that means that no
  run of worst scenarios ends within the cut-off below the tail mass, and with a larger total it never holds
  (`RiskEconomics.ShareByTotal`).
- A position may be opened at a debit. A profit target can then close it at a loss and a stop at a gain; the reason of
  an exit tells profit from loss exactly when the credit is not negative (`ExitRules.ReasonTellsProfitExactlyForCredit`).
- The log-based registry differs from the map-based one on exactly two kinds of operation: it accepts the very
  version it holds again, which changes nothing, and it accepts and records a rollback of a model that never had a
  champion (`GovernanceLog.RegistriesDifferExactly`, `GovernanceLog.RollbackGapIsReachable`). Until the first such
  rollback both are in the same state over any run (`GovernanceLog.RunsAgreeUntilTheGap`).
- A manifest written for a backtest selects by availability, and replay selects by observation. It replays exactly
  when no record was published by the instant but first seen later
  (`Replay.BacktestManifestReplaysExactlyWithoutBackfill`).
- The outbox reads events by (time, position), so an acknowledgement may be read before an escalation written
  earlier; every decision is proved to come out the same in either order (`AlertOrchestrator.AcknowledgementDecision`).
- Repeating a stored message is not always harmless: once a later message of its key is stored, the same call is
  refused as out of order (`AlertOrchestrator.RepeatAfterLaterMessageIsRefused`).
- Stopping the collector keeps its attempt counter and drops its retry time (`CollectorProperties.LossSchedulesRetry`).
- A day whose quotes offer more credit than the wing is refused with an error, not booked
  (`CondorEconomics.RichCreditIsRefused`).

## Model

| member | source | states |
|---|---|---|
| EmpiricalQuantile.QuantileHigher | src/marketpilot/validation/tail_calibration.py:16-25 | fails exactly on an empty sample, a negative value or a quantile outside (0, 1), and otherwise returns a sample value |
| EmpiricalQuantile.QuantileIsLeastCover | src/marketpilot/validation/tail_calibration.py:16-25 | the quantile is the least sample value with at least the quantile's share of the sample at or below it |
| EmpiricalQuantile.QuantileIsOrderStatistic | src/marketpilot/validation/tail_calibration.py:16-25 | it is an order statistic: the sorted sample's element at the computed index, which is always inside the sample |
| EmpiricalQuantile.QuantileGrows | src/marketpilot/validation/tail_calibration.py:16-25 | a higher quantile of the same sample is never smaller |
| BufferSearch.BufferGrid | src/marketpilot/validation/tail_model_v2.py:60-68 | the grid starts at zero, each point lies one step above the one before it, and it ends within one step below the maximum; bad arguments are the only errors |
| BufferSearch.GridIsAllMultiples | src/marketpilot/validation/tail_model_v2.py:67-68 | the grid holds exactly the multiples of the step from zero up to the maximum |
| BufferSearch.CalibrateSideBuffers | src/marketpilot/validation/tail_model_v2.py:110-145 | the row-by-row search with its early break returns the lexicographic minimum of (up + down, up, down) over all feasible pairs of the grid |
| BufferSearch.LeastFeasibleIsUnique | src/marketpilot/validation/tail_model_v2.py:110-145 | that minimum is unique, so the search result does not depend on how the grid is walked |
| BufferSearch.NoneExactlyWhenMaximumMisses | src/marketpilot/validation/tail_model_v2.py:110-145 | the search returns nothing exactly when the largest pair of the grid misses the target |
| BufferSearch.ZeroWinsWhenFeasible | src/marketpilot/validation/tail_model_v2.py:110-145 | no buffer is chosen when none is needed |
| TailModel.CalibrateQuantile | src/marketpilot/validation/tail_model_v2.py:148-191 | bases are the two empirical quantiles and the buffers their least feasible pair; an infeasible target is reported uncalibrated |
| TailModel.LowTargetNeedsNoBuffer | src/marketpilot/validation/tail_model_v2.py:148-191 | with a target of at most 2q - 1 the buffers are both zero |
| TailModel.CalibratedExactlyWhenWidestReaches | src/marketpilot/validation/tail_model_v2.py:148-191 | a quantile is calibrated exactly when the widest corridor of the grid reaches the target on the training days |
| TailModel.Fit | src/marketpilot/validation/tail_model_v2.py:248-273 | fitting fails only without labels, and holds the calibration of every configured quantile, on this window and the grid of all multiples of the step |
| TailModel.FittedBuffersAreLeast | src/marketpilot/validation/tail_model_v2.py:110-191 | fitted buffers are multiples of the step up to the maximum, and no feasible pair of such multiples lies below them by sum, then up, then down |
| TailModel.RecommendationCoversTraining | src/marketpilot/validation/tail_model_v2.py:275-294 | distances that are emitted cover at least the target share of the training days on both sides at once |
| TailModel.AbstainsExactlyWhenWidestMisses | src/marketpilot/validation/tail_model_v2.py:275-294 | the model abstains exactly when even the widest corridor misses the target |
| TailModel.RecommendationIsTightest | src/marketpilot/validation/tail_model_v2.py:275-304 | on either side, what is emitted is the quantile of the training moves and its fitted buffer, or the minimum distance if that is larger |
| TailModel.RecommendAnswers | src/marketpilot/validation/tail_model_v2.py:275-304 | recommending on a fitted model fails exactly for a quantile that was not configured; the target behind it is the common one if there is one and else the quantile itself |
| TailModelIv.IndexFeatures | src/marketpilot/validation/tail_model_v2.py:346-384 | the last features of a day win |
| TailModelIv.RegimeIsBisection | src/marketpilot/validation/tail_model.py:309-310 | the fitted boundaries never fall, so the quartile of a volatility is where bisection places it: exactly the boundaries before it are at most the volatility |
| TailModelIv.CollectValid | src/marketpilot/validation/tail_model_v2.py:346-384 | the training days with a usable volatility, in label order, the last features of a day winning |
| TailModelIv.ValidDaysAreLabels | src/marketpilot/validation/tail_model_v2.py:353-361 | the valid days are the labels of the days whose last features carry a usable volatility, each as it was given and as often |
| TailModelIv.FillBuckets | src/marketpilot/validation/tail_model_v2.py:346-384 | bucket k holds, in order, exactly the days of quartile k |
| TailModelIv.FitIv | src/marketpilot/validation/tail_model_v2.py:346-384 | one calibrated model per quartile of enough days, boundaries from the training volatilities alone, and one fallback over all valid days |
| TailModelIv.RegimeCountsPartition | src/marketpilot/validation/tail_model.py:309-310 | every valid training day is counted in exactly one quartile |
| TailModelIv.IvRecommendationCovers | src/marketpilot/validation/tail_model_v2.py:385-433 | a recommendation covers its target on the window behind it: the quartile's days, or all valid days under the fallback |
| TailModelIv.TrustedExactly | src/marketpilot/validation/tail_model_v2.py:385-433 | a quartile is trusted exactly when it has enough training days and its widest corridor reaches the target on them |
| TailModelIv.IvAbstainsExactly | src/marketpilot/validation/tail_model_v2.py:385-433 | the model abstains exactly on a day without a usable volatility, and where the quartile of the day is not trusted and the fallback is switched off or misses the target even with its widest corridor |
| TailModelIv.FallbackAnswers | src/marketpilot/validation/tail_model_v2.py:385-433 | the fallback of a fitted model emits distances exactly when its widest corridor reaches the target on all valid days |
| TailModelIv.IvRecommendationIsTightest | src/marketpilot/validation/tail_model_v2.py:385-433 | what is emitted: base and least buffer of the quartile if that is trusted and else of the fallback, at least the minimum distance, named after the quartile and the model that answered |
| TailCalibration.JointBufferIsLeast | src/marketpilot/validation/tail_calibration.py:119-148 | of all real buffers, negative ones included, exactly those from the joint buffer up cover the selected rank on both sides at once, whenever the base rank does not lie above that rank |
| TailCalibration.LeastExactlyWhenBaseRankFits | src/marketpilot/validation/tail_calibration.py:119-148 | that condition is exact: over all strata of a size the joint buffer is the least of all buffers if and only if ceil(cn) <= n - n / 10^12 |
| TailCalibration.SelectedRank | src/marketpilot/validation/tail_calibration.py:119-148 | which rank the capped finite-sample quantile selects, for every sample size and target |
| TailCalibration.CalibratesWhenEnough | src/marketpilot/validation/tail_calibration.py:98-155 | a stratum of distinct samples is calibrated exactly when it is large enough; then the joint buffer is not negative, and neither tail is below it |
| TailCalibration.CalibrationFails | src/marketpilot/validation/tail_calibration.py:98-118 | a repeated sample id is refused first, and then a stratum that is too small |
| TailCalibration.StratumIsItsSamples | src/marketpilot/validation/tail_calibration.py:98-118 | a stratum has exactly the samples of the event type and regime, each as often as it was given |
| TailCalibration.CorridorCoversItsSamples | src/marketpilot/validation/tail_calibration.py:98-155 | where the promise is attainable the corridor covers at least min(n, ceil((n + 1)c)) of its n samples on both sides at once, and exactly the buffers from the joint buffer up do |
| TailCalibration.CorridorCoversConformally | src/marketpilot/validation/tail_calibration.py:98-155 | where the promise is attainable, the joint buffer is the least with which the corridor holds all samples or at least the target share of one more than there are |
| TailCalibration.PromiseKeptExactlyWhenAttainable | src/marketpilot/validation/tail_calibration.py:98-155 | over all strata of a size the corridor covers the promised number of samples if and only if the cap leaves that rank or the base quantiles already are the extreme samples |
| TailCalibration.BelowATrillionIsAttainable | src/marketpilot/validation/tail_calibration.py:119-148 | with fewer than a trillion samples the promise is attainable at any target |
| TailCalibration.LadderFallsShort | src/marketpilot/validation/tail_calibration.py:98-155 | with the cap biting, the corridor of a stratum of evenly rising samples covers the capped rank, or all but one of its base rank, and no more |
| TailCalibration.CapBitesAtATrillion | src/marketpilot/validation/tail_calibration.py:119-148 | a calibrated stratum of a trillion valid samples whose corridor promises to cover all of them and covers one less |
| RealizedExcursions.Normalize | src/marketpilot/validation/realized_excursions.py:63-88 | accepts exactly the non-empty, strictly time-ordered series |
| RealizedExcursions.FindAnchor | src/marketpilot/validation/realized_excursions.py:116-123 | finds the last observation at or before entry |
| RealizedExcursions.CheckCoverage | src/marketpilot/validation/realized_excursions.py:131-145 | accepts exactly the windows without a hole longer than the limit up to the close |
| RealizedExcursions.FindExtremes | src/marketpilot/validation/realized_excursions.py:147-154 | returns the first highest high and the first lowest low of the window |
| RealizedExcursions.RealizedExcursion | src/marketpilot/validation/realized_excursions.py:91-165 | measures exactly the (entry, close] window from the anchor price, succeeds exactly on an ordered series with a proper span and no hole longer than the limit in seconds, and else fails by its first failing check |
| RealizedExcursions.CloseLiesInsideExcursions | src/marketpilot/validation/realized_excursions.py:125-165 | the close lies within the measured excursions of the entry price |
| RealizedExcursions.ExcursionOfBars | src/marketpilot/validation/realized_excursions.py:63-165 | on bars: entry and close are closing prices, and the excursions are how far the highest high rises above and the lowest low falls below the entry, at the first bar that does |
| RealizedExcursions.PointsAreFlatBars | src/marketpilot/validation/realized_excursions.py:63-88 | a series of points is measured as bars whose prices all equal the point |
| Strikes.StrikesAreTightest | src/marketpilot/models/strikepilot/strikes.py:17-46 | the short strikes are the grid strikes closest to the corridor from outside, with wings of the given width |
| Strikes.SelectionFails | src/marketpilot/models/strikepilot/strikes.py:17-46 | selection fails exactly for a center that is not positive, else for a negative distance, else for a grid or wing without a size |
| Strikes.DefaultStrikes | src/marketpilot/models/strikepilot/strikes.py:17-46 | the economics runs use multiples of five closest to the corridor from outside, with wings of five |
| Strikes.SettlementShape | src/marketpilot/validation/condor_economics.py:233-258 | with the put spread below the call spread, the loss is how far the close lies beyond the nearer short strike, at most the wing, and the clamp never acts |
| Strikes.SettlementFails | src/marketpilot/validation/condor_economics.py:233-258 | settling fails exactly for a close that is not positive, and else for wings that are empty or unequal |
| Strikes.CorridorSettlesFlat | src/marketpilot/models/strikepilot/strikes.py:35-38 | a close within the distances that the strikes were built from settles without loss |
| CorridorGuarantee.CoveredDaySettlesFlat | src/marketpilot/validation/condor_economics.py:233-258 | a measured day whose excursions lie within the distances settles flat at the strikes they select |
| CorridorGuarantee.RecommendedStrikesSettleFlat | src/marketpilot/validation/tail_model_v2.py:248-294 | end to end: at least the target share of the training days would have settled without loss at the recommended distances |
| CorridorGuarantee.IvRecommendedStrikesSettleFlat | src/marketpilot/validation/tail_model_v2.py:385-433 | end to end for the model per volatility quartile: at least the target share of the days behind the recommendation, of the quartile or of the fallback, would have settled without loss |
| CondorEconomics.LatestAtIsNewest | src/marketpilot/validation/condor_economics.py:157-167 | the point-in-time index holds the newest visible quote of every contract that has one, the last on the tape among equals |
| CondorEconomics.LatestQuotesAtOrBefore | src/marketpilot/validation/condor_economics.py:157-167 | the scan that stops at the first future quote equals the from-scratch index |
| CondorEconomics.PriceCondor | src/marketpilot/validation/condor_economics.py:191-230 | the fill is the one that the visible quotes allow, none when a leg is unusable, an error for an unlistable strike |
| CondorEconomics.FillIsConservative | src/marketpilot/validation/condor_economics.py:170-230 | shorts collect a positive bid and longs pay the ask of their latest quotes, each the worse side of an uncrossed book |
| CondorEconomics.FillExactlyOnUsableBooks | src/marketpilot/validation/condor_economics.py:170-230 | an unlistable strike is the only error, and else a position is filled exactly when all four latest books can be used on the side needed |
| CondorEconomics.FillSeesNoFuture | src/marketpilot/validation/condor_economics.py:157-230 | quotes after the entry never change a fill |
| CondorEconomics.EvaluateDay | src/marketpilot/validation/condor_economics.py:337-394 | which error, unpriceable day or booked day results, check by check |
| CondorEconomics.BookedDay | src/marketpilot/validation/condor_economics.py:337-394 | a booked day figure by figure: the credit of the fill, the loss of how far the close lies beyond a short strike, up to five points, the side breached, and profit before and after fees |
| CondorEconomics.DayFails | src/marketpilot/validation/condor_economics.py:337-394 | the errors of a day before its books, in the order checked |
| CondorEconomics.BookedDayIsBounded | src/marketpilot/validation/condor_economics.py:337-394 | profit lies between the declared maximum loss and the credit, falls short of the credit exactly when a short strike is breached, and never both are |
| CondorEconomics.CoveredDayKeepsTheCredit | src/marketpilot/validation/condor_economics.py:337-394 | a close within the distances keeps the whole credit |
| CondorEconomics.RichCreditIsRefused | src/marketpilot/validation/condor_economics.py:304-305 | a priceable day with a valid close is refused exactly when the credit exceeds the wing |
| ExitRules.RunningCostIsCostAt | src/marketpilot/validation/exit_rules.py:242-259 | at every minute the forward-only quote map prices the close as the from-scratch index does |
| ExitRules.SimulateExit | src/marketpilot/validation/exit_rules.py:191-279 | exits at the first minute that is evaluable and whose trigger holds, else settles at expiry; errors in the order checked |
| ExitRules.ExitIsTheFirstMinute | src/marketpilot/validation/exit_rules.py:238-279 | whatever the outcome: no minute before the exit that could be priced had met the rule, and the minute of the exit met it, with the target, the stop and the clock written out |
| ExitRules.CostIsConservative | src/marketpilot/validation/exit_rules.py:168-188 | a minute can be priced exactly when the four latest books can be used, and costs the asks of the shorts less the bids of the longs |
| ExitRules.OutcomeIsUnique | src/marketpilot/validation/exit_rules.py:191-279 | that description fixes the outcome |
| ExitRules.OutcomeSeesNoFuture | src/marketpilot/validation/exit_rules.py:238-279 | any edit to quotes after the exit leaves the whole outcome unchanged |
| ExitRules.OutcomeKeepsThePromise | src/marketpilot/validation/exit_rules.py:238-279 | a profit target yields at least its fraction of the credit, a stop loses at least its multiple, a clock exit is not early; on a credit position a target exit never loses and a stop exit never gains |
| ExitRules.ReasonTellsProfitExactlyForCredit | src/marketpilot/validation/exit_rules.py:238-279 | targets that never lose and stops that never gain, at any cost they fire on, if and only if the credit is not negative |
| ExitRules.ModestRulesExitNoLater | src/marketpilot/validation/exit_rules.py:238-279 | for a credit position a smaller target or stop exits no later, and for the same reason |
| ExitRules.RoundTripNeverGains | src/marketpilot/validation/exit_rules.py:168-188 | closing on the quotes of the opening costs at least the credit |
| ExecutionEconomics.CashIsMidLessCosts | src/marketpilot/validation/execution_economics.py:170-197 | one leg's cash is minus its mid value, minus its recorded half-spread and slippage |
| ExecutionEconomics.LegIsFilledAtTheFarSide | src/marketpilot/validation/execution_economics.py:167-197 | a buy pays the ask plus slippage and a sell gets the bid less slippage, with half of the spread, slippage and fee recorded for every contract |
| ExecutionEconomics.FindFailures | src/marketpilot/validation/execution_economics.py:142-159 | reports exactly the failures that some leg has, and missing legs exactly for an empty order |
| ExecutionEconomics.LegFailsExactly | src/marketpilot/validation/execution_economics.py:142-159 | which failures a leg has, in terms of its quote, the clock and the size displayed on the side that the trade takes |
| ExecutionEconomics.FillLegs | src/marketpilot/validation/execution_economics.py:167-197 | records every fill and its sums, or exactly the failure of a negative price |
| ExecutionEconomics.LegIdsUnique | src/marketpilot/validation/execution_economics.py:145-146 | decides whether leg ids repeat |
| ExecutionEconomics.ValueOrder | src/marketpilot/validation/execution_economics.py:134-214 | duplicate ids are an error; otherwise the order is unexecutable with exactly its failures or filled leg by leg |
| ExecutionEconomics.BlockedExactly | src/marketpilot/validation/execution_economics.py:142-190 | an order with distinct ids is unexecutable exactly when it has no legs, a leg fails, or a leg would be sold below zero |
| ExecutionEconomics.NetIsMidLessCosts | src/marketpilot/validation/execution_economics.py:167-214 | net cash is minus the mid value of the signed trades minus every recorded half-spread, slippage and fee |
| ExecutionEconomics.MidTotalsArePairedGain | src/marketpilot/validation/execution_economics.py:250-273 | the mid values of both fills add up to the gain of legs paired by id, whatever the two orders |
| ExecutionEconomics.ConservativePnl | src/marketpilot/validation/execution_economics.py:236-282 | errors, no profit, or the sum of both nets, in the order checked |
| ExecutionEconomics.PositionsAgreeExactly | src/marketpilot/validation/execution_economics.py:250-257 | positions agree exactly when both orders have the same legs in the same amounts, in whatever order |
| ExecutionEconomics.RoundTripAnswers | src/marketpilot/validation/execution_economics.py:236-282 | each error and the empty answer has its exact cause, and what is returned are both nets, their sum and both times |
| ExecutionEconomics.RoundTripIsGainLessCosts | src/marketpilot/validation/execution_economics.py:236-282 | round-trip profit is the paired mid-to-mid gain minus all costs of both fills, hence at most the gain |
| ExecutionEconomics.UnchangedRoundTripNeverGains | src/marketpilot/validation/execution_economics.py:236-282 | on unchanged quotes a round trip never gains |
| ExecutionEconomics.CheckMarks | src/marketpilot/validation/execution_economics.py:310-317 | accepts exactly non-empty marks after the opening in strict time order |
| ExecutionEconomics.EvaluatePath | src/marketpilot/validation/execution_economics.py:300-333 | every mark's profit with the least loss bound they all keep, or nothing from the first mark without one |
| RiskEconomics.GreedyIsWorst | src/marketpilot/validation/risk_economics.py:78-88 | the greedy total is attained by, and minimal over, all allocations w with 0 <= w <= p of the mass that the loop fills |
| RiskEconomics.WholeTailIsBounded | src/marketpilot/validation/risk_economics.py:78-88 | an allocation of the whole tail mass loses at most what the loop counts and the unfilled mass times the maximum loss |
| RiskEconomics.LeftoverIsSmall | src/marketpilot/validation/risk_economics.py:86-87 | mass beyond the cut-off stays unfilled only when the scenarios run out |
| RiskEconomics.FilledExactlyUnlessStoppedShort | src/marketpilot/validation/risk_economics.py:78-88 | the tail is filled exactly if and only if no run of worst scenarios ends within the cut-off below it |
| RiskEconomics.WeightedTailLossCvar | src/marketpilot/validation/risk_economics.py:78-88 | the loop returns the average loss of the greedy tail of the scenarios sorted from the worst |
| RiskEconomics.CvarIsAtMostTheMaximum | src/marketpilot/validation/risk_economics.py:78-108 | CVaR lies between zero and the scenario maximum loss |
| RiskEconomics.CvarIsAtLeastTheExpectedLoss | src/marketpilot/validation/risk_economics.py:78-108 | what CVaR always covers: the expected loss per unit of probability, spread over the filled tail, whatever the probabilities add up to |
| RiskEconomics.CoversExactlyWhenShareFilled | src/marketpilot/validation/risk_economics.py:78-108 | scenarios of given probabilities, listed from the worst, have a CVaR of at least their expected loss whatever they pay, if and only if the loop fills at least the tail mass times their total probability |
| RiskEconomics.ShareByTotal | src/marketpilot/validation/risk_economics.py:78-104 | that condition by the total probability: with a total of one it is that the loop does not stop short, above one it never holds, below one it holds on a filled tail and when the scenarios run out |
| RiskEconomics.CutoffCanUnderstate | src/marketpilot/validation/risk_economics.py:86-88 | two scenarios for which the cut-off puts CVaR below the expected loss |
| RiskEconomics.TotalAboveOneUnderstates | src/marketpilot/validation/risk_economics.py:78-104 | two scenarios within the tolerance of the total, whose tail is filled exactly and whose CVaR is below the expected loss |
| RiskEconomics.NamesUnique | src/marketpilot/validation/risk_economics.py:100-101 | decides whether scenario names repeat |
| RiskEconomics.AssessEntryRisk | src/marketpilot/validation/risk_economics.py:91-134 | which scenario sets are refused and why, and that eligibility holds exactly when the fill, the loss bound and CVaR all pass |
| RiskEconomics.GateMeasures | src/marketpilot/validation/risk_economics.py:78-115 | what the gate compares: CVaR is the average of the loss over the whole tail mass, floored at zero; the total is one within a billionth; no scenario loses more than the declared maximum and a billionth |
| RiskEconomics.MaximumLossIsLargest | src/marketpilot/validation/risk_economics.py:107 | the scenario maximum loss is the largest loss of a scenario, and zero when none loses |
| RiskEconomics.EligibleMeansBounded | src/marketpilot/validation/risk_economics.py:91-134 | an eligible entry has no scenario beyond the risk budget plus 1e-9; no allocation of the mass that the loop fills averages more than the CVaR budget over the tail, and none of the whole tail mass exceeds that by more than the unfilled mass times the maximum loss |
| ImpliedVol.ImpliedVolatility | src/marketpilot/features/entry_snapshot.py:103-141 | the loop is 64 bisections of the bracket, and nothing exactly for a negative price, no time left or an unbracketed price |
| ImpliedVol.InvertsExactly | src/marketpilot/features/entry_snapshot.py:103-131 | there is no volatility exactly for a negative price, without time left, and for a price more than a billionth (of itself or of one) outside what 0.0001 and 5 price at |
| ImpliedVol.BisectClosesIn | src/marketpilot/features/entry_snapshot.py:132-141 | the interval keeps the crossing and halves with every step |
| ImpliedVol.InversionIsAccurate | src/marketpilot/features/entry_snapshot.py:119-141 | the result lies within (5 - 1e-4)/2^65 of where the price crosses the pricing function |
| ImpliedVol.InversionBrackets | src/marketpilot/features/entry_snapshot.py:119-141 | for any pricer the result is the middle of a bracket of width (5 - 1e-4)/2^64, and for a price inside the first bracket the pricer is below the price at its left end and not at its right |
| ImpliedVol.CrossingOfIncreasing | src/marketpilot/features/entry_snapshot.py:119-131 | for an increasing pricer the crossing is its unique root, or the near end of the bracket for a price let through by the tolerance |
| ImpliedVol.PricingThenInvertingRecoversSigma | src/marketpilot/features/entry_snapshot.py:103-141 | round trip: a volatility of the bracket is recovered from its price within that error |
| ImpliedVol.InversionIsMonotone | src/marketpilot/features/entry_snapshot.py:119-141 | a higher price never gets a lower volatility, whatever the pricing function |
| WalkForward.MakeSplitter | src/marketpilot/validation/walk_forward.py:38-55 | accepts exactly positive counts and a non-negative gap, keeps them, and steps by the test window unless told otherwise |
| WalkForward.IdsUnique | src/marketpilot/validation/walk_forward.py:58-59 | decides whether sample ids repeat |
| WalkForward.Group | src/marketpilot/validation/walk_forward.py:60-62 | files every sample under its group and nothing else |
| WalkForward.OrderGroups | src/marketpilot/validation/walk_forward.py:60-69 | groups are ordered by first observation and then by id, each group once |
| WalkForward.Collect | src/marketpilot/validation/walk_forward.py:74-90 | the samples of a run of groups before a limit, in (time, id) order |
| WalkForward.AssembleFold | src/marketpilot/validation/walk_forward.py:73-102 | the fold at one test offset is the one specified, and it is missing only when no sample at all precedes its cutoff |
| WalkForward.Split | src/marketpilot/validation/walk_forward.py:57-104 | exactly the folds that fit, each as specified; duplicate ids, and a fold with nothing before its cutoff, are the only errors |
| WalkForward.TrainingIsThePast | src/marketpilot/validation/walk_forward.py:79-90 | a fold trains on every sample before its cutoff and on no other: the group condition withholds nothing |
| WalkForward.FoldIsLeakFree | src/marketpilot/validation/walk_forward.py:74-92 | a training sample precedes every test sample by more than the purge gap and shares no group with one |
| WalkForward.TrainingGrows | src/marketpilot/validation/walk_forward.py:71-103 | cutoffs never move back and training sets only grow from fold to fold |
| WalkForward.TestsAreDisjoint | src/marketpilot/validation/walk_forward.py:71-103 | test sets of different folds are disjoint when the step covers the test window, and successive ones overlap otherwise |
| WalkForwardEvaluation.ScoreFold | src/marketpilot/validation/tail_model.py:646-671 | the counters and distance lists of a fold are the score of its held-out days |
| WalkForwardEvaluation.ScoreIsConsistent | src/marketpilot/validation/tail_model.py:463-480 | abstentions and evaluated days add up to the test days, and covered days are bounded by the breaches from both sides |
| WalkForwardEvaluation.ScoreCountsDays | src/marketpilot/validation/tail_model.py:646-671 | every counter counts the held-out days that it is named after: abstained on, inside both distances, above the up distance, above the down distance |
| WalkForwardEvaluation.ScoreListsDistances | src/marketpilot/validation/tail_model.py:646-671 | the distance lists hold the distances of the days that were not abstained on, in order |
| WalkForwardEvaluation.MetricsAreAdmissible | src/marketpilot/validation/tail_model.py:463-562 | whatever a model recommends, the counts agree, shares lie in [0, 1], coverage is undefined exactly when every day was abstained on, and mean and median distances are positive, so no check on metrics fires |
| WalkForwardEvaluation.StatisticsArePositive | src/marketpilot/validation/tail_model.py:557-562 | mean and median of positive distances are positive |
| WalkForwardEvaluation.SumsAdd | src/marketpilot/validation/tail_model.py:557-562 | sums do not depend on how a list is split |
| WalkForwardEvaluation.MeanMakesUpTheSum | src/marketpilot/validation/tail_model.py:557-562 | the mean, given to every value, makes up the sum |
| WalkForwardEvaluation.MedianIsInTheMiddle | src/marketpilot/validation/tail_model.py:557-562 | the median is the middle of the values in order, or the mean of the two in the middle |
| WalkForwardEvaluation.SharesAreCounts | src/marketpilot/validation/tail_model.py:463-480 | coverage is counted over the evaluated days and abstentions over all |
| WalkForwardEvaluation.FoldSeesOnlyTraining | src/marketpilot/validation/tail_model.py:643-656 | labels outside the training days of a fold never change a recommendation |
| WalkForwardEvaluation.CheckInputs | src/marketpilot/validation/tail_model.py:589-609 | accepts exactly the admissible arguments without duplicate days |
| WalkForwardEvaluation.AdmissibleExactly | src/marketpilot/validation/tail_model.py:589-609 | admissible are a proper quantile, at least one fold, a gap that is not negative, and labels and features of one day each |
| WalkForwardEvaluation.FoldsFit | src/marketpilot/validation/tail_model.py:613-635 | at least one fold always fits, and as many as requested when there are days for them |
| WalkForwardEvaluation.WindowsSplitTheRest | src/marketpilot/validation/tail_model.py:613-635 | half of the days train first unless told otherwise, and the rest is split evenly among the folds asked for |
| WalkForwardEvaluation.ScoreFolds | src/marketpilot/validation/tail_model.py:637-697 | every fold is scored on its own days and the running totals are the sum of the scores |
| WalkForwardEvaluation.WalkForwardEvaluate | src/marketpilot/validation/tail_model.py:569-714 | admissible arguments succeed unless the minimum is unusable or a fold has nothing to train on, and others fail by their first failing check; every fold is a purged fold of the labelled days scored on its own, the aggregate is their sum, and the error of no folds cannot occur |
| WalkForwardEvaluation.AggregateIsOnePass | src/marketpilot/validation/tail_model.py:691-707 | the aggregate equals one pass over the held-out days of all folds |
| WalkForwardEvaluation.ReportIsOutOfSample | src/marketpilot/validation/tail_model.py:618-656 | training days precede the test days of their fold by more than the gap, and no day is tested in two folds |
| WalkForwardEvaluation.TrainingDaysExactly | src/marketpilot/validation/tail_model.py:618-635 | a fold trains on exactly the labelled days whose noon lies more than the purge gap before the noon of its first test day |
| DistanceRecommender.IndexLabels | src/marketpilot/validation/distance_recommender.py:55-56 | the last label of a day wins |
| DistanceRecommender.SortedDays | src/marketpilot/validation/distance_recommender.py:57 | the labelled days in order, each once |
| DistanceRecommender.TrainDays | src/marketpilot/validation/distance_recommender.py:62-63 | exactly the labelled days up to the cutoff, the cutoff included |
| DistanceRecommender.RecommendOn | src/marketpilot/validation/distance_recommender.py:61-84 | the verdict for a day comes from a model fitted on the labelled days up to its cutoff |
| DistanceRecommender.RecommendWalkForward | src/marketpilot/validation/distance_recommender.py:55-99 | one verdict per labelled day in order, and recommendations, abstentions and short histories account for every day once |
| DistanceRecommender.EditsAfterTheCutoffAreInvisible | src/marketpilot/validation/distance_recommender.py:61-84 | labels after the cutoff, and features of other later days, can be edited without changing a verdict |
| DistanceRecommender.OwnLabelIsTrainedOnExactlyWithoutGap | src/marketpilot/validation/distance_recommender.py:62-63 | a day's own label trains its recommendation if and only if the purge gap has no whole day |
| DistanceRecommender.CutoffDayIsTrainedOn | src/marketpilot/validation/distance_recommender.py:62-63 | the cutoff day itself is trained on whenever it is labelled |
| Backoff.DelayGrowsWithinBounds | src/marketpilot/services/alert_delivery_service.py:60-65 | delays double from attempt to attempt until the cap, lie within [base, max] and never shrink |
| Backoff.DelaySaturates | src/marketpilot/domain/collector.py:56-61 | after enough attempts every delay is the cap |
| AlertDelivery.RetryDelayGrowsWithinBounds | src/marketpilot/services/alert_delivery_service.py:60-65 | retry delays of a valid policy never shrink and stay within its bounds |
| AlertDelivery.PhaseReflectsLog | src/marketpilot/services/alert_delivery_service.py:246-443 | the automaton's phase after a log tells which kinds of events are in it |
| AlertDelivery.DispatchIsFresh | src/marketpilot/services/alert_delivery_service.py:363-443 | what a dispatch appends is never in the log yet |
| AlertDelivery.EscalationIsFresh | src/marketpilot/services/alert_delivery_service.py:282-334 | what an escalation appends is never in the log yet |
| AlertDelivery.StepKeepsSound | src/marketpilot/services/alert_delivery_service.py:246-443 | dispatch, escalation and acknowledgement, at any time and with any sender reply, keep a log a word of the automaton, its attempts numbered and its budgets kept |
| AlertDelivery.RunKeepsSound | src/marketpilot/services/alert_delivery_service.py:246-443 | so does every interleaving of them |
| AlertDelivery.RunStaysInBudget | src/marketpilot/services/alert_delivery_service.py:246-443 | attempts are numbered 1..n with n at most max_attempts + max_escalations, escalations stay within their budget, and the log is bounded |
| AlertDelivery.StepOnlyAppends | src/marketpilot/services/alert_delivery_service.py:246-443 | a step leaves a log alone or makes it longer, and never rewrites it |
| AlertDelivery.MessageTakesFinitelyManySteps | src/marketpilot/services/alert_delivery_service.py:246-443 | however often it is worked on, a message changes a bounded number of times |
| AlertDelivery.SettledStaysSettled | src/marketpilot/services/alert_delivery_service.py:246-443 | after a terminal event nothing follows but one acknowledgement of a delivered message |
| DeliveryPacing.AttemptIsExplained | src/marketpilot/services/alert_delivery_service.py:363-383 | an attempt reaches the sender exactly behind three open gates and a sender, and otherwise names the first closed one |
| DeliveryPacing.OutcomeAnswers | src/marketpilot/services/alert_delivery_service.py:402-443 | what each outcome leads to: a delivery with its acknowledgement deadline, a retry after base * 2^(n-1) up to the cap while attempts are left, a dead letter, or a disabled channel |
| DeliveryPacing.StepKeeps | src/marketpilot/services/alert_delivery_service.py:246-443 | every step keeps attempts answered, explained and paced, and every event of the log explained |
| DeliveryPacing.RunKeeps | src/marketpilot/services/alert_delivery_service.py:246-443 | so does every run |
| DeliveryPacing.RunIsPaced | src/marketpilot/services/alert_delivery_service.py:246-443 | over any run of a new message no attempt follows a transient failure before its backoff is over; every attempt is explained and answered, and every event but the first is an answer, an escalation or closing of an overdue delivery, or an acknowledgement |
| DeliveryPacing.DueExactlyAfterTheWait | src/marketpilot/services/alert_delivery_service.py:342-361 | a queued message is due exactly from its enqueueing, its escalation, or the end of the backoff after its last attempt |
| DeliveryPacing.OverdueExactlyAfterTheTimeout | src/marketpilot/services/alert_delivery_service.py:282-303 | an acknowledgement is overdue exactly when one is required and the timeout since the delivery has run out |
| DeliveryPacing.EscalatesExactlyWhenTimedOut | src/marketpilot/services/alert_delivery_service.py:282-334 | escalation does nothing before that timeout, and from then on spends the next level with one more attempt at once, or closes the message when no level is left |
| AlertOrchestrator.ReadOrderIsAppendOrder | src/marketpilot/services/alert_delivery_store.py:97-110 | a log without an acknowledgement is read in the order it was written |
| AlertOrchestrator.AcknowledgementDecision | src/marketpilot/services/alert_delivery_service.py:255-280 | the acknowledgement decision is the same in read order as in append order |
| AlertOrchestrator.KeyFixesChannel | src/marketpilot/services/alert_delivery_service.py:154-244 | messages of one dedupe key share their channel |
| AlertOrchestrator.SpacedAfterEnqueue | src/marketpilot/services/alert_delivery_service.py:154-244 | unsuppressed messages of one dedupe key stay at least one cooldown apart |
| AlertOrchestrator.FirstEventTells | src/marketpilot/services/alert_delivery_service.py:221-244 | a new message starts suppressed within the cooldown, disabled on a channel that is not fully open, and queued otherwise |
| AlertOrchestrator.AcceptedArguments | src/marketpilot/services/alert_delivery_service.py:165-175 | which arguments are accepted: names that are not blank and a destination that is a short identifier |
| AlertOrchestrator.StepKeepsValid | src/marketpilot/services/alert_delivery_service.py:246-443 | one step of one message keeps the whole store valid: keyed, spaced, and every log sound, explained and paced |
| AlertOrchestrator.Orchestrator.Messages | src/marketpilot/services/alert_delivery_store.py:90-95 | all messages by (created_at, message_id), each once |
| AlertOrchestrator.Orchestrator.LatestMessageForDedupe | src/marketpilot/services/alert_delivery_store.py:127-134 | the greatest message of a dedupe key in that order, if any |
| AlertOrchestrator.LatestIsUnique | src/marketpilot/services/alert_delivery_store.py:127-134 | a dedupe key has one latest message |
| AlertOrchestrator.Orchestrator.AppendEvent | src/marketpilot/services/alert_delivery_store.py:50-64 | an event is appended unless the identical one is stored |
| AlertOrchestrator.Orchestrator.AppendAttempt | src/marketpilot/services/alert_delivery_store.py:66-80 | refused exactly when other content is stored under the same number and time, and then nothing changes; otherwise stored once |
| AlertOrchestrator.Orchestrator.Enqueue | src/marketpilot/services/alert_delivery_service.py:154-244 | refused, replayed, queued or suppressed, and what is stored in each case; a known id is replayed exactly when the stored message is the same and no later message of its key is stored |
| AlertOrchestrator.Orchestrator.CheckCooldown | src/marketpilot/services/alert_delivery_service.py:176-185 | the test against the latest message of the key decides the cooldown against all of them; it fails exactly when a later other message is stored |
| AlertOrchestrator.RepeatAfterLaterMessageIsRefused | src/marketpilot/services/alert_delivery_service.py:154-244 | three calls, the third repeating the first, of which the third is refused: a message, a later one of its key, and the first again |
| AlertOrchestrator.Orchestrator.IsDue | src/marketpilot/services/alert_delivery_service.py:342-361 | a message is due exactly when its phase is queued and its release time has come |
| AlertOrchestrator.Orchestrator.DispatchOne | src/marketpilot/services/alert_delivery_service.py:363-443 | one dispatch is the dispatch step of the protocol on that message, and no other changes; what that step appends is pinned by `DeliveryPacing.OutcomeAnswers` |
| AlertOrchestrator.Orchestrator.DispatchIfDue | src/marketpilot/services/alert_delivery_service.py:246-253 | one message takes its dispatch step, which is none when it is not due |
| AlertOrchestrator.Orchestrator.DispatchDue | src/marketpilot/services/alert_delivery_service.py:246-253 | every message takes exactly one dispatch step, and the attempts made are returned in message order |
| AlertOrchestrator.Orchestrator.LatestDelivery | src/marketpilot/services/alert_delivery_service.py:255-334 | the delivery with the latest time, if there is one |
| AlertOrchestrator.Orchestrator.FirstAcknowledgement | src/marketpilot/services/alert_delivery_service.py:255-280 | finds an acknowledgement exactly when the log has one |
| AlertOrchestrator.Orchestrator.CheckAcknowledgement | src/marketpilot/services/alert_delivery_service.py:255-280 | an acknowledgement is allowed exactly after a delivery that does not lie ahead, dead letters notwithstanding |
| AlertOrchestrator.Orchestrator.StoreAcknowledgement | src/marketpilot/services/alert_delivery_service.py:255-280 | the acknowledgement step of a known message, accepted exactly when that is allowed |
| AlertOrchestrator.Orchestrator.Acknowledge | src/marketpilot/services/alert_delivery_service.py:255-280 | acknowledges once: again returns the stored acknowledgement, and a refusal changes nothing |
| AlertOrchestrator.Orchestrator.IsOverdue | src/marketpilot/services/alert_delivery_service.py:282-334 | an acknowledgement is overdue exactly in the awaiting phase past its deadline |
| AlertOrchestrator.Orchestrator.EscalateOne | src/marketpilot/services/alert_delivery_service.py:282-334 | an overdue message takes one escalation step: a further level, or its dead letter |
| AlertOrchestrator.Orchestrator.EscalateDue | src/marketpilot/services/alert_delivery_service.py:282-334 | every message takes exactly one escalation step, and the events are returned in message order |
| AlertOrchestrator.Orchestrator.VerifySignature | src/marketpilot/services/alert_delivery_service.py:336-340 | every stored message verifies, and unknown ids are refused |
| AlertStream.CursorRoundTrip | src/marketpilot/services/stream_attribution_store.py:97-113 | a cursor is read as n exactly when it is how n is written |
| AlertStream.EventsBehindCursor | src/marketpilot/services/stream_attribution_store.py:87-95 | the events behind a cursor are numbered on from it, each with the time and payload it was recorded with |
| AlertStream.StreamStore.AppendProjection | src/marketpilot/services/stream_attribution_store.py:52-85 | one event per projection key for good; other content under a stored key is refused |
| AlertStream.StreamStore.ValidateCursor | src/marketpilot/services/stream_attribution_store.py:97-113 | accepts exactly no cursor, the empty one, and how the number of a stored event is written, and returns that number; a number beyond the log is ahead, everything else malformed |
| AlertStream.StreamStore.EventsAfter | src/marketpilot/services/stream_attribution_store.py:87-95 | exactly the events numbered behind the cursor, in order |
| AlertStream.StreamStore.AppendDelivery | src/marketpilot/services/stream_attribution_store.py:115-125 | an audit row is stored once per id, a lost write stores nothing, and other content under a stored id is the only conflict |
| AlertStream.ResyncAddsNothing | src/marketpilot/services/stream_attribution_service.py:44-55 | synchronising the same alerts again appends nothing |
| AlertStream.PayloadsAreUnique | src/marketpilot/services/stream_attribution_service.py:44-55 | no payload is in the log twice |
| AlertStream.StreamService.SyncAlerts | src/marketpilot/services/stream_attribution_service.py:44-55 | appends exactly the alerts that the log lacks and counts them; it fails only with two different payloads of one digest, one stored and one offered |
| AlertStream.StreamService.Emit | src/marketpilot/services/stream_attribution_service.py:83-99 | sends every pending event, each audited before it is sent, unless the frame limit is reached or the audit write of the next event is lost |
| AlertStream.StreamService.Round | src/marketpilot/services/stream_attribution_service.py:77-109 | one round stores the polled alerts and sends everything pending behind the cursor, or a due heartbeat; it sends less only at the frame limit, and fails only on a digest clash or a lost audit write |
| AlertStream.LogAfterGrows | src/marketpilot/services/stream_attribution_service.py:44-55 | over any polls the log only grows and holds every alert polled |
| AlertStream.TranscriptIsGapless | src/marketpilot/services/stream_attribution_service.py:61-109 | what full rounds send is one gapless run of the log behind the cursor, ending where the log ends |
| AlertStream.StreamService.StreamPolls | src/marketpilot/services/stream_attribution_service.py:75-109 | a connection sends exactly the transcript of its polls up to where it ends (over, at a disconnect, at the frame limit, or at a clash or lost audit write), and picks up the alerts of every poll it reached unless they clash |
| AlertStream.StreamService.StreamFrames | src/marketpilot/services/stream_attribution_service.py:61-109 | however it ends, the known alerts and those of every poll it picked up are in the log; what is sent is one gapless run behind the cursor, audited one to one and within the frame limit, and it is all there is unless the client is gone, the limit is reached, or a stated clash or lost audit write ends it |
| AlertStream.Reconnect | src/marketpilot/services/stream_attribution_service.py:61-109 | a client that saw any number of the events sent and resumes with the last id it saw has, over both connections, one gapless run without repeats, up to the newest event when the second connection runs its course; the alerts that both polled are in the log, and every other end has its cause |
| DataQuality.CheckObservation | src/marketpilot/domain/data_quality.py:99-185 | exactly the problems and stale fields that an observation has |
| DataQuality.CheckFields | src/marketpilot/domain/data_quality.py:136-150 | exactly the missing, misdated and stale fields, the worst age itself, and whether a field is between the green and the amber age |
| DataQuality.CheckTimes | src/marketpilot/domain/data_quality.py:152-163 | exactly the future source and receipt times and the stale observation, and the worse of both ages |
| DataQuality.CheckPermission | src/marketpilot/domain/data_quality.py:124-134 | exactly the problems of entitlement, delay, receive order and latency |
| DataQuality.CheckAll | src/marketpilot/domain/data_quality.py:120-164 | the per-source reasons and stale fields of all observations, and whether all are fresh enough |
| DataQuality.CheckTogether | src/marketpilot/domain/data_quality.py:99-170 | the reasons that concern the observations together: none at all, a repeated source, a missing second one, different instruments, a conflict |
| DataQuality.CheckQuote | src/marketpilot/domain/data_quality.py:206-217 | exactly the problems of the book |
| DataQuality.SourcesDistinct | src/marketpilot/domain/data_quality.py:99-130 | counting sources detects a repeated source |
| DataQuality.NoConflictMeansAgreement | src/marketpilot/domain/data_quality.py:219-231 | there is no conflict exactly when every midpoint lies within the allowed distance of the lowest |
| DataQuality.ConflictExactly | src/marketpilot/domain/data_quality.py:219-231 | sources conflict exactly when at least two are given, all are quoted on both sides, and one midpoint lies above the lowest by more than both tolerances |
| DataQuality.Evaluate | src/marketpilot/domain/data_quality.py:99-185 | the verdict carries exactly the reasons raised and the fields beyond the green age, with the status they imply |
| DataQuality.VerdictHasStatus | src/marketpilot/domain/data_quality.py:171-180 | the observations determine the status: red on any reason, green without reasons and all fresh, else amber |
| DataQuality.PermitsExactly | src/marketpilot/domain/data_quality.py:171-185 | a decision is permitted exactly when no reason is raised and everything is within the green age |
| DataQuality.AgesCountBack | src/marketpilot/domain/data_quality.py:136-163 | what is too old for use and what is fresh, in terms of the timestamps and the instant of the verdict |
| DataQuality.FieldsAreSides | src/marketpilot/domain/data_quality.py:136-217 | which side of the quote each required field is, and that a value below zero on any side is a problem |
| Collector.ReconnectDelayGrowsWithinBounds | src/marketpilot/domain/collector.py:56-61 | reconnect delays lie in [base, max] and never shrink with the attempt |
| Collector.Run | src/marketpilot/services/collector_service.py:59-213 | the run's result, traces (with the quality and freeze of each event) and reasons are exactly those of the state machine, the verdict, the capability report and the gate, and when it permits a decision |
| CollectorProperties.HaltedIsAbsorbing | src/marketpilot/services/collector_service.py:227-343 | no event leaves the halted state |
| CollectorProperties.CacheIsSound | src/marketpilot/services/collector_service.py:307-343 | the cache holds one quote per source, all of the collector's instrument, and a last observation time is known exactly when it is not empty, as it is whenever streaming |
| CollectorProperties.CacheIsNewestSinceReset | src/marketpilot/services/collector_service.py:87-133 | the cache holds exactly the newest quote of each source accepted since the last loss, rate limit or stop |
| CollectorProperties.PermittedRunIsTrustworthy | src/marketpilot/services/collector_service.py:78-213 | a run that permits a decision was never halted, and its quotes are current, one instrument, distinct sources, fresh and free of conflict |
| CollectorProperties.RetryIsSound | src/marketpilot/services/collector_service.py:253-303 | a retry time is set in the waiting states and absent in the others, and attempts stay within the budget outside HALTED |
| CollectorProperties.AttemptsCountLossesSinceConnect | src/marketpilot/services/collector_service.py:253-303 | attempts equal the losses processed since the last accepted connect |
| CollectorProperties.SinceConnectIsLast | src/marketpilot/services/collector_service.py:253-303 | that connect is the last accepted one |
| CollectorProperties.ConnectWaitsForRetry | src/marketpilot/services/collector_service.py:253-303 | no connect is accepted before the retry time |
| CollectorProperties.LossSchedulesRetry | src/marketpilot/services/collector_service.py:272-303 | a loss counts, halts beyond the budget and otherwise waits for base * 2^n up to the cap; a rate limit waits for the longer of its own time and the base backoff and halts without a positive time; a stop keeps attempts and drops the retry time |
| CollectorProperties.ScheduledRetryIsKept | src/marketpilot/services/collector_service.py:253-303 | until a loss, a rate limit or a stop, no connect is accepted before the scheduled time, and the first one processed from then on is |
| CollectorProperties.RateLimitIsWaitedOut | src/marketpilot/services/collector_service.py:283-295 | over any run: after a processed rate limit, until a loss, another rate limit or a stop, a connect is accepted only when both its time and the base backoff have passed since it, and the first processed one that reaches both is |
| CollectorProperties.LossIsWaitedOut | src/marketpilot/services/collector_service.py:272-282 | over any run: likewise after a loss with the backoff of its attempt |
| CollectorProperties.BooksBalance | src/marketpilot/services/collector_service.py:307-333 | accepted quotes have non-decreasing times ending at the watermark and distinct fingerprints, and accepted, duplicate and late quotes add up to the quotes processed live |
| CollectorProperties.CountedQuoteVerdict | src/marketpilot/services/collector_service.py:307-333 | a right-instrument quote while live is a duplicate exactly when an earlier one said the same, out of order exactly when it is new and an accepted one was newer, behind the watermark when by more than the lateness allowed, and else accepted |
| CollectorProperties.SightingIsContent | src/marketpilot/services/collector_service.py:358-372 | quotes count as the same exactly when all they show is equal under one schema, whoever may see it |
| CollectorProperties.RefusedExactly | src/marketpilot/services/collector_service.py:87-99 | an event is refused as repeated exactly when an earlier one has its id, and as going back in time exactly when an earlier one was seen later |
| CollectorProperties.ProcessedVerdict | src/marketpilot/services/collector_service.py:253-317 | what START, CONNECTED, a heartbeat and a quote need to be accepted once processed |
| CollectorProperties.HaltedExactlyAfterACause | src/marketpilot/services/collector_service.py:101-298 | the collector is halted exactly when some event that was let through drifted, exhausted the reconnects, or carried no positive retry time |
| CollectorProperties.LiveExactlyWhileConnected | src/marketpilot/services/collector_service.py:253-307 | quotes count exactly from an accepted connect until the next loss, rate limit, stop or halt |
| CollectorProperties.StreamingExactlyWhileFed | src/marketpilot/services/collector_service.py:345-356 | the collector streams exactly while connected and fed within the freshness limit of the latest time seen, and is degraded when connected otherwise |
| CollectorProperties.StaleExactlyWhenStarved | src/marketpilot/services/collector_service.py:345-356 | an event reports staleness exactly when it leaves the collector connected and not fed within the freshness limit |
| CollectorProperties.EventsAreAccountedFor | src/marketpilot/services/collector_service.py:87-133 | duplicate events and distinct ids add up to all events |
| CollectorProperties.RunReasonsAreLasting | src/marketpilot/services/collector_service.py:147-151 | what a run holds against itself is exactly what some event raised of schema drift, exhausted reconnects and an invalid retry time |
| CollectorProperties.TracesShowEveryStep | src/marketpilot/services/collector_service.py:153-189 | a run leaves one trace of every event in order: its verdict, the state after it, and the quality of the quotes then held, frozen exactly when there are none or something is held against them |
| Governance.StepKeepsSound | src/marketpilot/governance/registry.py:22-154 | every operation keeps the registry sound: chained events, unused approvals, rooted descent, registered references |
| Governance.ReachableIsSound | src/marketpilot/governance/registry.py:22-154 | so every reachable registry is |
| Governance.StepKeepsHistory | src/marketpilot/governance/registry.py:22-154 | events are only appended, versions never change, and a frozen session never changes |
| Governance.FrozenSessionIsChampionAtFreeze | src/marketpilot/governance/registry.py:53-60 | a frozen session holds the champion at the point of its freeze |
| Governance.TrailIsGenuine | src/marketpilot/governance/registry.py:22-154 | in every reachable registry each event was asked for with a genuine approval of exactly that change, a promotion with the report of its version as evidence and given after its training, and every version was registered |
| Governance.Lineage | src/marketpilot/governance/registry.py:95-106 | the walk reaches a root for every registered version, without repeats: its cycle and missing-parent branches cannot occur |
| Governance.LineageIsUnique | src/marketpilot/governance/registry.py:95-106 | a version has one lineage |
| ChampionRegistry.FrozenChampionRegistry.RegisterChallenger | src/marketpilot/governance/registry.py:22-28 | accepts exactly fresh challengers with a registered parent and takes the register step |
| ChampionRegistry.FrozenChampionRegistry.ValidateApproval | src/marketpilot/governance/registry.py:121-141 | accepts exactly verified, unused approvals that match the action |
| ChampionRegistry.FrozenChampionRegistry.Record | src/marketpilot/governance/registry.py:143-154 | records approval, champion and event together |
| ChampionRegistry.FrozenChampionRegistry.CheckPromotion | src/marketpilot/governance/registry.py:30-51 | finds an error exactly when the promotion is not allowed |
| ChampionRegistry.FrozenChampionRegistry.Promote | src/marketpilot/governance/registry.py:30-51 | takes the promote step of the abstract machine, accepted exactly when that is |
| ChampionRegistry.FrozenChampionRegistry.CheckRollback | src/marketpilot/governance/registry.py:72-93 | finds an error exactly when the rollback is not allowed |
| ChampionRegistry.FrozenChampionRegistry.Rollback | src/marketpilot/governance/registry.py:72-93 | takes the rollback step of the abstract machine, accepted exactly when that is |
| ChampionRegistry.FrozenChampionRegistry.FreezeSession | src/marketpilot/governance/registry.py:53-60 | freezes the current champion once and returns the frozen one ever after |
| ChampionRegistry.FrozenChampionRegistry.Champion | src/marketpilot/governance/registry.py:62-70 | the champion of a session if it is frozen, else the current one, with its registered version |
| ChampionRegistry.FrozenChampionRegistry.LineageOf | src/marketpilot/governance/registry.py:95-106 | the lineage of exactly the registered versions |
| GovernanceLog.ChampionsOf | src/marketpilot/services/postgres_governance_store.py:402-409 | the champion read from the log is the target of the model's last event |
| GovernanceLog.GovernanceStore.AppendModelVersion | src/marketpilot/services/postgres_governance_store.py:42-80 | accepted exactly by the checks of the insert: the parent is stored, and no other version under the key; takes the register step, which on a repeat changes nothing |
| GovernanceLog.GovernanceStore.CurrentChampion | src/marketpilot/services/postgres_governance_store.py:181-191 | returns that target |
| GovernanceLog.GovernanceStore.AppendAction | src/marketpilot/services/postgres_governance_store.py:103-179 | appends approval and event together exactly when they match and the log allows the action, and otherwise changes nothing |
| GovernanceLog.GovernanceStore.Promote | src/marketpilot/services/postgres_governance_store.py:578-590 | accepted exactly by the append checks of the log, and takes the promote step of the map registry |
| GovernanceLog.GovernanceStore.Rollback | src/marketpilot/services/postgres_governance_store.py:592-607 | accepted exactly by the append checks of the log, and then recorded |
| GovernanceLog.GovernanceStore.FreezeSession | src/marketpilot/services/postgres_governance_store.py:208-268 | refines the freeze step, and stored freezes never change |
| GovernanceLog.GovernanceStore.StoreFreeze | src/marketpilot/services/postgres_governance_store.py:208-268 | an insert that does nothing on a stored session; the session is then frozen at the returned version |
| GovernanceLog.FreezeIsStep | src/marketpilot/services/postgres_governance_store.py:208-268 | the freeze of the tables is the freeze step of the log, and loses no stored freeze |
| GovernanceLog.GovernanceStore.Champion | src/marketpilot/services/postgres_governance_store.py:615-623 | refines the champion query |
| GovernanceLog.GovernanceStore.LineageOf | src/marketpilot/services/postgres_governance_store.py:625-636 | refines the lineage query |
| GovernanceLog.RollbackAppends | src/marketpilot/services/postgres_governance_store.py:352-369 | the log accepts a rollback exactly when the map registry does or the model has no champion and the approval no source |
| GovernanceLog.PromoteAppends | src/marketpilot/services/postgres_governance_store.py:334-369 | the append checks of the log let in exactly the promotions of the map registry |
| GovernanceLog.RollbacksAgreeUnderChampion | src/marketpilot/governance/registry.py:72-93 | where a champion exists the two registries agree on rollback |
| GovernanceLog.RunsAreConsistent | src/marketpilot/services/postgres_governance_store.py:42-369 | in every run of either registry, versions are stored under their names after their parents, and frozen sessions belong to models with a champion |
| GovernanceLog.RegistriesDifferExactly | src/marketpilot/services/postgres_governance_store.py:42-80 | on any consistent registry, as every run keeps it, the checks of the tables and of the map registry differ exactly when a stored version is repeated, which changes nothing, or a model without champion is rolled back, which the log records |
| GovernanceLog.RunsAgreeUntilTheGap | src/marketpilot/services/postgres_governance_store.py:352-369 | over any run without a rollback of a model that has no champion, both registries are in the same state |
| GovernanceLog.RollbackGapIsReachable | src/marketpilot/services/postgres_governance_store.py:352-369 | under any identity hash, a genuine approval of a first rollback is accepted by the log and refused by the map registry |
| Replay.SelectionIsUnique | src/marketpilot/services/replay.py:59-83 | at most one revision of a key is selected |
| Replay.SelectedIsLatest | src/marketpilot/services/replay.py:59-83 | a revision is selected exactly when it is stored and known by the instant, and every other known one of its key was seen earlier, or then and published earlier, or then too and has no greater id |
| Order.LessAtFirstDifference | src/marketpilot/services/replay.py:59-83 | ids and keys are compared at the first character they differ in, and a prefix comes first |
| Replay.ViewIsUnique | src/marketpilot/services/replay.py:59-83 | the view does not depend on the order in which records were appended |
| Replay.LaterRecordsAreInvisible | src/marketpilot/services/replay.py:59-83 | records first seen later never change what was visible |
| Replay.ManifestOfViewIsFaithful | src/marketpilot/services/replay.py:85-90 | the manifest of a view names exactly its revisions |
| Replay.ManifestListsRecords | src/marketpilot/services/replay.py:85-90 | a manifest lists key, id and content hash of every record in key order, sealed by the hash of instant and list |
| Replay.FaithfulUnderLaterRecords | src/marketpilot/services/replay.py:92-119 | a faithful manifest stays faithful under records first seen later |
| Replay.NoBackfillSameSelection | src/marketpilot/services/replay.py:59-83 | without backfill, availability and observation select the same revisions |
| Replay.BacktestManifestReplaysExactlyWithoutBackfill | src/marketpilot/ingest/pit_ledger.py:83-96 | a backtest manifest is replayable if and only if nothing published by its instant was first seen later |
| ReplayLedger.PointInTimeLedger.Append | src/marketpilot/services/replay.py:33-38 | accepts exactly verified records that do not contradict a stored one |
| ReplayLedger.PointInTimeLedger.Records | src/marketpilot/services/replay.py:43-44 | all stored records in id order |
| ReplayLedger.PointInTimeLedger.VisibleRecords | src/marketpilot/services/replay.py:59-83 | returns the per-key maximum by (first_seen, published, record_id) of the visible revisions, in key order |
| ReplayLedger.PointInTimeLedger.BuildManifest | src/marketpilot/services/replay.py:85-90 | the manifest of the view at an instant, with its hash |
| ReplayLedger.PointInTimeLedger.CheckEntry | src/marketpilot/services/replay.py:92-119 | an entry passes exactly when it names the visible revision of its key |
| ReplayLedger.PointInTimeLedger.Replay | src/marketpilot/services/replay.py:92-119 | succeeds exactly on verified faithful manifests, with the named records in order |
| ReplayLedger.ReplayedRecordsAreTheView | src/marketpilot/services/replay.py:92-119 | a successful replay yields exactly the visible set, and the manifest of the view yields the view |
| ReplayLedger.ManifestSurvivesAppend | src/marketpilot/services/replay.py:59-122 | a manifest replays to its view before and after an append of a record first seen later |
| ReplayLedger.PitBatchLedger.Find | src/marketpilot/ingest/pit_ledger.py:77-81 | the record of a key, if there is one |
| ReplayLedger.PitBatchLedger.Append | src/marketpilot/ingest/pit_ledger.py:25-52 | one record per key: repeats change nothing, contradictions are refused |
| ReplayLedger.PitBatchLedger.EmitManifest | src/marketpilot/ingest/pit_ledger.py:83-96 | the manifest holds exactly the visible records of the batch |
| HashChain.AnchoredPrefixesAgree | src/marketpilot/services/readiness.py:125-138 | two verified ledgers that both contain a hash agree on everything up to it, or exhibit a collision |
| HashChain.SameHeadSameLedger | src/marketpilot/services/readiness.py:125-138 | two verified ledgers with one head hash are equal, or exhibit a collision or a digest equal to the genesis constant |
| HashChain.RewritingChangesTheHead | src/marketpilot/ingest/cost_ledger.py:110-129 | a rewritten ledger that still verifies, without a collision between the two and without an entry hashing to the genesis constant, shows another head, and shares entries only as a common prefix |
| HashChain.ExtensionIsUnique | src/marketpilot/services/readiness.py:108-115 | a verified ledger extends by a given content in exactly one way |
| HashChain.VerifyShadow | src/marketpilot/services/readiness.py:125-138 | accepts exactly chained ledgers with unique sessions, and names the first failing entry and its failure |
| HashChain.ShadowLedger.Load | src/marketpilot/services/readiness.py:67-82 | returns the entries exactly when they verify |
| HashChain.ShadowLedger.Append | src/marketpilot/services/readiness.py:84-120 | appends to verified ledgers only and no session twice; keeps verification and the old prefix |
| HashChain.VerifyCost | src/marketpilot/ingest/cost_ledger.py:110-129 | accepts exactly chained ledgers, and names the first failing entry and its failure |
| HashChain.CostLedger.Load | src/marketpilot/ingest/cost_ledger.py:87-108 | returns the entries exactly when they verify |
| HashChain.CostLedger.Append | src/marketpilot/ingest/cost_ledger.py:35-85 | appends to verified ledgers only; keeps verification and the old prefix |

## Left out

- User interface, HTTP routes, authentication, command line, network clients and file formats: plumbing without a hard property.
- SQL text, triggers, locks and file permissions: a table is a sequence or a map and a transaction one atomic step, so interleavings inside one service call are not modelled.
- SHA-256 and HMAC: digests and signatures are arbitrary functions.
- Floating-point rounding, infinities and NaN: reals are exact, and checks for finite numbers disappear.
- Time zones and calendar arithmetic: instants and dates are integers, and the exit clock and the session close are given as instants.
- Text of contract symbols: a contract is its right and strike, and a strike that does not fit the symbol is an error.
- The displayed, rounded put and call distances, and the sample ids and artifact hash of a calibrated corridor.
- Summaries over batches of days (`summarize`, `run_economics_batch`, `run_exit_comparison`): sums of what is modelled here.
- Parsing and signing of stored JSON, readiness reports over the shadow ledger, attribution tasks and reviews, and the PostgreSQL form of the stream.
- The risk gate, promotion gate, capability reports and alert rules: finite case tables.
- Collector.Run: does not model the point-in-time records that traces carry, because they copy event fields.
- CondorEconomics.EvaluateDay: takes the regime name as given and does not carry it, because the distances it comes with already guarantee that it is not blank.
- DistanceRecommender.RecommendWalkForward: takes the model as a total function, because whether a fit may fail is a property of the model (`TailModelIv.FitIv` states it for one).
- WalkForwardEvaluation.WalkForwardEvaluate: takes the model as a total function likewise, and dates as text by any pair of functions that read back.
- ImpliedVol.ImpliedVolatility: takes the Black-Scholes formula as any function of sigma, because `erf`, `exp` and `log` are not modelled; spot and strike are taken to be positive.
- AlertStream.StreamService.StreamFrames: models one connection at a time; alerts that other connections pick up appear in the polls, their audit rows do not.

# Back-test business layer of trade_back_test1, in Dafny

This project models the pure business layer of a small Kotlin crypto
back-testing tool. That layer covers:

- OHLCV bars and the time frames they are cut into;
- bar charts that index backwards from the newest bar, merge incoming candles
  and down-sample into coarser intervals;
- one-second bars built from a raw trade tape;
- the persistence mapping of bars and charts;
- the indicator, signal and strategy combinators;
- the simulated trade record;
- the newer risk-sized position with fees;
- the back-test ledger and the report computed from it.

Every operation is a pure function over immutable datatypes. Prices are
`real`, so the model has no rounding. Timestamps are `int` seconds or
milliseconds. Where Kotlin throws (`require`, `first()`, `minOf` on an
empty window) the model returns `Err(...)` of a `Result`. The chart-wide
`min` and `max` return `None` on an empty chart instead, since emptiness is
their only failure. Where a Double division would give NaN or Infinity the
model returns `Err(NotFinite)` or `None`.

Modules, one per source file (plus a `Prelude` of shared helpers):

| module | file | Kotlin source |
|---|---|---|
| `TimeFrames` | time_frame.dfy | business/TimeFrame.kt |
| `Bars` | bar.dfy | business/Bar.kt |
| `BarCharts` | bar_chart.dfy | business/BarChart.kt |
| `MarketTrades` | market_trades.dfy | business/TradeHistory.kt |
| `BarChartDtos` | bar_chart_dto.dfy | infra/persist/BarChartDTO.kt |
| `Indicators` | indicators.dfy | business/indicator/Indicator.kt, Indicators.kt |
| `Signals` | signals.dfy | business/signal/Signal.kt |
| `Strategies` | strategy.dfy | business/signal/Strategy.kt |
| `TradeRecords` | trade_record.dfy | business/backtest/TradeRecord.kt |
| `SizedPositions` | sized_position.dfy | the sized trade record exercised by TradeRecordTest.kt |
| `Ledgers` | ledger.dfy | business/backtest/TradeHistory.kt |
| `Reports` | report.dfy | business/backtest/BackTestReport.kt |

Where the code and the tests disagree, the model follows the code:

- `BarChartTest.kt:43` and `IndicatorsTest.kt:22,35` expect NaN for bars
  beyond the chart. The placeholder bar has 0.0 prices, so the model reads
  0.0 (`Indicators.PriceSeriesReadTheBar`).
- `BarTest.kt:34-40` expects merging bars to throw, but `plusAssign(Bar)`
  never throws. The model's merge is total.

The ledger (backtest/TradeHistory.kt) calls `fees`, `updateCurrentPrice`
and an argument-less `exit()`. These belong to a newer trade record than
the one in TradeRecord.kt. That newer record's source is not part of this
model, but TradeRecordTest.kt pins down its numbers. `SizedPositions`
models it from those fixtures, and the ledger is built over it.
`TradeRecords` models TradeRecord.kt as written.

## Model

Functions that only compute are described by the lemmas about them, in the
rows that cite the same lines:

- `Bars.Retag` by `Bars.RetagRoundTrip`.
- `Bars.CloseTime` and `Bars.IncludesTimestamp` by `Bars.BarSpansItsInterval`.
- `Bars.Placeholder` by `Bars.PlaceholderIsEmpty`.
- `TimeFrames.CanBeDownSampledTo` by the `TimeFrames.DownSampling*` lemmas.
- `BarCharts.Get`, `Latest` and `Oldest` by `BarCharts.GetCountsBackFromLatest`,
  `GetIsValidExactlyInRange` and `RegularChartTimeline`.
- `BarCharts.GetDownSampledChart` by `BarCharts.DownSampledChartIsMemoised`
  and `ChartFamilyServesFromCache`.
- `MarketTrades.GetTrades` by `MarketTrades.TradesAt`.
- `BarChartDtos.BarToDto`, `ChartToDto` and `DtoToChart` by the four round-trip lemmas.
- `Indicators.PreviousValue` by `Indicators.PreviousValueLaws`.
- `Signals.LatestSignal`, `And`, `Or` and `Not` by `Signals.SignalAlgebra`.
- `Signals.IsOver`, `IsUnder`, `CrossedOver`, `CrossedUnder` and their
  fixed-value forms by `Signals.ComparisonsAgree`, `CrossingIsAnEdge`,
  `CrossingsAreExclusive` and `CrossingValueIsCrossingConstant`.
- The sizing functions `SizedPositions.StopLossPercent`, `TheoriqTrade`,
  `RealTrade`, `Lever`, `RiskValue`, `Quantity`, `Fees`, `ProfitLoss` and
  `IsProfitable` by `SizedPositions.StopLossPercentIsNonZero`,
  `SizingRespectsLimits`, `StopOutLosesRiskPlusFees` and the fixture lemmas.
- `Ledgers.Balance` by `Ledgers.BalanceAfterAppend`, `ExitKeepsBalance` and
  `UpdateMovesBalanceByActiveTrade`.
- `Reports.TotalProfitLoss` and `FinalBalance` by
  `Reports.FinalBalanceIsInitialPlusProfit` and `FinalBalanceFromProfitability`.

| member | source | states |
|---|---|---|
| TimeFrames.Seconds | src/main/kotlin/org/msi/ftx1/business/TimeFrame.kt:4-13 | every interval lasts at least one second |
| TimeFrames.SecondsIncreaseInDeclarationOrder | src/main/kotlin/org/msi/ftx1/business/TimeFrame.kt:4-13 | the enum constants are declared in strictly increasing length |
| TimeFrames.DeclaredIsComplete | src/main/kotlin/org/msi/ftx1/business/TimeFrame.kt:4-13 | the declaration-order list holds every time frame |
| TimeFrames.DownSamplingIsIrreflexive | src/main/kotlin/org/msi/ftx1/business/TimeFrame.kt:15-16 | no interval can be down-sampled to itself |
| TimeFrames.DownSamplingIsAsymmetric | src/main/kotlin/org/msi/ftx1/business/TimeFrame.kt:15-16 | if a can be down-sampled to b then b cannot be down-sampled to a |
| TimeFrames.DownSamplingIsTransitive | src/main/kotlin/org/msi/ftx1/business/TimeFrame.kt:15-16 | down-sampling compatibility chains: a to b and b to c give a to c, through transitivity of divisibility |
| TimeFrames.DownSamplingStepAtLeastTwo | src/main/kotlin/org/msi/ftx1/business/TimeFrame.kt:15-16 | a permitted target is a whole multiple, at least twice the source interval |
| TimeFrames.OneMinuteToFiveMinutes | src/test/kotlin/org/msi/ftx1/business/BarChartIntervalTest.kt:8-18 | MIN_1 can be down-sampled to MIN_5, and MIN_5 cannot be down-sampled to MIN_1 |
| Bars.Merge | src/main/kotlin/org/msi/ftx1/business/Bar.kt:39-48 | `bar += other` keeps open, open time and interval, takes the other's close, adds the volumes, and makes high the larger and low the smaller of the two bars' values |
| Bars.AddPrice | src/main/kotlin/org/msi/ftx1/business/Bar.kt:50-61 | `bar += price` sets close; it sets open only when open was 0.0; high and low widen to cover the price; nothing else changes |
| Bars.BarSpansItsInterval | src/main/kotlin/org/msi/ftx1/business/Bar.kt:63 | close time is open time plus the interval length; the span is half-open, so it holds its own open time and not the next bar's |
| Bars.ConsecutiveBarsAreDisjoint | src/main/kotlin/org/msi/ftx1/business/Bar.kt:63 | two back-to-back bars never both include the same second |
| Bars.MergeIsAssociative | src/main/kotlin/org/msi/ftx1/business/Bar.kt:39-48 | merging a run of bars does not depend on how the run is grouped |
| Bars.MergeKeepsLowBelowHigh | src/main/kotlin/org/msi/ftx1/business/Bar.kt:42-47 | merging two well-ordered bars gives a bar with low at most high |
| Bars.AddPriceCoversPrice | src/main/kotlin/org/msi/ftx1/business/Bar.kt:50-61 | after a price is added, the bar's low-high range contains the close |
| Bars.PlaceholderIsEmpty | src/main/kotlin/org/msi/ftx1/business/Bar.kt:15-24 | the placeholder constructor gives zero prices and volume at the given time, and is marked not valid |
| Bars.PriceIntoPlaceholderKeepsZeroLow | src/main/kotlin/org/msi/ftx1/business/Bar.kt:50-61 | a positive price fed into a placeholder sets open, close and high, while low stays 0.0 |
| Bars.RetagRoundTrip | src/main/kotlin/org/msi/ftx1/business/Bar.kt:26-37 | re-tagging (the copy constructor with a new interval) a valid bar to its own interval gives the bar back; re-tagging twice equals re-tagging once |
| Bars.FiveMinuteBarExample | src/test/kotlin/org/msi/ftx1/business/BarTest.kt:9-32 | a MIN_5 bar opened at 100 closes at 400, includes 399 and excludes 400 |
| BarCharts.MinLow | src/main/kotlin/org/msi/ftx1/business/BarChart.kt:27 | `min` is a low of some bar and no bar's low is below it; absent on an empty chart |
| BarCharts.MaxHigh | src/main/kotlin/org/msi/ftx1/business/BarChart.kt:28 | `max` is a high of some bar and no bar's high is above it; absent on an empty chart |
| BarCharts.Mean | src/main/kotlin/org/msi/ftx1/business/BarChart.kt:29 | `mean` lies between the smallest and largest close; absent (NaN) on an empty chart |
| BarCharts.MeanIsAverageClose | src/main/kotlin/org/msi/ftx1/business/BarChart.kt:29 | `mean` is the average close: the value that, times the number of bars, gives the total of the closes |
| BarCharts.GetCountsBackFromLatest | src/main/kotlin/org/msi/ftx1/business/BarChart.kt:58-59 | `chart[0]` is `latest` and `chart[size-1]` is `oldest`; an in-range index reads the bar that many steps back from the end; `latest` is absent exactly on an empty chart |
| BarCharts.GetIsValidExactlyInRange | src/main/kotlin/org/msi/ftx1/business/BarChart.kt:58-59 | on a chart of valid bars, `chart[i]` is valid exactly for in-range indices; any other index gives a zero-volume, zero-close placeholder |
| BarCharts.RegularChartTimeline | src/main/kotlin/org/msi/ftx1/business/BarChart.kt:58-59 | on back-to-back bars, the open time of `chart[i]` is latest open time minus i intervals, inside and outside the data; an empty chart counts back from the start time |
| BarCharts.GetExample | src/test/kotlin/org/msi/ftx1/business/BarChartTest.kt:11-45 | three bars closing at 10, 20 and 30 read newest first, and index 3 is a placeholder one interval before the first bar |
| BarCharts.AddCandleStick | src/main/kotlin/org/msi/ftx1/business/BarChart.kt:48-56 | a candle inside the latest bar's span is merged into it; otherwise a re-tagged copy is appended; earlier bars are untouched and the size grows by at most one |
| BarCharts.AddCandleStickAddsVolume | src/main/kotlin/org/msi/ftx1/business/BarChart.kt:48-56 | adding a candle raises the chart's total volume by exactly the candle's volume, whether it is merged into the latest bar or appended |
| BarCharts.PlusAssign | src/main/kotlin/org/msi/ftx1/business/BarChart.kt:40-45 | `chart += candle` is refused unless the candle has the base interval; otherwise the base chart and every cached view take the candle, and the set of views is unchanged |
| BarCharts.ChartFamilyServesFromCache | src/main/kotlin/org/msi/ftx1/business/BarChart.kt:33-45 | in a family whose cache does not hold the base interval, a request for the base interval returns the base chart and a cached interval returns its view, leaving the family unchanged; requests and `+=` keep the family in that shape |
| BarCharts.DownSampledChartIsMemoised | src/main/kotlin/org/msi/ftx1/business/BarChart.kt:33-37 | the first request for a view succeeds iff the base can be down-sampled to it and builds the down-sampled base; a second request returns the same chart and leaves the cache as it is |
| BarCharts.Chunked | src/main/kotlin/org/msi/ftx1/business/BarChart.kt:71 | every chunk of `chunked(size)` holds between 1 and size elements |
| BarCharts.ChunkedFlattens | src/main/kotlin/org/msi/ftx1/business/BarChart.kt:71 | concatenating the chunks gives the original sequence back |
| BarCharts.ChunkedLength | src/main/kotlin/org/msi/ftx1/business/BarChart.kt:71 | `chunked(size)` makes ceil(n / size) chunks |
| BarCharts.ChunkIsSlice | src/main/kotlin/org/msi/ftx1/business/BarChart.kt:71 | chunk j is the slice that starts j chunks in and ends size later, or at the end of the sequence |
| BarCharts.ComputeBar | src/main/kotlin/org/msi/ftx1/business/BarChart.kt:76-84 | a down-sampled bar takes open and open time from the first bar of its run and close from the last; its high and low are the run's extremes and are attained in the run; its volume is the run's total; it has the target interval |
| BarCharts.DownSampleData | src/main/kotlin/org/msi/ftx1/business/BarChart.kt:69-73 | refused with IllegalArgument exactly when the interval cannot be down-sampled to the target; otherwise gives ceil(n / step) bars |
| BarCharts.DownSample | src/main/kotlin/org/msi/ftx1/business/BarChart.kt:61-66 | down-sampling to the chart's own interval returns the chart itself; otherwise it succeeds iff down-sampling is permitted, keeps symbol and start time, and carries exactly the down-sampled bars of `downSampleData` |
| BarCharts.DownSampledBar | src/main/kotlin/org/msi/ftx1/business/BarChart.kt:69-84 | down-sampled bar j is computed from the source bars j·step up to the next chunk boundary (or the end) |
| BarCharts.DownSamplePreservesVolume | src/main/kotlin/org/msi/ftx1/business/BarChart.kt:71-78 | the down-sampled bars carry exactly the source chart's total volume |
| BarCharts.ComputeBarIsMergedRun | src/main/kotlin/org/msi/ftx1/business/BarChart.kt:76-84 | a down-sampled bar equals a re-tagged first bar with the rest of its run merged in one by one with `+=` |
| MarketTrades.TimeSeconds | src/main/kotlin/org/msi/ftx1/business/TradeHistory.kt:54 | `timeMs / 1000` truncates toward zero: the result brackets the instant from below for non-negative times and from above for negative ones |
| MarketTrades.TimeSecondsTruncates | src/main/kotlin/org/msi/ftx1/business/TradeHistory.kt:54 | 1999 ms is second 1, −1999 ms is second −1 (not −2), and −2000 ms is second −2 |
| MarketTrades.TimeSecondsOfWholeSecond | src/main/kotlin/org/msi/ftx1/business/TradeHistory.kt:54 | every millisecond of a non-negative second maps to that second |
| MarketTrades.TradesAt | src/main/kotlin/org/msi/ftx1/business/TradeHistory.kt:12-14 | `getTrades(s)` holds exactly the tape's trades whose second is s |
| MarketTrades.TradesAtAppend | src/main/kotlin/org/msi/ftx1/business/TradeHistory.kt:12-14 | filtering distributes over concatenation, so the selected trades keep tape order |
| MarketTrades.EarliestIndex | src/main/kotlin/org/msi/ftx1/business/TradeHistory.kt:38 | `minByOrNull { timeMs }` picks a trade with the smallest time, the first of equal times |
| MarketTrades.LatestIndex | src/main/kotlin/org/msi/ftx1/business/TradeHistory.kt:39 | `maxByOrNull { timeMs }` picks a trade with the largest time, the first of equal times |
| MarketTrades.EarliestIndexIsUnique | src/main/kotlin/org/msi/ftx1/business/TradeHistory.kt:38 | the smallest-time, first-of-equals index is unique, so it is the one chosen |
| MarketTrades.LatestIndexIsUnique | src/main/kotlin/org/msi/ftx1/business/TradeHistory.kt:39 | the largest-time, first-of-equals index is unique, so it is the one chosen |
| MarketTrades.GetBar | src/main/kotlin/org/msi/ftx1/business/TradeHistory.kt:16-28 | the bar of a second is SEC_1 at that second, and its volume is the trades' total size; with no trades it copies the previous bar's prices with zero volume; otherwise high and low are attained prices covering all trades, open is the price of the first of the earliest trades and close that of the first of the latest trades |
| MarketTrades.GetBarIsWellFormed | src/main/kotlin/org/msi/ftx1/business/TradeHistory.kt:38-42 | a bar built from trades has open and close inside its low-high range, and non-negative volume when sizes are non-negative |
| MarketTrades.AddTrades | src/main/kotlin/org/msi/ftx1/business/TradeHistory.kt:30-32 | `addTrades` keeps the existing trades as a prefix and appends the new ones |
| MarketTrades.AddTradesExtendsEverySecond | src/main/kotlin/org/msi/ftx1/business/TradeHistory.kt:12-32 | after `addTrades`, each second's trades are the old ones followed by the new ones of that second |
| MarketTrades.StartTimeSeconds | src/main/kotlin/org/msi/ftx1/business/TradeHistory.kt:9 | `startTimeSeconds` fails with NoSuchElement exactly on an empty tape |
| MarketTrades.EndTimeSeconds | src/main/kotlin/org/msi/ftx1/business/TradeHistory.kt:10 | `endTimeSeconds` fails with NoSuchElement exactly on an empty tape |
| MarketTrades.TapeSpansStartToEnd | src/main/kotlin/org/msi/ftx1/business/TradeHistory.kt:9-14 | on a non-empty tape, start ≤ end, every trade's second lies between them, and both seconds contain trades |
| BarChartDtos.DtoToBar | src/main/kotlin/org/msi/ftx1/infra/persist/BarChartDTO.kt:38-46 | a bar read back from a DTO is always valid |
| BarChartDtos.BarRoundTrip | src/main/kotlin/org/msi/ftx1/infra/persist/BarChartDTO.kt:38-57 | bar → DTO → bar gives a valid bar back unchanged, and any bar back with `valid` set |
| BarChartDtos.PlaceholderComesBackValid | src/main/kotlin/org/msi/ftx1/infra/persist/BarChartDTO.kt:29-57 | a placeholder does not survive the round trip: it comes back marked valid |
| BarChartDtos.DtoRoundTrip | src/main/kotlin/org/msi/ftx1/infra/persist/BarChartDTO.kt:29-57 | DTO → bar → DTO is the identity |
| BarChartDtos.ChartRoundTrip | src/main/kotlin/org/msi/ftx1/infra/persist/BarChartDTO.kt:8-27 | the chart round trip preserves symbol, interval, start time and every bar in order with `valid` set; a chart of valid bars comes back equal |
| BarChartDtos.ChartDtoRoundTrip | src/main/kotlin/org/msi/ftx1/infra/persist/BarChartDTO.kt:8-27 | chart DTO → chart → chart DTO is the identity |
| Indicators.PreviousValueLaws | src/main/kotlin/org/msi/ftx1/business/indicator/Indicator.kt:3-13 | a zero delay is the identity; delays compose by adding; `latestValue` of a delay by a is the value at a |
| Indicators.PriceSeriesReadTheBar | src/main/kotlin/org/msi/ftx1/business/indicator/Indicators.kt:11-34 | each price series reads its field of `chart[i]`; beyond the data every series, typical price included, reads 0.0 |
| Indicators.TypicalPriceWithinBar | src/main/kotlin/org/msi/ftx1/business/indicator/Indicators.kt:26-34 | typical price lies between low and high when close does; `hlc3Price` equals it |
| Indicators.PriceSeriesExample | src/test/kotlin/org/msi/ftx1/business/indicator/IndicatorsTest.kt:10-52 | closes read newest first with 0.0 beyond the data; a bar with high 30, low 10 and close 20 has typical price 20 |
| Indicators.LowestValue | src/main/kotlin/org/msi/ftx1/business/indicator/Indicators.kt:46-49 | `lowestValue(len)` at i is at most every value of the window i..i+len−1 and equals one of them; `minOf` over an empty window fails |
| Indicators.HighestValue | src/main/kotlin/org/msi/ftx1/business/indicator/Indicators.kt:57-60 | `highestValue(len)` at i is at least every value of the window and equals one of them; an empty window fails |
| Indicators.SimpleMovingAverage | src/main/kotlin/org/msi/ftx1/business/indicator/Indicators.kt:68-71 | the SMA lies between the window's lowest and highest value; an empty window's average is NaN |
| Indicators.SimpleMovingAverageIsMean | src/main/kotlin/org/msi/ftx1/business/indicator/Indicators.kt:68-71 | the SMA is the window mean: the value that, times the window length, gives the total of the window |
| Indicators.LowestNotAboveHighest | src/main/kotlin/org/msi/ftx1/business/indicator/Indicators.kt:46-60 | lowest ≤ highest over the same window; both equal the value itself on a window of one |
| Indicators.WindowedIndicatorsCommuteWithDelay | src/main/kotlin/org/msi/ftx1/business/indicator/Indicators.kt:46-71 | lowest, highest and SMA of a delayed indicator are the same indicators read that many bars back |
| Indicators.MeanDeviation | src/main/kotlin/org/msi/ftx1/business/indicator/Indicators.kt:208-216 | mean deviation is non-negative; a zero length gives NaN and a negative one gives 0.0 |
| Indicators.MeanDeviationIsMeanAbsoluteDeviation | src/main/kotlin/org/msi/ftx1/business/indicator/Indicators.kt:208-216 | for a positive length the mean deviation is the average of the absolute distances of the window's values from the window mean |
| Indicators.ConstantWindow | src/main/kotlin/org/msi/ftx1/business/indicator/Indicators.kt:208-216 | over a window where the indicator is constant, the SMA is that constant and the mean deviation is zero |
| Indicators.TrueRange | src/main/kotlin/org/msi/ftx1/business/indicator/Indicators.kt:142-152 | the true range is the largest of \|high−low\| and the distances from the previous bar's close (index i+1) to the high and to the low, and is at least \|high−low\| ≥ 0 |
| Indicators.TrueRangeOfContainedClose | src/main/kotlin/org/msi/ftx1/business/indicator/Indicators.kt:142-152 | if the previous close lies inside the bar, the true range is the bar's range; if it gaps above the bar, the range reaches from the low to that close |
| Indicators.StochasticAsWritten | src/main/kotlin/org/msi/ftx1/business/indicator/Indicators.kt:176-191 | the stochastic as written is at most 100 and exactly 100 when the close is the highest high; an empty window fails |
| Indicators.StochasticSaturatesInUpperHalf | src/main/kotlin/org/msi/ftx1/business/indicator/Indicators.kt:184-188 | as written, any close in the upper half of the low-high range reads 100 |
| Indicators.StochasticBelowMidpoint | src/main/kotlin/org/msi/ftx1/business/indicator/Indicators.kt:184-188 | as written, a close from the lowest low up to below the midpoint of the range reads 100·(close − lowest)/(highest − close), which stays below the cap |
| Indicators.StochasticCounterexample | src/main/kotlin/org/msi/ftx1/business/indicator/Indicators.kt:176-191 | one bar with low 0, high 10 and close 8 reads 100 as written, against 80 for the corrected %K |
| Indicators.StochasticK | src/main/kotlin/org/msi/ftx1/business/indicator/Indicators.kt:176-191 | the corrected %K fails exactly when the window is empty |
| Indicators.StochasticKIsPercentage | src/main/kotlin/org/msi/ftx1/business/indicator/Indicators.kt:176-191 | the corrected %K lies in [0, 100]; on a non-flat range it is 100 exactly at the highest high and 0 exactly at the lowest low |
| Signals.SignalAlgebra | src/main/kotlin/org/msi/ftx1/business/signal/Signal.kt:28-43 | `latestValue` of `and`, `or` and `not` is the combination of the latest values; double inversion is the identity, De Morgan holds, s and not s is false, and s or not s is true |
| Signals.ComparisonsAgree | src/main/kotlin/org/msi/ftx1/business/signal/Signal.kt:49-65 | over and under are exclusive and both fail exactly on equality; a over b is b under a; the fixed-value and sign forms compare against a constant indicator |
| Signals.CrossingIsAnEdge | src/main/kotlin/org/msi/ftx1/business/signal/Signal.kt:49-80 | crossing over is `isOver` holding now and not one bar earlier (dually for under), so a crossing implies the comparison |
| Signals.CrossingsAreExclusive | src/main/kotlin/org/msi/ftx1/business/signal/Signal.kt:67-84 | crossing over and crossing under never fire on the same bar, for indicators and for fixed values |
| Signals.CrossingValueIsCrossingConstant | src/main/kotlin/org/msi/ftx1/business/signal/Signal.kt:67-84 | crossing a fixed value is crossing the constant indicator; a crossing over b is b crossing under a, on every bar and for every pair of indicators |
| Strategies.Decide | src/main/kotlin/org/msi/ftx1/business/signal/Strategy.kt:14-19 | ENTRY iff entry fires; EXIT_TAKE_PROFIT iff exit fires and entry does not; NO_OP iff neither fires |
| Strategies.EntryHasPriority | src/main/kotlin/org/msi/ftx1/business/signal/Strategy.kt:14-19 | when entry fires the exit signal is irrelevant; the same signal on both sides never exits |
| TradeRecords.DefaultIsOpen | src/main/kotlin/org/msi/ftx1/business/backtest/TradeRecord.kt:15-24 | a record built from the defaults is open, with no exit price |
| TradeRecords.Close | src/main/kotlin/org/msi/ftx1/business/backtest/TradeRecord.kt:71-81 | closing fails exactly on a closed record; otherwise it sets the reason and exit price and leaves every other field unchanged |
| TradeRecords.ClosesExactlyOnce | src/main/kotlin/org/msi/ftx1/business/backtest/TradeRecord.kt:71-84 | an open record accepts `exit` and `stop`; once either succeeds, both fail |
| TradeRecords.ProfitLoss | src/main/kotlin/org/msi/ftx1/business/backtest/TradeRecord.kt:34-46 | `profitLoss` needs an exit price and then equals the unrealized P&L at that price |
| TradeRecords.IsProfitable | src/main/kotlin/org/msi/ftx1/business/backtest/TradeRecord.kt:26-32 | `isProfitable` needs an exit price |
| TradeRecords.ProfitableIffPositiveProfit | src/main/kotlin/org/msi/ftx1/business/backtest/TradeRecord.kt:26-40 | with a positive amount, a record is profitable exactly when its P&L is positive |
| TradeRecords.SidesAreMirrored | src/main/kotlin/org/msi/ftx1/business/backtest/TradeRecord.kt:42-46 | a SHORT gains what the same LONG loses at any price; an exit at entry gains nothing |
| TradeRecords.UpdateTrailingStop | src/main/kotlin/org/msi/ftx1/business/backtest/TradeRecord.kt:48-61 | a LONG stop becomes the larger of the stop and price − distance, a SHORT stop the smaller of the stop and price + distance; nothing else changes |
| TradeRecords.TrailingStopIsMonotone | src/main/kotlin/org/msi/ftx1/business/backtest/TradeRecord.kt:48-61 | a LONG stop never falls and a SHORT stop never rises; the stop ends within the trailing distance; a repeat at the same price changes nothing |
| TradeRecords.ShouldStop | src/main/kotlin/org/msi/ftx1/business/backtest/TradeRecord.kt:63-69 | `shouldStop` fails exactly on a closed record |
| TradeRecords.StopIsStrict | src/main/kotlin/org/msi/ftx1/business/backtest/TradeRecord.kt:63-69 | an open LONG stops exactly when the price is strictly below its stop, an open SHORT exactly when it is strictly above; a price on the stop does not trigger it, nor does the price that just moved a trailing stop |
| SizedPositions.Open | src/test/kotlin/org/msi/ftx1/business/backtest/TradeRecordTest.kt:23-51 | opening fails only where sizing would divide by zero; otherwise the position is open at its entry with the supplied stop kept |
| SizedPositions.StopLossPercentIsNonZero | src/test/kotlin/org/msi/ftx1/business/backtest/TradeRecordTest.kt:53-89 | the stop-loss fraction is non-zero and times the entry gives the stop distance |
| SizedPositions.SizingRespectsLimits | src/test/kotlin/org/msi/ftx1/business/backtest/TradeRecordTest.kt:53-127 | with positive inputs, leverage never exceeds its maximum and risk never exceeds the exposed balance; the risk reaches that bound when the uncapped size fits under the leverage cap, and when it does not, the leverage equals the cap and the risk stays strictly below the bound |
| SizedPositions.UpdateCurrentPrice | src/test/kotlin/org/msi/ftx1/business/backtest/TradeRecordTest.kt:159-221 | a price reaching the stop closes an open position at the stop with reason SL; any other price only moves the current price; a closed position is untouched |
| SizedPositions.Exit | src/test/kotlin/org/msi/ftx1/business/backtest/TradeRecordTest.kt:255-299 | exiting closes an open position at its current price with reason TP and changes nothing else; a closed position refuses |
| SizedPositions.ClosedPositionIsFrozen | src/test/kotlin/org/msi/ftx1/business/backtest/TradeRecordTest.kt:159-299 | once closed, a position ignores prices and refuses a second exit; price updates never change the sizing |
| SizedPositions.ExitKeepsProfitLoss | src/main/kotlin/org/msi/ftx1/business/backtest/TradeHistory.kt:24-26 | exiting books exactly the P&L the open position showed at its current price |
| SizedPositions.StopOutLosesRiskPlusFees | src/test/kotlin/org/msi/ftx1/business/backtest/TradeRecordTest.kt:223-253 | a stop-out with the stop on the losing side loses exactly the risk value plus both fees |
| SizedPositions.SameSizing | src/test/kotlin/org/msi/ftx1/business/backtest/TradeRecordTest.kt:53-157 | the sizing depends only on the opening balance, entry, stop, exposure and maximum leverage |
| SizedPositions.CappedSizingFixtures | src/test/kotlin/org/msi/ftx1/business/backtest/TradeRecordTest.kt:23-89 | at leverage 10 the 25000 theoretical trade is capped at 10000, giving lever 10, risk 20 and quantity 100; the supplied stop is kept, including for a SHORT stop below entry |
| SizedPositions.UncappedSizingFixtures | src/test/kotlin/org/msi/ftx1/business/backtest/TradeRecordTest.kt:91-127 | at leverage 100 the full 25000 is traded, with lever 25 and risk 50 |
| SizedPositions.StopOutFixtures | src/test/kotlin/org/msi/ftx1/business/backtest/TradeRecordTest.kt:159-253 | a LONG hit at 0 and a SHORT hit at 500 close at their stops with reason SL, and each loses the risk value plus fees |
| SizedPositions.ExitFixtures | src/test/kotlin/org/msi/ftx1/business/backtest/TradeRecordTest.kt:255-299 | a LONG exited at 200 pays fees 10 + 20 and nets 9970; a SHORT exited at 0 pays 10 + 0 and nets 9990; both close with TP in profit |
| SizedPositions.WrongSideShortStopsAtEntry | src/test/kotlin/org/msi/ftx1/business/backtest/TradeRecordTest.kt:72-89 | a SHORT with its stop below entry is accepted, and its own entry price already touches the stop |
| Ledgers.PlusAssign | src/main/kotlin/org/msi/ftx1/business/backtest/TradeHistory.kt:13-16 | `ledger += trade` is refused unless the trade's amount is positive; otherwise the trade is appended and earlier trades are kept |
| Ledgers.BalanceAfterAppend | src/main/kotlin/org/msi/ftx1/business/backtest/TradeHistory.kt:6-16 | appending a trade raises the balance by exactly its P&L and the fees by exactly its fees |
| Ledgers.ActiveIndex | src/main/kotlin/org/msi/ftx1/business/backtest/TradeHistory.kt:18 | the active position is the first open trade, and absent exactly when every trade is closed |
| Ledgers.ActiveTrade | src/main/kotlin/org/msi/ftx1/business/backtest/TradeHistory.kt:18 | `activeTrade` is the trade at the first open index, and absent exactly when none is open |
| Ledgers.UpdateCurrentPrice | src/main/kotlin/org/msi/ftx1/business/backtest/TradeHistory.kt:20-22 | the price goes to the active trade only; every other trade is unchanged; without an active trade nothing changes |
| Ledgers.ExitActiveTrade | src/main/kotlin/org/msi/ftx1/business/backtest/TradeHistory.kt:24-26 | only the active trade is exited; without an active trade nothing changes |
| Ledgers.ExitClosesOneTrade | src/main/kotlin/org/msi/ftx1/business/backtest/TradeHistory.kt:18-26 | exiting closes exactly one trade, and the next active trade (if any) comes later in the list |
| Ledgers.OperationsKeepConsistency | src/main/kotlin/org/msi/ftx1/business/backtest/TradeHistory.kt:13-26 | appending a freshly opened trade, a price update and an exit all keep open trades without an exit price |
| Ledgers.ExitKeepsBalance | src/main/kotlin/org/msi/ftx1/business/backtest/TradeHistory.kt:24-26 | exiting the active trade leaves the balance unchanged |
| Ledgers.UpdateMovesBalanceByActiveTrade | src/main/kotlin/org/msi/ftx1/business/backtest/TradeHistory.kt:20-22 | a price update moves the balance by exactly the change in the active trade's P&L |
| Reports.TradeCountFollowsLedger | src/main/kotlin/org/msi/ftx1/business/backtest/BackTestReport.kt:17-18 | `tradeCount` is the number of ledger trades: each accepted trade adds one (a refused one has no positive amount), and price updates and exits keep the count |
| Reports.FinalBalanceIsInitialPlusProfit | src/main/kotlin/org/msi/ftx1/business/backtest/BackTestReport.kt:26-36 | `finalBalance` is the ledger's initial balance plus the report's `profitLoss` |
| Reports.Profitability | src/main/kotlin/org/msi/ftx1/business/backtest/BackTestReport.kt:32-33 | profitability times the starting balance gives `profitLoss`; a zero starting balance is non-finite |
| Reports.FinalBalanceFromProfitability | src/main/kotlin/org/msi/ftx1/business/backtest/BackTestReport.kt:23-36 | when the ledger starts from the report's balance, the final balance is that balance times (1 + profitability) |
| Reports.WinCount | src/main/kotlin/org/msi/ftx1/business/backtest/BackTestReport.kt:41-42 | the win count is at most the trade count, and zero exactly when no trade is profitable |
| Reports.WinCountAfterAppend | src/main/kotlin/org/msi/ftx1/business/backtest/BackTestReport.kt:41-42 | an accepted trade raises the win count by one exactly when it is profitable, so the count is the number of profitable trades |
| Reports.WinRate | src/main/kotlin/org/msi/ftx1/business/backtest/BackTestReport.kt:38-39 | the win rate lies in [0, 1] and times the trade count gives the win count; it is 0 iff nothing won and 1 iff everything won; with no trade it is 0/0 |
| Reports.BuyAndHoldProfitability | src/main/kotlin/org/msi/ftx1/business/backtest/BackTestReport.kt:47-48 | the start price grown by the buy-and-hold profitability is the end price; a zero start price is non-finite |
| Reports.VsBuyAndHold | src/main/kotlin/org/msi/ftx1/business/backtest/BackTestReport.kt:44-45 | `vsBuyAndHold` plus buy-and-hold profitability gives the strategy's profitability; it is undefined when either quotient is |
| Reports.BeatsBuyAndHoldIffEndsHigher | src/main/kotlin/org/msi/ftx1/business/backtest/BackTestReport.kt:32-48 | with a positive starting balance, the strategy beats buy-and-hold exactly when it ends above what the same capital held in the asset would reach |

## Left out

- Network, websocket, file-cache, configuration and entry-point code: these are I/O and wiring, not business logic.
- `BackTester.kt`: its loop never reaches the strategy, and it calls ledger and trade methods that backtest/TradeHistory.kt does not have.
- EMA, MMA, ATR, CCI, stochastic RSI, RSI and the ATR-based stops: they depend on NaN fallbacks or divide by possibly zero deviations.
- `riskReward`, `maxDrawDown`, `exposure`, `duration` and `print` of the report: the draw-down is unfinished (a TODO) and the rest is presentation.
- BarCharts.Get: `index * interval.seconds` is 32-bit `Int` arithmetic in Kotlin. The model multiplies unbounded integers, so it does not reproduce the wrap-around for far-back indices (from 3551 on for WEEK_1, from 24856 on for DAY_1).
- Time zones: `ZonedDateTime` start times are epoch seconds (`int`).
- The chart's mutable cache: the `EnumMap` of down-sampled charts is modelled as a `ChartFamily` value rather than a map updated in place.
- The timestamp argument of a position's price update, and the exit timestamp: these are not modelled.
- Double arithmetic: prices are exact `real`s. Rounding, and the 0.001 tolerance of the trade-record fixtures, do not arise.
- SizedPositions.Open: the sized trade record's own source is not part of this model. Its sizing formulas, the stop touch at or beyond the stop, and exit at the current price are inferred from TradeRecordTest.kt. A second `exit` on a closed position is modelled as refused (IllegalArgument), mirroring TradeRecord.kt. Opening with a zero entry price, a stop equal to the entry or a zero balance is refused with NotFinite. In Double arithmetic a stop at the entry would instead give an infinite theoretical trade, capped by the leverage to a finite size with zero risk. No fixture covers that case, so the model does not promise either behaviour.
- Ledgers.Balance: an open position counts at its profit at the current price. The newer record's `profitLoss` is not part of this model, and no fixture reads it for an open position. TradeRecord.kt's `profitLoss` fails on a record without an exit price instead.
- Ledgers.PlusAssign: the `amount` required to be positive is taken to be the sized position's quantity. The ledger stores its trades as values, while Kotlin stores references that `updateCurrentPrice` and `exit` change in place. The model therefore assumes each record is appended once and changed only through the ledger. A record appended twice would, in Kotlin, close in both slots on one exit; `Ledgers.ExitClosesOneTrade` holds only for distinct records.
- Ledgers.ExitKeepsBalance: holds under the `Consistent` invariant (open trades carry no exit price). `Ledgers.OperationsKeepConsistency` shows that every ledger operation keeps this invariant.
- Signals: the null-check branches (`?: return@Signal false`) of `isOver`/`isUnder` cannot fire, because an indicator value is never null. They are not modelled.
- The commutation of crossings with `previousValue` is not stated as a lemma. The windowed version is, in `Indicators.WindowedIndicatorsCommuteWithDelay`.

## Findings

| source | as written | input that shows it | evidently intended | confidence | as-written member | corrected member |
|---|---|---|---|---|---|---|
| src/main/kotlin/org/msi/ftx1/business/indicator/Indicators.kt:184-188 | %K divides (close − lowest low) by (highest high − close), then caps at 100 | one bar, low 0, high 10, close 8, length 1: 100·8/2 = 400, capped to 100 | (close − lowest low) / (highest high − lowest low) · 100, i.e. 80 | not executed | Indicators.StochasticAsWritten (with Indicators.StochasticBelowMidpoint, Indicators.StochasticCounterexample and Indicators.StochasticSaturatesInUpperHalf) | Indicators.StochasticK (with Indicators.StochasticKIsPercentage) |

# AI portfolio manager — verified model of the analytics core

This project models the analytics core of the AI portfolio manager in Dafny. There are three stages:

- **Valuation** (`PortfolioAnalyzer.analyze`):
  - shares × latest price per holding;
  - the skipna total;
  - allocation percentages rounded to two decimals;
  - the over-allocated (> 30 %) and under-allocated (< 10 %) lists;
  - the summary table joined with the risk level.
- **Risk engine** (`RiskAnalyzer`):
  - annualised volatility, Sharpe ratio and 95 % historical value at risk per asset;
  - the LOW / MEDIUM / HIGH categorisation loop;
  - the aggregate `portfolio_risk` figure.
- **Rebalancer** (`Rebalancer`):
  - one REDUCE / BUY / HOLD signal per asset, from the fixed thresholds 30 (maximum), 20 (buy trigger) and 33.33 (target);
  - the trade list of the non-HOLD signals;
  - the trade count the report announces.

Modules follow the program's structure:

- `Numeric` (numeric.dfy):
  - pandas float cells as `Num = Fin(real) | PosInf | NegInf | NaN`;
  - IEEE division;
  - skipna sums, mean, and sample variance / standard deviation with one degree of freedom.
- `Rounding` (rounding.dfy): `round(2)`, half to even, on exact reals.
- `Percentile` (percentile.dfy): `np.percentile(x, 5)` with numpy's default linear interpolation over an insertion-sorted copy.
- `RiskEngine` (risk_engine.dfy): `calculate_metrics`, with its category loop as a method with a loop invariant, and `portfolio_risk`.
- `Portfolio` (portfolio.dfy):
  - the valuation as functions;
  - `PortfolioAnalyzer` as a class whose `Analyze` method updates `prices` and `riskData`, in that order, as the source does.
- `Rebalancer` (rebalancer.dfy): `generate_signals` and the trade loop of `execute_report` as methods with loops, proved against the functions `SignalsOf` and `TradesOf`.

How inputs are modelled:

- Numbers are exact reals. pandas' NaN and ±inf are explicit values.
  - Every comparison with NaN is false, so a NaN volatility is classified HIGH and a NaN allocation is HOLD and on neither list.
  - x/0 is ±inf, and 0/0 is NaN.
- `np.sqrt` is a parameter `sqrt`. The only facts assumed about it are `SquareRoot(sqrt)`: √0 = 0 and √x > 0 for x > 0.
- The fetched prices and the return window are parameters of `Analyze` in place of `StockData.fetch_live`.
- The holdings dict is a sequence of `Holding`s in dict order.

## Where the code departs from its documented design (the model follows the code)

The system's design notes describe the rebalancer as emitting REDUCE / BUY / HOLD with an equal-weight target of 100/N, excluding assets with a missing price or too few observations, and rounding allocations to sum to 100 within ±0.01 for up to 20 assets. The code differs in these points:

- The rebalancer emits the action names REDUCE / BUY / HOLD, and its trade lines read "SELL …" and "BUY  …".
- The target is the constant 33.33 for every REDUCE and BUY signal. It is not 100/N. A REDUCE signal between 30 % and 33.33 % therefore points to a target above the current allocation (`Rebalancer.ReduceTargetAboveCurrent`).
- Signals and trades come out in the order of the allocation series. In the code that series has pandas' aligned index: `pd.Series(self.shares) * prices` (core/portfolio.py:28) and the summary DataFrame (core/portfolio.py:36-42) line up on the union of their indexes, and that union is sorted by asset whenever the holdings and price indexes differ. The model keeps holdings order throughout, the simplification listed under "## Left out" (pandas index alignment).
- An asset without a price is not excluded. Its value and allocation are NaN, it keeps its summary row, and it is on neither list.
- An asset with fewer than two observations is not excluded. Its volatility and Sharpe ratio are NaN and it is classified HIGH (`RiskEngine.ShortSeries`).
- A zero standard deviation gives a Sharpe ratio of ±inf or NaN (`RiskEngine.SharpeOfFlatSeries`). There is no separate marker.
- The rounded allocations sum to 100 within 0.005 per holding (`Portfolio.RoundedAllocationsNear100`). For 20 holdings that is ±0.1, not ±0.01.
- `portfolio_risk` does not compute the mean of the per-asset standard deviations; see "## Findings".

## Model

| member | source | states |
|---|---|---|
| Numeric.Num.Scaled | core/portfolio.py:30 | the `* 100` of the allocation: a finite cell becomes val × k, with the same sign (positive, negative or zero); NaN and ±inf stay unchanged |
| Numeric.Quotient | core/risk_engine.py:19 | float division: finite exactly for a non-zero divisor, with quotient × divisor = dividend; x/0 is +inf for x > 0, -inf for x < 0 and NaN for 0/0 |
| Numeric.QuotientSign | core/risk_engine.py:19 | with a positive divisor the quotient is finite and has the dividend's sign (positive, negative or zero) |
| Numeric.SampleVariance | core/risk_engine.py:18 | the ddof = 1 variance is never negative |
| Numeric.SampleStd | core/risk_engine.py:18 | `std()` is a number exactly when there are at least two observations, and is then non-negative for a square root (`SquareRoot(sqrt)`); Volatility and Sharpe are defined through it |
| Numeric.ConstantStatistics | core/risk_engine.py:18-19 | a constant series has that constant as mean, minimum and maximum, and zero variance |
| Numeric.MeanBounds | core/risk_engine.py:19 | the mean lies between the minimum and the maximum |
| Rounding.HalfEven | core/portfolio.py:30 | the nearest integer, within 0.5, with a tie going to the even neighbour |
| Rounding.Round2 | core/portfolio.py:30 | definition of `round(2)`: the half-even integer nearest x × 100, over 100; its properties are in Rounding.Round2Error, Rounding.Round2Idempotent and Rounding.Round2Monotone |
| Rounding.Round2Error | core/portfolio.py:30 | rounding to two decimals moves a value by at most 0.005 |
| Rounding.Round2Idempotent | core/portfolio.py:30 | rounding an already rounded value changes nothing |
| Rounding.Round2Monotone | core/portfolio.py:30 | rounding never swaps two values |
| Rounding.Round2Percent | core/portfolio.py:30 | rounding keeps a percentage inside [0, 100] |
| Rounding.RoundedNum | core/portfolio.py:30 | rounding a cell keeps NaN and ±inf unchanged and finite cells finite |
| Percentile.Insert | core/risk_engine.py:28 | inserting into a sorted sample keeps it sorted and adds exactly that element |
| Percentile.SortAscending | core/risk_engine.py:28 | the sorted copy is sorted, has the same length and is a permutation of the sample |
| Percentile.PercentileBetweenOrderStatistics | core/risk_engine.py:28 | the 5th percentile lies between the two order statistics at the virtual index 5·(n−1)/100 |
| Percentile.PercentileWithinRange | core/risk_engine.py:28 | the 5th percentile lies between the sample's minimum and maximum |
| Percentile.PercentileOfConstant | core/risk_engine.py:28 | the percentile of a constant sample is that constant |
| Percentile.FifthPercentileOfSmallSample | core/risk_engine.py:28 | for 2 to 20 observations it interpolates between the two smallest values, a fraction 5·(n−1)/100 of the way |
| Percentile.FifthPercentile | core/risk_engine.py:28 | definition of `np.percentile(x, 5)`, linear method: interpolation between the order statistics at index ⌊5·(n−1)/100⌋ and the next, clipped; its properties are in Percentile.PercentileBetweenOrderStatistics and Percentile.PercentileWithinRange |
| RiskEngine.Volatility | core/risk_engine.py:18 | annualised volatility is a number exactly when there are two observations or more, and is then non-negative for a square root (`SquareRoot(sqrt)`) |
| RiskEngine.VolatilityNonNegative | core/risk_engine.py:18 | for a square root (`SquareRoot(sqrt)`), the volatility of a series of two or more returns is a non-negative number |
| RiskEngine.SharpeSign | core/risk_engine.py:19 | for a square root (`SquareRoot(sqrt)`) and two or more returns with a non-zero variance, the Sharpe ratio is finite and has the sign of the mean return, in all three directions |
| RiskEngine.SharpeOfFlatSeries | core/risk_engine.py:19 | for a square root (`SquareRoot(sqrt)`) and two or more returns with zero variance, the Sharpe ratio is +inf, -inf or NaN, the same way the mean is positive, negative or zero |
| RiskEngine.Sharpe | core/risk_engine.py:19 | below two observations it is NaN; a finite Sharpe ratio times std × √252 gives the mean × 252 |
| RiskEngine.ShortSeries | core/risk_engine.py:18-25 | below two observations, volatility and Sharpe ratio are NaN and the level is HIGH |
| RiskEngine.LevelBands | core/risk_engine.py:22-25 | LOW exactly below 20, MEDIUM exactly from 20 up to 35, HIGH exactly from 35 on |
| RiskEngine.LevelMonotone | core/risk_engine.py:22-25 | a higher volatility never gives a lower level |
| RiskEngine.LevelOfUndefined | core/risk_engine.py:22-25 | a NaN volatility fails both tests and is HIGH |
| RiskEngine.LevelOf | core/risk_engine.py:22-25 | LOW exactly when the volatility compares below 20; HIGH exactly when it does not compare below 35 (so NaN is HIGH) |
| RiskEngine.ClassifyVolatilities | core/risk_engine.py:21-26 | the loop yields one level per volatility, in column order, each by the banding rule |
| RiskEngine.CalculateMetrics | core/risk_engine.py:16-36 | it fails exactly when there are assets but no observations (the percentile of an empty sample); otherwise it gives one record per asset, in column order, with that asset's volatility, Sharpe ratio, VaR and level |
| RiskEngine.RecordOf | core/risk_engine.py:31-36 | the metrics row of the j-th column carries that column's asset, and its level is the level of its volatility |
| RiskEngine.ValueAtRiskWithinRange | core/risk_engine.py:28-29 | VaR-95 lies between 100 × the smallest and 100 × the largest return |
| RiskEngine.ValueAtRisk | core/risk_engine.py:28-29 | definition: the 5th percentile of the column × 100; its properties are in RiskEngine.ValueAtRiskWithinRange and RiskEngine.ConstantSeries |
| RiskEngine.ConstantSeries | core/risk_engine.py:18-29 | for a square root (`SquareRoot(sqrt)`), a constant series of two or more returns has volatility 0, level LOW, no finite Sharpe ratio and VaR equal to that return × 100 |
| RiskEngine.LevelFor | core/portfolio.py:41 | the lookup of an asset's level is absent exactly when the table has no row for it; otherwise it comes from a row for that asset |
| RiskEngine.LevelForRow | core/portfolio.py:41 | with one row per asset, the lookup returns that row's level |
| RiskEngine.CrossSectionStds | core/risk_engine.py:39 | `std(axis=1)` gives one non-negative spread per period |
| RiskEngine.PortfolioRisk | core/risk_engine.py:39 | `portfolio_risk`, as written, is a number exactly when there are two or more assets and one or more periods, and is then non-negative |
| RiskEngine.LockstepPortfolioRisk | core/risk_engine.py:39 | for a square root (`SquareRoot(sqrt)`), on two assets moving in lockstep, `portfolio_risk` as written reports 0 |
| RiskEngine.LockstepAssetVolatilities | core/risk_engine.py:18 | for a square root (`SquareRoot(sqrt)`), on the same window each asset has positive volatility, and so does their mean |
| RiskEngine.AssetVolatilities | core/risk_engine.py:18 | the per-asset volatilities, one per column, each that column's `Volatility` |
| RiskEngine.PortfolioRiskAcrossAssets | core/risk_engine.py:39 | the corrected figure is a number exactly when there are assets and two or more periods |
| RiskEngine.PortfolioRiskAcrossAssetsBounds | core/risk_engine.py:39 | with at least one asset and two or more periods, the corrected figure lies between the rounded smallest and largest per-asset volatility |
| Portfolio.PriceOf | core/portfolio.py:28 | the aligned price is a number exactly when the asset has a price |
| Portfolio.ValueOf | core/portfolio.py:28 | a holding's value is a number exactly when its asset has a price |
| Portfolio.Values | core/portfolio.py:28 | one value per holding, in holdings order |
| Portfolio.TotalValue | core/portfolio.py:29 | definition: the skipna sum of the values; its properties are in Portfolio.TotalValueSplits and Portfolio.ZeroTotal |
| Portfolio.UnroundedAllocation | core/portfolio.py:30 | value / total × 100 is finite exactly for a priced holding and a non-zero total, and then times the total gives value × 100 |
| Portfolio.AllocationOf | core/portfolio.py:30 | the rounded allocation is finite exactly for a priced holding and a non-zero total |
| Portfolio.TotalValueSplits | core/portfolio.py:29 | the skipna total is additive over the holdings, and with non-negative prices each priced holding's value lies between 0 and the total |
| Portfolio.SummaryRows | core/portfolio.py:36-42 | one summary row per holding, in holdings order |
| Portfolio.RowOf | core/portfolio.py:36-42 | definition of one summary row; its properties are in Portfolio.SummaryJoin |
| Portfolio.AnalysisOf | core/portfolio.py:28-44 | definition of what `analyze` returns; its properties are in Portfolio.SummaryJoin, Portfolio.FlaggedExactly, Portfolio.RoundedAllocationsNear100 and Portfolio.AtMostThreeOver |
| Portfolio.PortfolioAnalyzer.constructor | core/portfolio.py:11-14 | a new analyzer holds the given holdings and no prices or risk table yet |
| Portfolio.PortfolioAnalyzer.Analyze | core/portfolio.py:16-44 | it stores the prices; it fails exactly when the risk engine raises, and then leaves the risk table as it was; otherwise it stores one risk record per asset and returns the valuation of the holdings at those prices, joined with that table; the holdings never change |
| Portfolio.SummaryJoin | core/portfolio.py:36-42 | each row carries its holding's asset and shares, the aligned price and the value shares × price (both NaN without a price), the rounded allocation against the total, and the risk level of that asset |
| Portfolio.SummaryRisk | core/portfolio.py:41 | with one risk row per asset, the summary's risk column holds that asset's level |
| Portfolio.MissingPrice | core/portfolio.py:28-34 | a holding without a price has NaN price, value and allocation, and neither list holds any flag for its asset |
| Portfolio.FlaggedMembers | core/portfolio.py:33-34 | the selection holds exactly the rows that breach the limit |
| Portfolio.FlaggedExactly | core/portfolio.py:33-34 | the over list holds exactly the rows with rounded allocation above 30; the under list exactly those below 10 |
| Portfolio.Flagged | core/portfolio.py:33-34 | the boolean-mask selection is never longer than the series; its membership is in Portfolio.FlaggedMembers |
| Portfolio.FlaggedAppend | core/portfolio.py:33-34 | the selection keeps the order of the rows |
| Portfolio.FlaggedWitness | core/portfolio.py:33-34 | every selected entry comes from a breaching row |
| Portfolio.FlaggedNone | core/portfolio.py:33-34 | with no breaching row the selection is empty |
| Portfolio.FlagsDisjoint | core/portfolio.py:33-34 | with one holding per asset, no asset is on both lists, and every listed asset is held |
| Portfolio.ValuesNonNegative | core/portfolio.py:28 | with non-negative prices every defined value is non-negative |
| Portfolio.AllocationRange | core/portfolio.py:30 | with non-negative prices and a positive total, every priced holding's allocation is a number in [0, 100] |
| Portfolio.UnroundedSum | core/portfolio.py:29-30 | the unrounded allocations add up to the sum of the values over the total, × 100 |
| Portfolio.AllocationsSumTo100 | core/portfolio.py:29-30 | with a positive total, the allocations before rounding add up to exactly 100 |
| Portfolio.RoundedSumError | core/portfolio.py:30 | rounding moves the sum of the allocations by at most 0.005 per holding |
| Portfolio.RoundedAllocationsNear100 | core/portfolio.py:29-30 | with a positive total, the rounded allocations add up to 100 within 0.005 per holding |
| Portfolio.OverWeight | core/portfolio.py:30-33 | for a positive total t and non-negative prices, the number of over-allocated entries × 29.995 is at most the sum of the values over the total × 100 (the unrounded total, 100) |
| Portfolio.AtMostThreeOver | core/portfolio.py:30-33 | with non-negative prices and a positive total, at most three assets are over-allocated |
| Portfolio.ZeroTotal | core/portfolio.py:29-34 | with non-negative prices and a zero total, every allocation is NaN (0/0) and both lists are empty |
| Portfolio.EqualPairScenario | core/portfolio.py:28-34 | two equal holdings of 1000 give a total of 2000, 50 % each, both over-allocated and none under |
| Portfolio.MissingPriceScenario | core/portfolio.py:28-34 | a lone unpriced holding keeps its row with NaN value and allocation, the total is 0, and both lists are empty |
| Rebalancer.SignalFor | core/rebalancer.py:29-37 | the signal keeps asset and current allocation; it is HOLD exactly when neither test fires; HOLD's target is the current allocation, and every other target is 33.33 |
| Rebalancer.SignalsOf | core/rebalancer.py:22-46 | one signal per entry, so as many signals as entries; its elements are in Rebalancer.SignalsInOrder |
| Rebalancer.GenerateSignals | core/rebalancer.py:22-46 | the loop emits exactly the rule's signal for each entry, one per asset, in input order, with the current allocation unchanged |
| Rebalancer.RuleOnFinite | core/rebalancer.py:29-37 | on a number: REDUCE exactly above 30, BUY exactly below 20, HOLD exactly from 20 to 30 with target = current; REDUCE and BUY target 33.33 |
| Rebalancer.RuleOnCells | core/rebalancer.py:29-37 | REDUCE exactly when the cell is above 30; BUY exactly when it is not above 30 and below 20; NaN gives HOLD with target NaN; +inf gives REDUCE; -inf gives BUY |
| Rebalancer.ReduceTargetAboveCurrent | core/rebalancer.py:29-31 | an allocation between 30 and 33.33 gets REDUCE with a target above it |
| Rebalancer.SignalsInOrder | core/rebalancer.py:26-44 | the i-th signal is the rule applied to the i-th asset, and carries its name and allocation |
| Rebalancer.ExecuteReport | core/rebalancer.py:62-69 | the trade loop builds exactly the trade list of the signals; the announced count equals its length and the number of non-HOLD signals |
| Rebalancer.TradeFor | core/rebalancer.py:62-67 | a signal gives no trade exactly when it is HOLD; otherwise a trade with its asset, current and target, SELL exactly for REDUCE |
| Rebalancer.TradesOf | core/rebalancer.py:62-67 | the trade list is never longer than the signals; its properties are in Rebalancer.TradeCount, Rebalancer.TradeSource and Rebalancer.SignalTrade |
| Rebalancer.ActiveCount | core/rebalancer.py:62-67 | definition: the number of non-HOLD signals; related to the trade list by Rebalancer.TradeCount |
| Rebalancer.TradesAppend | core/rebalancer.py:62-67 | trades keep the order of their signals |
| Rebalancer.TradeCount | core/rebalancer.py:62-67 | one trade per non-HOLD signal |
| Rebalancer.TradeSource | core/rebalancer.py:62-67 | every trade comes from a non-HOLD signal: SELL from REDUCE, BUY from BUY, with that signal's asset, current and target |
| Rebalancer.SignalTrade | core/rebalancer.py:62-67 | every non-HOLD signal has its trade in the list, and HOLD signals have none |
| Rebalancer.LineMentions | core/rebalancer.py:65-69 | every rendered trade line contains "SELL" or "BUY" |
| Rebalancer.Line | core/rebalancer.py:65-67 | definition: "SELL " or "BUY  ", then the asset; its property is in Rebalancer.LineMentions |
| Rebalancer.Lines | core/rebalancer.py:65-67 | one rendered line per trade, in trade order |
| Rebalancer.MentionCount | core/rebalancer.py:69 | the count of lines containing "BUY" or "SELL" is at most the number of lines; Rebalancer.EveryLineMentions shows it is exactly that number |
| Rebalancer.EveryLineMentions | core/rebalancer.py:69 | so the count's filter keeps every line, and the count is the number of trades |
| Rebalancer.CurrentAllocation | core/portfolio.py:40 | the allocation series fed to the rebalancer: each summary row's asset and allocation, in row order |
| Rebalancer.FlagsAndSignals | core/rebalancer.py:29-34 | an asset gets REDUCE exactly when it is on the over-allocated list, and an under-allocated asset always gets BUY |
| Rebalancer.TwoAssetScenario | core/rebalancer.py:26-69 | allocations 35 and 15 give REDUCE and BUY, both with target 33.33, the trades SELL X and BUY Y in that order, and a count of 2 |

## Left out

- Price and return fetching (`StockData`, `fetch_live`, the network): the fetched prices and return window are parameters of `Analyze`.
- `analyze_allocation`: only wiring; its column selection is `Rebalancer.CurrentAllocation`.
- `health_report` and every `print`: the emoji labels, the `.1f` / `,.2f` formatting and the percentages in a trade line. `Rebalancer.Line` keeps only the line's start up to the asset name.
- The default holdings in the `PortfolioAnalyzer` constructor (core/portfolio.py:12): the holdings are a constructor parameter.
- Display rounding of prices and values (core/portfolio.py:38-39) and of the risk table (core/risk_engine.py:32-34). The model keeps these columns unrounded. The allocation rounding (core/portfolio.py:30) is modelled because the thresholds test the rounded values.
- Float precision: numbers are exact reals. Rounding ties are decided on the exact value, not on its binary approximation.
- `np.sqrt`: a parameter, constrained only by √0 = 0 and √x > 0 for x > 0.
- pandas index alignment beyond the holdings: assets that are priced but not held are not modelled, and rows follow holdings order, not pandas' union-sorted index.
- Missing return cells: the return window is rectangular with a number in every cell, as the feed's `dropna` leaves it. So `dropna()` on a column (core/risk_engine.py:28) changes nothing.
- The risk engine's `prices` field (core/risk_engine.py:13): it is stored and never read.
- Percentile.FifthPercentile: only q = 5, the one quantile the source asks for, not numpy's general q.
- RiskEngine.SharpeSign: requires a positive variance. "Variance positive exactly when the series is not constant" is not proved; only the constant direction is (`Numeric.ConstantStatistics`).
- RiskEngine.LevelBands: the bands are stated on the volatility value, not translated back into bounds on the variance, since √ is abstract.

## Findings

| source | as written | input that shows it | evidently intended | confidence | as-written member | corrected member |
|---|---|---|---|---|---|---|
| core/risk_engine.py:39 | `returns.std(axis=1).mean()` takes the spread across assets at each period, then averages it over time | two assets with returns [0.01, 0.03] each, moving in lockstep: every period has zero spread, so portfolio risk is 0 although each asset's volatility is positive | the mean across assets of each asset's volatility (`returns.std().mean()`), which is what the design notes say `portfolio_risk` is: "mean, across assets, of each asset's per-period return standard deviation, then annualized" | high, not executed | RiskEngine.LockstepPortfolioRisk | RiskEngine.PortfolioRiskAcrossAssetsBounds |

# Investment Analysis Tool: a Dafny model of its calculations

The Investment Analysis Tool is a desktop application. It loads a stock's
daily closing prices, derives technical indicators and a Buy/Hold/Sell
recommendation from them, and projects a dollar-cost-averaging (DCA) plan
forward. The repository holds two versions of each calculation module: one
under `src/` and an older one at the root. This project models both versions
of the calculation core over Dafny's `real` numbers:

- **Return estimator** (`calculate_average_interest`). It is the same in both
  versions. It writes the `Return` column (`pct_change` of the closing prices)
  into the caller's frame and returns 252 times its mean. The result is
  undefined (pandas' NaN, here `None`) when there are fewer than two prices.
  Module `Estimator`.
- **DCA projection** (`dca_calculation`). Each period the loop first applies
  the per-period rate to the current value. The interest is then either
  reinvested or taken out as profit. Last, the periodic contribution is added.
  Both the value and the invested total are recorded after every period.
  - The shared loop is the `Simulate` method in module `Compounding`. It is
    proved against the recursive specification `After` and its closed forms.
  - `SrcDca` holds the `src/` wrapper: five period keywords, and a result with
    a `data_points` dictionary.
  - `RootDca` holds the root wrapper: three period keywords, and a 7-tuple.
- **Indicator engine and recommendation** (`calculate_indicators` and
  `get_latest_recommendation`).
  - Both versions share the 50- and 200-row moving averages, the RSI formula
    over 14-row averages of gains and losses, and the MACD line (12- minus
    26-span EMA, seeded with the first price) with its 9-span signal line.
    This shared part is module `Indicators`, on top of the column operations
    of `Series`.
  - `SrcAnalysis` (`src/`) works on a copy of the frame. The undefined first
    price change counts as 0, so the RSI is defined from row 13. It reads the
    last row on which all five indicators are defined.
  - `RootAnalysis` (root) writes into the caller's frame, a `Frames.Frame`
    object. The undefined first change stays undefined, so the RSI appears
    one row later. It reads the very last row whatever it holds. Both of its
    rules differ: Buy drops the `close > SMA_50` test, and Sell needs all
    three signals (with an RSI above 30) instead of any one of them.

A pandas frame is `Frames.Table` when it is a value, and `Frames.Frame` when
it is shared and updated in place. A column is a sequence of `Option<real>`
cells, with `None` for NaN.

## Model

| member | source | states |
|---|---|---|
| Series.RollingMeanOfPrices | src/stock_analysis.py:5-6 | a w-row moving average of the prices is undefined on the first w-1 rows and is the mean of the last w prices from then on |
| Series.RollingMean | src/stock_analysis.py:5-6 | `rolling(window=w).mean()` on a column that may hold NaN: the mean of the w cells ending at a row, undefined while fewer than w rows exist or when one of those cells is undefined; aligned with its input |
| Series.EmaAt | src/stock_analysis.py:14-15 | `ewm(span, adjust=False).mean()` at row t: the first value at row 0, then α·x[t] + (1-α)·e[t-1] with α = 2/(span+1) |
| Series.RollingMeanWithinWindow | src/stock_analysis.py:5-6 | a defined moving average lies between the smallest and the largest price of its window |
| Series.RollingMeanSlides | stock_analysis.py:6-7 | from one row to the next, the moving average changes by the entering price minus the leaving one, divided by the window |
| Series.RollingMeanKeepsSign | src/stock_analysis.py:9-10 | a moving average over cells that are never negative is never negative |
| Series.EmaWithinRange | src/stock_analysis.py:14-15 | an `adjust=False` EMA with span at least 1 stays within the range of the values seen so far |
| Series.EmaOfConstant | src/stock_analysis.py:14-15 | the EMA of a constant series is that constant at every row |
| Estimator.AverageInterestIsAnnualizedMeanReturn | src/dca_calculations.py:14-15 | the estimate is undefined exactly when there are fewer than two prices, and is otherwise 252 times the mean of `close[t+1]/close[t] - 1` |
| Estimator.PctChange | src/dca_calculations.py:14 | `pct_change()`: one cell per price, undefined at row 0 |
| Estimator.PctChangeCells | src/dca_calculations.py:14 | every cell of `pct_change()` after row 0 is close[t]/close[t-1] - 1 |
| Estimator.ReturnsAreTheDefinedCells | src/dca_calculations.py:14-15 | the cells `mean()` averages are exactly the simple returns, in order |
| Estimator.AverageInterest | dca_calculations.py:7-8 | the NaN-skipping mean of the `pct_change` column times 252, undefined when that column holds no defined cell |
| Estimator.ConstantPricesGiveZero | dca_calculations.py:6-8 | constant prices give an estimate of exactly 0 |
| Estimator.NonDecreasingPricesGiveNonNegative | src/dca_calculations.py:14-15 | positive prices that never fall give a defined estimate that is not negative |
| Estimator.CalculateAverageInterest | src/dca_calculations.py:14-15 | stores the `pct_change` column as `Return` in the caller's frame, leaves every other column alone, and returns the annualized estimate |
| Estimator.RateOrEstimate | src/dca_calculations.py:18-19 | a rate given by the caller is used as it is; a missing rate is replaced by the estimate from the prices, and the result is undefined exactly when the rate is missing and there are fewer than two prices |
| Compounding.Simulate | src/dca_calculations.py:26-43 | the loop runs `max(total_periods, 0)` periods; the value and invested lists are the values and invested totals after periods 0..n, and the final accumulators are those after n periods |
| Compounding.Steps | src/dca_calculations.py:33 | `range(1, total_periods + 1)` runs `max(total_periods, 0)` times |
| Compounding.Step | src/dca_calculations.py:34-41 | one period: interest is the rate times the value before the contribution; it is added to the value and the reinvested profit, or to the profit taken; then the contribution is added to the value and the invested total |
| Compounding.After | src/dca_calculations.py:26-41 | the accumulators after k periods: value and invested total at the initial investment and both profits at 0, then k steps |
| Compounding.TrajectoryShape | src/dca_calculations.py:26-43 | both lists have n+1 entries and start at the initial investment; the last entries are the final accumulators; the last invested entry is initial + periodic·n; the value is the invested total plus the reinvested profit; without reinvestment the two lists are equal |
| Compounding.InvestedIsLinear | src/dca_calculations.py:26-41 | after k periods the invested total is initial + periodic·k, whatever the rate and the reinvest flag |
| Compounding.ProfitSplit | src/dca_calculations.py:30-40 | the value is always invested plus reinvested profit; with reinvestment nothing is taken and all interest earned is reinvested, and without it the reverse |
| Compounding.TakenProfitLeavesValueAtInvested | src/dca_calculations.py:35-41 | without reinvestment the value equals the invested total, initial + periodic·k |
| Compounding.ProfitTakenClosedForm | src/dca_calculations.py:34-39 | without reinvestment the profit taken after k periods is rate·(k·initial + periodic·k(k-1)/2) |
| Compounding.ReinvestedStep | src/dca_calculations.py:34-40 | with reinvestment one period takes the value v to v·(1 + rate) + periodic: interest on the value before the contribution |
| Compounding.CompoundedStep | src/dca_calculations.py:34-40 | one reinvested period takes the closed form after k periods to the closed form after k+1 |
| Compounding.ReinvestedValueClosedForm | src/dca_calculations.py:33-40 | with reinvestment the value after k periods is initial·(1+r)^k + periodic·(1 + (1+r) + … + (1+r)^(k-1)) |
| Compounding.LumpSumCompounds | src/dca_calculations.py:33-40 | with reinvestment and no contributions the value after k periods is initial·(1+r)^k |
| Compounding.ZeroRateEarnsNothing | src/dca_calculations.py:33-45 | at a zero rate the value equals the invested total and both profits stay 0 |
| SrcDca.DcaCalculation | src/dca_calculations.py:17-63 | a missing rate is estimated first, writing `Return` into the frame; a given rate leaves the frame untouched, and the frame may then be absent; an unknown period keyword is a KeyError and an undefined estimate a failure; the call succeeds exactly when the period is known and the rate is given or there are at least two prices, and then returns the projection for the given or estimated rate; the rate used is the one `RateOrEstimate` chooses |
| SrcDca.Projected | src/dca_calculations.py:22-45 | the returned tuple for a known period and a defined rate: the loop's final invested total, final value, total profit = reinvested + taken, and the invested and value lists as data points |
| SrcDca.TotalPeriods | src/dca_calculations.py:22-23 | total_periods is the keyword's periods per year times years |
| SrcDca.PlanFor | src/dca_calculations.py:24 | the loop runs at the annual rate divided by the keyword's periods per year |
| SrcDca.ProjectedShape | src/dca_calculations.py:26-63 | both data-point lists have max(total_periods, 0)+1 entries and start at the initial investment; the returned totals are their last entries; with reinvestment the total profit is the final value minus the invested total; without it the lists are equal and the profit is all the interest earned |
| SrcDca.ProjectedInvestedTotal | src/dca_calculations.py:22-41 | the returned invested total is initial + periodic·max(total_periods, 0), whatever the rate and the reinvest flag |
| SrcDca.OneYearAtTenPercent | src/dca_calculations.py:22-45 | 1000 at 10% a year for one yearly period ends at 1100 with 100 reinvested, or at 1000 with 100 taken out |
| SrcDca.KnownPeriods | src/dca_calculations.py:22-23 | exactly daily, weekly, monthly, quarterly and yearly are accepted |
| RootDca.DcaCalculation | dca_calculations.py:10-38 | as in `src/`, with the three-keyword map: the frame is written only when the rate is estimated and may be absent otherwise; KeyError exactly for an unknown period; success exactly when the period is known and the rate is given or there are at least two prices, returning the 7-tuple of both totals, the total profit, both profit parts and both lists; the rate used is the one `RateOrEstimate` chooses |
| RootDca.Projected | dca_calculations.py:14-38 | the returned 7-tuple for a known period and a defined rate: the loop's final totals, total profit = reinvested + taken, both profit parts and both lists |
| RootDca.TotalPeriods | dca_calculations.py:14-15 | total_periods is the keyword's periods per year times years |
| RootDca.PlanFor | dca_calculations.py:14-16 | the loop runs at the annual rate divided by the keyword's periods per year |
| RootDca.ProjectedShape | dca_calculations.py:18-38 | both lists have max(total_periods, 0)+1 entries and start at the initial investment; the final value and invested total are their last entries; total profit = reinvested + taken; final value = invested + reinvested; with reinvestment nothing is taken, and without it nothing is reinvested and the lists are equal |
| RootDca.ProjectedInvestedTotal | dca_calculations.py:14-33 | the returned invested total is initial + periodic·max(total_periods, 0), whatever the rate and the reinvest flag |
| RootDca.KnownPeriods | dca_calculations.py:14 | exactly daily, monthly and yearly are accepted; weekly and quarterly are not |
| Indicators.RsiValue | src/stock_analysis.py:11-12 | on non-negative averages the RSI is defined exactly when one of them is positive; it is 100·gain/(gain+loss) when the loss is positive, 100 when only the gain is, and always within [0, 100] |
| Indicators.Diff | src/stock_analysis.py:8 | `diff()`: undefined at row 0, and close[i] - close[i-1] at every later row |
| Indicators.Macd | src/stock_analysis.py:14-16 | the 12-span EMA minus the 26-span EMA of the prices, row by row |
| Indicators.SignalLine | src/stock_analysis.py:17 | the 9-span EMA of the MACD line |
| Indicators.RsiFormula | src/stock_analysis.py:11-12 | for a positive loss, 100 - 100/(1 + gain/loss) equals 100·gain/(gain+loss), which lies in [0, 100) |
| Indicators.RsiColumn | src/stock_analysis.py:11-12 | every defined RSI cell lies within [0, 100] |
| Indicators.MacdStartsAtZero | src/stock_analysis.py:14-17 | the MACD line and the signal line both start at 0 |
| Indicators.ConstantPricesFlatMacd | src/stock_analysis.py:14-17 | constant prices give a MACD line and a signal line that are 0 at every row |
| Indicators.MacdBoundedByPriceRange | src/stock_analysis.py:14-16 | while prices stay within [lo, hi] the MACD line stays within [lo-hi, hi-lo] |
| SrcAnalysis.Gains | src/stock_analysis.py:8-9 | every gain is defined, including the first, and none is negative |
| SrcAnalysis.Losses | src/stock_analysis.py:8-10 | every loss is defined, including the first, and none is negative |
| SrcAnalysis.GainsLossesCells | src/stock_analysis.py:8-10 | row 0 of the gains and of the losses is 0, because `where` replaces the undefined first difference; every later gain is max(delta, 0) and every later loss max(-delta, 0) |
| SrcAnalysis.Rsi | src/stock_analysis.py:8-12 | the RSI column is aligned with the prices and every defined cell lies within [0, 100] |
| SrcAnalysis.CalculateIndicators | src/stock_analysis.py:3-19 | the result is a copy with the seven indicator columns set and every other column and the prices as they were |
| SrcAnalysis.RsiDefinedWhenPriceMoves | src/stock_analysis.py:8-12 | the RSI is undefined on rows 0..12, and from row 13 on it is defined exactly when the price changed at least once within the 14-row window |
| SrcAnalysis.RisingPricesGiveFullRsi | src/stock_analysis.py:8-12 | prices that rise on every row give an RSI of 100 from row 13 on |
| SrcAnalysis.FallingPricesGiveZeroRsi | src/stock_analysis.py:8-12 | prices that fall on every row give an RSI of 0 from row 13 on |
| SrcAnalysis.LastComplete | src/stock_analysis.py:22 | finds the last row among the first n on which all five indicators are defined, or reports that there is none |
| SrcAnalysis.Recommend | src/stock_analysis.py:24-28 | Buy exactly when close > SMA50 > SMA200, RSI < 70 and MACD > signal; Sell exactly when close < SMA50 < SMA200, RSI > 70 or MACD < signal; Hold otherwise; the two rules never both hold |
| SrcAnalysis.BuyRule | src/stock_analysis.py:25 | close > SMA50 > SMA200, RSI < 70 and MACD > signal |
| SrcAnalysis.SellRule | src/stock_analysis.py:27 | close < SMA50 < SMA200, or RSI > 70, or MACD < signal |
| SrcAnalysis.GetLatestRecommendation | src/stock_analysis.py:21-30 | a missing indicator column is a KeyError; no complete row is an IndexError; otherwise it returns the last complete row, with its cells, and the rule's verdict on it |
| SrcAnalysis.ShortHistoryHasNoRecommendation | src/stock_analysis.py:5-22 | with fewer than 200 prices no row is complete, so the result is an IndexError |
| SrcAnalysis.ConstantPricesHaveNoRecommendation | src/stock_analysis.py:8-22 | constant prices never define the RSI, so the result is an IndexError |
| SrcAnalysis.CompleteLastRowIsLatest | src/stock_analysis.py:22 | when the last row is complete, it is the row the recommendation is read from |
| SrcAnalysis.LongHistoryUsesLastRow | src/stock_analysis.py:5-22 | with at least 200 prices and a price change among the last 14 rows, the recommendation is read from the last row |
| RootAnalysis.Ups | stock_analysis.py:8-9 | the first gain is undefined; from row 1 on the gain is the price rise, or 0 when the price did not rise; none is negative |
| RootAnalysis.Downs | stock_analysis.py:8-10 | the first loss is undefined; from row 1 on the loss is the price fall, or 0 when the price did not fall; none is negative |
| RootAnalysis.Rsi | stock_analysis.py:8-14 | the RSI column is aligned with the prices and every defined cell lies within [0, 100] |
| RootAnalysis.WithIndicators | stock_analysis.py:5-19 | the frame gains the five indicator columns; every other column and the prices stay as they were |
| RootAnalysis.CalculateIndicators | stock_analysis.py:5-19 | updates the caller's frame in place to `WithIndicators` of its old contents and returns that same frame |
| RootAnalysis.RsiOneRowLater | stock_analysis.py:8-14 | the RSI is undefined on rows 0..13 and equals the `src/` RSI from row 14 on |
| RootAnalysis.Recommend | stock_analysis.py:23-28 | Buy exactly when SMA50 > SMA200, RSI < 70 and MACD > signal; Sell exactly when SMA50 < SMA200, RSI > 30 and MACD < signal; every comparison with an undefined cell is false; Hold otherwise, and always when an average is undefined |
| RootAnalysis.BuyRule | stock_analysis.py:24 | SMA50 > SMA200, RSI < 70 and MACD > signal, each comparison false when a cell is undefined |
| RootAnalysis.SellRule | stock_analysis.py:26 | SMA50 < SMA200, RSI > 30 and MACD < signal, each comparison false when a cell is undefined |
| RootAnalysis.GetLatestRecommendation | stock_analysis.py:21-28 | an empty frame is an IndexError; otherwise the last row, with its possibly undefined cells, and the rule's verdict on it |
| RootAnalysis.ShortHistoryHolds | stock_analysis.py:7-27 | with 1 to 199 prices the 200-row average is undefined on the last row, so the verdict is Hold |
| RootAnalysis.ConstantPricesHold | stock_analysis.py:15-27 | constant prices put the MACD line on its signal line, so the verdict is Hold |

## Left out

- `ui.py`, `load.py` and `src/main.py` are not part of this model. They hold the Qt user interface, Plotly charts, the download of prices through yfinance, and CSV parsing. Two mismatches in `ui.py` stay unmodelled: `ui.py:200` offers weekly and quarterly plans, which the root `dca_calculation` rejects; and `ui.py:308` unpacks four values, while the root `dca_calculation` returns seven.
- The `dates` entry of `data_points` (`src/dca_calculations.py:47-55`) is left out. It depends on today's date and on pandas calendar frequencies. It would hold `total_periods` dates, one fewer than the value lists.
- Floating-point arithmetic is modelled by exact `real` arithmetic. Rounding is not captured.
- SrcDca.DcaCalculation: when the estimated rate is NaN (fewer than two prices), the model returns `Failure(UndefinedRate)` and no tuple. The source does return one, and most of it is finite:
  - the invested total and the invested list never involve the rate;
  - without reinvestment the value list and the final value are finite too, and only the profit taken and the total profit are NaN;
  - with reinvestment the value list from entry 1 on, the final value, the reinvested profit and the total profit are NaN, while entry 0 and the profit taken (0) stay finite;
  - with zero periods nothing is NaN.
- RootDca.DcaCalculation: hides the same partly-NaN 7-tuple behind `Failure(UndefinedRate)`.
- Estimator.CalculateAverageInterest: requires nonzero prices wherever `pct_change` divides. The source would produce infinities or NaN there.
- SrcDca.DcaCalculation and RootDca.DcaCalculation: `years` is an integer. Money amounts are reals. A float `years`, which makes `range` raise a TypeError, is not modelled.
- RootAnalysis.GetLatestRecommendation: requires the five indicator columns. The source raises KeyError for a missing column only when short-circuit evaluation reaches it, and this is not modelled.
- SrcAnalysis.GetLatestRecommendation: a missing column is one `KeyError` value, without the column names.
- SrcAnalysis.GetLatestRecommendation: the returned row keeps the position, the close and the five cells the rule reads. The other columns of the pandas row and the date index label are left out.
- Other columns of a price frame (open, high, low, volume) are not modelled. Neither is its date index.
- RSI of a negative average: `Indicators.RsiValue` takes non-negative averages only. Both versions only ever pass such averages (`Series.RollingMeanKeepsSign`).

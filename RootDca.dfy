/** `dca_calculation` of dca_calculations.py: the three-period variant, which
    returns a 7-tuple with both profit parts and both trajectories. */
module RootDca {
  import opened Wrappers
  import opened Frames
  import opened Compounding
  import Estimator

  /** Periods per year; only three keywords are known here. */
  const PERIODS_PER_YEAR: map<string, nat> := map["daily" := 252, "monthly" := 12, "yearly" := 1]

  /** The returned tuple (total_invested, future_value, total_profit,
      profit_taken, reinvested_profit, future_values, invested_values). */
  datatype DcaResult = DcaResult(
    totalInvested: real,
    futureValue: real,
    totalProfit: real,
    profitTaken: real,
    reinvestedProfit: real,
    futureValues: seq<real>,
    investedValues: seq<real>)

  /** `total_periods = periods_per_year * years`. */
  function TotalPeriods(period: string, years: int): int
    requires period in PERIODS_PER_YEAR
  {
    PERIODS_PER_YEAR[period] * years
  }

  /** The plan the loop runs: the annual rate divided by the periods per year. */
  function PlanFor(initial: real, periodic: real, period: string, rate: real, reinvest: bool): Plan
    requires period in PERIODS_PER_YEAR
  {
    Plan(initial, periodic, rate / (PERIODS_PER_YEAR[period] as real), reinvest)
  }

  /** What `dca_calculation` returns for a known period and a defined rate. */
  function Projected(
    initial: real, periodic: real, period: string, years: int, rate: real, reinvest: bool)
    : DcaResult
    requires period in PERIODS_PER_YEAR
  {
    var plan := PlanFor(initial, periodic, period, rate, reinvest);
    var n := Steps(TotalPeriods(period, years));
    var end := After(plan, n);
    DcaResult(end.invested, end.value, end.reinvestedProfit + end.profitTaken,
              end.profitTaken, end.reinvestedProfit, Values(plan, n), InvestedTotals(plan, n))
  }

  /** `dca_calculation(data, initial_investment, periodic_investment, period,
      years, average_interest, reinvest)`. When no rate is given it is
      estimated from the prices, which also stores the "Return" column in the
      caller's frame; when a rate is given the frame is not read and may be
      absent. */
  method DcaCalculation(
    data: Frame?, initialInvestment: real, periodicInvestment: real, period: string,
    years: int, averageInterest: Option<real>, reinvest: bool)
    returns (r: Result<DcaResult, DcaError>)
    requires data != null ==> data.Valid()
    requires averageInterest.None? ==> data != null && Estimator.Divisible(data.close)
    modifies data
    ensures data != null ==> data.Valid() && data.close == old(data.close)
    ensures data != null && averageInterest.Some? ==> data.columns == old(data.columns)
    ensures averageInterest.None? ==>
              data.columns == old(data.columns)[RETURN := Estimator.PctChange(data.close)]
    ensures r == Failure(KeyError(period)) <==> period !in PERIODS_PER_YEAR
    ensures r == Failure(UndefinedRate) <==>
              period in PERIODS_PER_YEAR && averageInterest.None? && |data.close| < 2
    ensures r.Success? <==>
              period in PERIODS_PER_YEAR && (averageInterest.Some? || |data.close| >= 2)
    ensures r.Success? && averageInterest.Some? ==>
              r.value == Projected(initialInvestment, periodicInvestment, period, years,
                                   averageInterest.value, reinvest)
    ensures r.Success? && averageInterest.None? ==>
              r.value == Projected(initialInvestment, periodicInvestment, period, years,
                                   Estimator.AverageInterest(data.close).value, reinvest)
    ensures r.Success? && data != null ==>
              r.value == Projected(initialInvestment, periodicInvestment, period, years,
                                   Estimator.RateOrEstimate(averageInterest, data.close).value,
                                   reinvest)
  {
    var rate := averageInterest;
    if averageInterest.None? {
      rate := Estimator.CalculateAverageInterest(data);
      Estimator.AverageInterestIsAnnualizedMeanReturn(data.close);
    }
    if period !in PERIODS_PER_YEAR {
      return Failure(KeyError(period));
    }
    var totalPeriods := TotalPeriods(period, years);
    if rate.None? {
      return Failure(UndefinedRate);
    }
    var plan := PlanFor(initialInvestment, periodicInvestment, period, rate.value, reinvest);
    var t := Simulate(plan, totalPeriods);
    var totalProfit := t.reinvestedProfit + t.profitTaken;
    r := Success(DcaResult(t.totalInvested, t.futureValue, totalProfit, t.profitTaken,
                           t.reinvestedProfit, t.futureValues, t.investedValues));
  }

  /** The returned tuple: both trajectories have total_periods + 1 entries and
      start at the initial investment; the final value and the invested total
      are their last entries; the total profit is the sum of the two profit
      parts, of which only the one for the chosen branch is ever nonzero; with
      reinvestment the final value is the invested total plus the reinvested
      profit, and without it the two trajectories are equal. */
  lemma ProjectedShape(
    initial: real, periodic: real, period: string, years: int, rate: real, reinvest: bool)
    requires period in PERIODS_PER_YEAR
    ensures var d := Projected(initial, periodic, period, years, rate, reinvest);
            var n := Steps(TotalPeriods(period, years));
            && |d.futureValues| == |d.investedValues| == n + 1
            && d.futureValues[0] == initial && d.investedValues[0] == initial
            && d.futureValue == d.futureValues[n]
            && d.totalInvested == d.investedValues[n]
            && d.totalProfit == d.reinvestedProfit + d.profitTaken
            && d.futureValue == d.totalInvested + d.reinvestedProfit
            && (reinvest ==> d.profitTaken == 0.0)
            && (!reinvest ==> d.reinvestedProfit == 0.0 && d.futureValues == d.investedValues)
  {
    var plan := PlanFor(initial, periodic, period, rate, reinvest);
    TrajectoryShape(plan, Steps(TotalPeriods(period, years)));
    ProfitSplit(plan, Steps(TotalPeriods(period, years)));
  }

  /** The final invested total is initial + periodic * total_periods, whatever
      the rate and whether interest is reinvested. The number of periods the
      loop runs, n = Steps(TotalPeriods(period, years)), is named by a
      parameter so that the statement holds one product rather than the
      product of the period count's own two factors. */
  lemma ProjectedInvestedTotal(
    initial: real, periodic: real, period: string, years: int, rate: real, reinvest: bool, n: nat)
    requires period in PERIODS_PER_YEAR && n == Steps(TotalPeriods(period, years))
    ensures Projected(initial, periodic, period, years, rate, reinvest).totalInvested
              == initial + periodic * (n as real)
  {
    var r := rate / (PERIODS_PER_YEAR[period] as real);
    InvestedIsLinearFrom(initial, periodic, r, reinvest, n);
    assert PlanFor(initial, periodic, period, rate, reinvest) == Plan(initial, periodic, r, reinvest);
  }

  /** Only daily, monthly and yearly are known: weekly and quarterly, which
      the GUI's frequency menu offers, are KeyErrors here. */
  lemma KnownPeriods(period: string)
    ensures period in PERIODS_PER_YEAR <==> period in {"daily", "monthly", "yearly"}
    ensures "weekly" !in PERIODS_PER_YEAR && "quarterly" !in PERIODS_PER_YEAR
  {
  }
}

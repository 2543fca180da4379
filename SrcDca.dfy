/** `dca_calculation` of src/dca_calculations.py: the five-period variant,
    returning the invested total, the final value, the total profit and the
    two trajectories. */
module SrcDca {
  import opened Wrappers
  import opened Frames
  import opened Compounding
  import Estimator

  /** Periods per year for each period keyword. */
  const PERIODS_PER_YEAR: map<string, nat> :=
    map["daily" := 252, "weekly" := 52, "monthly" := 12, "quarterly" := 4, "yearly" := 1]

  /** The `data_points` dictionary without its `dates` entry. */
  datatype DataPoints = DataPoints(invested: seq<real>, value: seq<real>)

  /** The returned tuple (total_invested, future_value, total_profit, data_points). */
  datatype DcaResult = DcaResult(
    totalInvested: real,
    futureValue: real,
    totalProfit: real,
    dataPoints: DataPoints)

  /** `total_periods = periods_per_year[period] * years`. */
  function TotalPeriods(period: string, years: int): int
    requires period in PERIODS_PER_YEAR
  {
    PERIODS_PER_YEAR[period] * years
  }

  /** The plan the loop runs: the annual rate divided by the periods per year. */
  function PlanFor(initial: real, periodic: real, period: string, rate: real, reinvest: bool): Plan
    requires period in PERIODS_PER_YEAR
  {
    Plan(initial, periodic, rate / (PERIODS_PER_YEAR[period] as real), reinvest)
  }

  /** What `dca_calculation` returns for a known period and a defined rate. */
  function Projected(
    initial: real, periodic: real, period: string, years: int, rate: real, reinvest: bool)
    : DcaResult
    requires period in PERIODS_PER_YEAR
  {
    var plan := PlanFor(initial, periodic, period, rate, reinvest);
    var n := Steps(TotalPeriods(period, years));
    var end := After(plan, n);
    DcaResult(end.invested, end.value, end.reinvestedProfit + end.profitTaken,
              DataPoints(InvestedTotals(plan, n), Values(plan, n)))
  }

  /** `dca_calculation(data, initial_investment, periodic_investment, period,
      years, average_interest, reinvest)`. When no rate is given it is
      estimated from the prices, which also stores the "Return" column in the
      caller's frame; when a rate is given the frame is not read and may be
      absent. */
  method DcaCalculation(
    data: Frame?, initialInvestment: real, periodicInvestment: real, period: string,
    years: int, averageInterest: Option<real>, reinvest: bool)
    returns (r: Result<DcaResult, DcaError>)
    requires data != null ==> data.Valid()
    requires averageInterest.None? ==> data != null && Estimator.Divisible(data.close)
    modifies data
    ensures data != null ==> data.Valid() && data.close == old(data.close)
    ensures data != null && averageInterest.Some? ==> data.columns == old(data.columns)
    ensures averageInterest.None? ==>
              data.columns == old(data.columns)[RETURN := Estimator.PctChange(data.close)]
    ensures r == Failure(KeyError(period)) <==> period !in PERIODS_PER_YEAR
    ensures r == Failure(UndefinedRate) <==>
              period in PERIODS_PER_YEAR && averageInterest.None? && |data.close| < 2
    ensures r.Success? <==>
              period in PERIODS_PER_YEAR && (averageInterest.Some? || |data.close| >= 2)
    ensures r.Success? && averageInterest.Some? ==>
              r.value == Projected(initialInvestment, periodicInvestment, period, years,
                                   averageInterest.value, reinvest)
    ensures r.Success? && averageInterest.None? ==>
              r.value == Projected(initialInvestment, periodicInvestment, period, years,
                                   Estimator.AverageInterest(data.close).value, reinvest)
    ensures r.Success? && data != null ==>
              r.value == Projected(initialInvestment, periodicInvestment, period, years,
                                   Estimator.RateOrEstimate(averageInterest, data.close).value,
                                   reinvest)
  {
    var rate := averageInterest;
    if averageInterest.None? {
      rate := Estimator.CalculateAverageInterest(data);
      Estimator.AverageInterestIsAnnualizedMeanReturn(data.close);
    }
    if period !in PERIODS_PER_YEAR {
      return Failure(KeyError(period));
    }
    var totalPeriods := TotalPeriods(period, years);
    if rate.None? {
      return Failure(UndefinedRate);
    }
    var plan := PlanFor(initialInvestment, periodicInvestment, period, rate.value, reinvest);
    var t := Simulate(plan, totalPeriods);
    var totalProfit := t.reinvestedProfit + t.profitTaken;
    r := Success(DcaResult(t.totalInvested, t.futureValue, totalProfit,
                           DataPoints(t.investedValues, t.futureValues)));
  }

  /** The returned projection: both trajectories have total_periods + 1
      entries and start at the initial investment; the invested total and the
      final value are the last entries of their trajectories; with
      reinvestment the total profit is the final value minus the invested
      total, and without it the value trajectory equals the invested one and
      the profit is all the interest earned. */
  lemma ProjectedShape(
    initial: real, periodic: real, period: string, years: int, rate: real, reinvest: bool)
    requires period in PERIODS_PER_YEAR
    ensures var d := Projected(initial, periodic, period, years, rate, reinvest);
            var n := Steps(TotalPeriods(period, years));
            && |d.dataPoints.value| == |d.dataPoints.invested| == n + 1
            && d.dataPoints.value[0] == initial && d.dataPoints.invested[0] == initial
            && d.totalInvested == d.dataPoints.invested[n]
            && d.futureValue == d.dataPoints.value[n]
            && (reinvest ==> d.totalProfit == d.futureValue - d.totalInvested)
            && (!reinvest ==> d.dataPoints.value == d.dataPoints.invested)
            && (!reinvest ==>
                  d.totalProfit == InterestEarned(PlanFor(initial, periodic, period, rate, reinvest), n))
  {
    var plan := PlanFor(initial, periodic, period, rate, reinvest);
    TrajectoryShape(plan, Steps(TotalPeriods(period, years)));
    ProfitSplit(plan, Steps(TotalPeriods(period, years)));
  }

  /** The final invested total is initial + periodic * total_periods, whatever
      the rate and whether interest is reinvested. The number of periods the
      loop runs, n = Steps(TotalPeriods(period, years)), is named by a
      parameter so that the statement holds one product rather than the
      product of the period count's own two factors. */
  lemma ProjectedInvestedTotal(
    initial: real, periodic: real, period: string, years: int, rate: real, reinvest: bool, n: nat)
    requires period in PERIODS_PER_YEAR && n == Steps(TotalPeriods(period, years))
    ensures Projected(initial, periodic, period, years, rate, reinvest).totalInvested
              == initial + periodic * (n as real)
  {
    var r := rate / (PERIODS_PER_YEAR[period] as real);
    InvestedIsLinearFrom(initial, periodic, r, reinvest, n);
    assert PlanFor(initial, periodic, period, rate, reinvest) == Plan(initial, periodic, r, reinvest);
  }

  /** 1000 invested once at 10% a year for one year: reinvested, the value
      grows to 1100 and the whole 100 profit stays in; taken out, the value
      stays at 1000 and 100 is taken. */
  lemma OneYearAtTenPercent()
    ensures PERIODS_PER_YEAR["yearly"] == 1
    ensures After(PlanFor(1000.0, 0.0, "yearly", 0.10, true), 1) == Ledger(1100.0, 1000.0, 0.0, 100.0)
    ensures After(PlanFor(1000.0, 0.0, "yearly", 0.10, false), 1) == Ledger(1000.0, 1000.0, 100.0, 0.0)
  {
  }

  /** Only the five keywords are accepted; anything else, such as
      "fortnightly", is a KeyError. */
  lemma KnownPeriods(period: string)
    ensures period in PERIODS_PER_YEAR <==>
              period in {"daily", "weekly", "monthly", "quarterly", "yearly"}
    ensures "fortnightly" !in PERIODS_PER_YEAR
  {
  }
}

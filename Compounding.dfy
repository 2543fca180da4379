/** The compounding loop of `dca_calculation`, which is the same in
    src/dca_calculations.py and dca_calculations.py: period after period,
    interest is earned on the value before the period's contribution, then
    either reinvested or taken out, and the contribution is added. */
module Compounding {

  /** What one run of the loop is given. `ratePerPeriod` is the annual rate
      divided by the number of periods per year. */
  datatype Plan = Plan(initial: real, periodic: real, ratePerPeriod: real, reinvest: bool)

  /** The loop's accumulators after some number of periods. */
  datatype Ledger = Ledger(value: real, invested: real, profitTaken: real, reinvestedProfit: real)

  /** What the loop hands back: its final accumulators and the two
      trajectories, each starting with the state before the first period. */
  datatype Trajectory = Trajectory(
    totalInvested: real,
    futureValue: real,
    profitTaken: real,
    reinvestedProfit: real,
    futureValues: seq<real>,
    investedValues: seq<real>)

  /** The failures of `dca_calculation`: an unknown period keyword (a
      KeyError in the dictionary lookup), or a rate that is NaN because it was
      estimated from fewer than two prices. */
  datatype DcaError = KeyError(key: string) | UndefinedRate

  /** `range(1, total_periods + 1)` runs total_periods times, and not at all
      when total_periods is zero or negative. */
  function Steps(totalPeriods: int): nat
  {
    if totalPeriods < 0 then 0 else totalPeriods
  }

  function Start(p: Plan): Ledger
  {
    Ledger(p.initial, p.initial, 0.0, 0.0)
  }

  function Interest(p: Plan, s: Ledger): real
  {
    s.value * p.ratePerPeriod
  }

  /** One period: interest on the current value, then the contribution. */
  function Step(p: Plan, s: Ledger): Ledger
  {
    var interest := Interest(p, s);
    if p.reinvest then
      Ledger(s.value + interest + p.periodic, s.invested + p.periodic,
             s.profitTaken, s.reinvestedProfit + interest)
    else
      Ledger(s.value + p.periodic, s.invested + p.periodic,
             s.profitTaken + interest, s.reinvestedProfit)
  }

  /** The accumulators after k periods. */
  function After(p: Plan, k: nat): Ledger
  {
    if k == 0 then Start(p) else Step(p, After(p, k - 1))
  }

  /** The value after each of the first n periods, starting with period 0. */
  function Values(p: Plan, n: nat): (vs: seq<real>)
    ensures |vs| == n + 1
  {
    seq(n + 1, k requires 0 <= k <= n => After(p, k).value)
  }

  /** The invested total after each of the first n periods, starting with
      period 0. */
  function InvestedTotals(p: Plan, n: nat): (vs: seq<real>)
    ensures |vs| == n + 1
  {
    seq(n + 1, k requires 0 <= k <= n => After(p, k).invested)
  }

  /** The interest earned over the first k periods, whatever became of it. */
  function InterestEarned(p: Plan, k: nat): real
  {
    if k == 0 then 0.0 else InterestEarned(p, k - 1) + Interest(p, After(p, k - 1))
  }

  function Pow(x: real, k: nat): real
  {
    if k == 0 then 1.0 else x * Pow(x, k - 1)
  }

  /** 1 + x + ... + x^(k-1). */
  function GeometricSum(x: real, k: nat): real
  {
    if k == 0 then 0.0 else GeometricSum(x, k - 1) + Pow(x, k - 1)
  }

  /** The invested total grows by exactly one contribution per period,
      whatever the rate and whether interest is reinvested. */
  lemma {:induction false} InvestedIsLinear(p: Plan, k: nat)
    ensures After(p, k).invested == p.initial + p.periodic * (k as real)
  {
    if k > 0 {
      InvestedIsLinear(p, k - 1);
    }
  }

  /** The same, for a plan written out field by field. */
  lemma InvestedIsLinearFrom(initial: real, periodic: real, r: real, reinvest: bool, k: nat)
    ensures After(Plan(initial, periodic, r, reinvest), k).invested == initial + periodic * (k as real)
  {
    InvestedIsLinear(Plan(initial, periodic, r, reinvest), k);
  }

  /** The value is always the invested total plus the reinvested profit; only
      the accumulator of the chosen branch ever moves, and it holds the sum of
      all interest earned. */
  lemma {:induction false} ProfitSplit(p: Plan, k: nat)
    ensures After(p, k).value == After(p, k).invested + After(p, k).reinvestedProfit
    ensures p.reinvest ==>
              After(p, k).profitTaken == 0.0 && After(p, k).reinvestedProfit == InterestEarned(p, k)
    ensures !p.reinvest ==>
              After(p, k).reinvestedProfit == 0.0 && After(p, k).profitTaken == InterestEarned(p, k)
  {
    if k > 0 {
      ProfitSplit(p, k - 1);
    }
  }

  /** Without reinvestment the value never earns: it equals the invested total
      after every period. */
  lemma TakenProfitLeavesValueAtInvested(p: Plan, k: nat)
    requires !p.reinvest
    ensures After(p, k).value == After(p, k).invested == p.initial + p.periodic * (k as real)
  {
    ProfitSplit(p, k);
    InvestedIsLinear(p, k);
  }

  /** Without reinvestment the profit taken is the rate applied to the sum of
      the principals, k*initial + periodic*(0 + 1 + ... + (k-1)). */
  lemma {:induction false} ProfitTakenClosedForm(p: Plan, k: nat)
    requires !p.reinvest
    ensures After(p, k).profitTaken ==
              p.ratePerPeriod * ((k as real) * p.initial
                                 + p.periodic * (k as real) * ((k as real) - 1.0) / 2.0)
  {
    if k > 0 {
      ProfitTakenClosedForm(p, k - 1);
      TakenProfitLeavesValueAtInvested(p, k - 1);
      var r, a, b := p.ratePerPeriod, p.initial, p.periodic;
      var j := (k - 1) as real;
      assert After(p, k).profitTaken
          == r * (j * a + b * j * (j - 1.0) / 2.0) + (a + b * j) * r;
      assert j * (j - 1.0) / 2.0 + j == (j + 1.0) * j / 2.0;
      assert (k as real) == j + 1.0;
    }
  }

  lemma {:induction false} GeometricSumShift(x: real, k: nat)
    ensures x * GeometricSum(x, k) + 1.0 == GeometricSum(x, k + 1)
  {
    if k > 0 {
      GeometricSumShift(x, k - 1);
      assert x * Pow(x, k - 1) == Pow(x, k);
    }
  }

  lemma ReinvestedStep(p: Plan, s: Ledger)
    requires p.reinvest
    ensures Step(p, s).value == s.value * (1.0 + p.ratePerPeriod) + p.periodic
  {
  }

  lemma Regroup(a: real, b: real, g: real, pow: real, sum: real, v: real,
                 pow': real, sum': real, v': real)
    requires v == a * pow + b * sum && v' == v * g + b
    requires pow' == g * pow && sum' == g * sum + 1.0
    ensures v' == a * pow' + b * sum'
  {
  }

  /** initial*(1+r)^k + periodic*(1 + (1+r) + ... + (1+r)^(k-1)): the initial
      investment compounded k times, plus each contribution compounded for
      the periods since it was made. */
  function Compounded(p: Plan, k: nat): real
  {
    p.initial * Pow(1.0 + p.ratePerPeriod, k)
    + p.periodic * GeometricSum(1.0 + p.ratePerPeriod, k)
  }

  /** One reinvested period takes the closed form for k periods to the one
      for k+1 periods. */
  lemma CompoundedStep(p: Plan, s: Ledger, k: nat)
    requires p.reinvest && s.value == Compounded(p, k)
    ensures Step(p, s).value == Compounded(p, k + 1)
  {
    var g := 1.0 + p.ratePerPeriod;
    ReinvestedStep(p, s);
    GeometricSumShift(g, k);
    Regroup(p.initial, p.periodic, g, Pow(g, k), GeometricSum(g, k),
            s.value, Pow(g, k + 1), GeometricSum(g, k + 1), Step(p, s).value);
  }

  /** With reinvestment the value after k periods is the compound-interest
      closed form. */
  lemma {:induction false} ReinvestedValueClosedForm(p: Plan, k: nat)
    requires p.reinvest
    ensures After(p, k).value == Compounded(p, k)
  {
    if k > 0 {
      ReinvestedValueClosedForm(p, k - 1);
      CompoundedStep(p, After(p, k - 1), k - 1);
    }
  }

  /** Without contributions and with reinvestment, the initial investment
      simply compounds: initial*(1+r)^k. */
  lemma LumpSumCompounds(p: Plan, k: nat)
    requires p.reinvest && p.periodic == 0.0
    ensures After(p, k).value == p.initial * Pow(1.0 + p.ratePerPeriod, k)
  {
    ReinvestedValueClosedForm(p, k);
    assert Compounded(p, k) == p.initial * Pow(1.0 + p.ratePerPeriod, k) + 0.0 * GeometricSum(1.0 + p.ratePerPeriod, k);
  }

  /** At a zero rate nothing is earned: the value equals the invested total
      and both profits are zero. */
  lemma {:induction false} ZeroRateEarnsNothing(p: Plan, k: nat)
    requires p.ratePerPeriod == 0.0
    ensures After(p, k).value == After(p, k).invested
    ensures After(p, k).profitTaken == 0.0 && After(p, k).reinvestedProfit == 0.0
  {
    if k > 0 {
      ZeroRateEarnsNothing(p, k - 1);
    }
  }

  /** One more period appends one entry to each trajectory. */
  lemma TrajectoriesGrow(p: Plan, n: nat)
    ensures Values(p, n + 1) == Values(p, n) + [After(p, n + 1).value]
    ensures InvestedTotals(p, n + 1) == InvestedTotals(p, n) + [After(p, n + 1).invested]
  {
  }

  /** The loop of `dca_calculation`: it runs Steps(totalPeriods) periods,
      appending the value and the invested total after each. */
  method Simulate(p: Plan, totalPeriods: int) returns (r: Trajectory)
    ensures r.futureValues == Values(p, Steps(totalPeriods))
    ensures r.investedValues == InvestedTotals(p, Steps(totalPeriods))
    ensures Ledger(r.futureValue, r.totalInvested, r.profitTaken, r.reinvestedProfit)
              == After(p, Steps(totalPeriods))
  {
    var n := Steps(totalPeriods);
    var totalInvested := p.initial;
    var futureValue := p.initial;
    var futureValues := [futureValue];
    var investedValues := [totalInvested];
    var profitTaken := 0.0;
    var reinvestedProfit := 0.0;
    for i := 1 to n + 1
      invariant futureValues == Values(p, i - 1)
      invariant investedValues == InvestedTotals(p, i - 1)
      invariant Ledger(futureValue, totalInvested, profitTaken, reinvestedProfit) == After(p, i - 1)
    {
      ghost var before := Ledger(futureValue, totalInvested, profitTaken, reinvestedProfit);
      var interestEarned := futureValue * p.ratePerPeriod;
      assert interestEarned == Interest(p, before);
      if p.reinvest {
        futureValue := futureValue + interestEarned;
        reinvestedProfit := reinvestedProfit + interestEarned;
      } else {
        profitTaken := profitTaken + interestEarned;
      }
      futureValue := futureValue + p.periodic;
      totalInvested := totalInvested + p.periodic;
      futureValues := futureValues + [futureValue];
      investedValues := investedValues + [totalInvested];
      assert Ledger(futureValue, totalInvested, profitTaken, reinvestedProfit) == Step(p, before);
      TrajectoriesGrow(p, i - 1);
    }
    r := Trajectory(totalInvested, futureValue, profitTaken, reinvestedProfit,
                    futureValues, investedValues);
  }

  /** What the two trajectories of any run look like: one entry per period
      plus the starting state, both starting at the initial investment, the
      final accumulators at their ends, the invested total linear in the
      number of periods, the value equal to it plus the reinvested profit, and,
      without reinvestment, the value trajectory equal to the invested one. */
  lemma TrajectoryShape(p: Plan, n: nat)
    ensures |Values(p, n)| == |InvestedTotals(p, n)| == n + 1
    ensures Values(p, n)[0] == p.initial && InvestedTotals(p, n)[0] == p.initial
    ensures Values(p, n)[n] == After(p, n).value && InvestedTotals(p, n)[n] == After(p, n).invested
    ensures InvestedTotals(p, n)[n] == p.initial + p.periodic * (n as real)
    ensures Values(p, n)[n] == InvestedTotals(p, n)[n] + After(p, n).reinvestedProfit
    ensures !p.reinvest ==> Values(p, n) == InvestedTotals(p, n)
  {
    InvestedIsLinear(p, n);
    ProfitSplit(p, n);
    if !p.reinvest {
      forall k | 0 <= k <= n
        ensures Values(p, n)[k] == InvestedTotals(p, n)[k]
      {
        ProfitSplit(p, k);
      }
    }
  }
}

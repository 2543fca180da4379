/** The historical return estimator `calculate_average_interest`, identical in
    src/dca_calculations.py and dca_calculations.py: the mean of the simple
    returns close[t]/close[t-1] - 1, annualized by multiplying by 252 trading
    days. */
module Estimator {
  import opened Wrappers
  import opened Series
  import opened Frames

  const TRADING_DAYS: real := 252.0

  /** Every price that `pct_change` divides by (all but the last) is nonzero. */
  predicate Divisible(close: seq<real>)
  {
    forall t :: 0 <= t < |close| - 1 ==> close[t] != 0.0
  }

  /** The simple returns of consecutive pairs, one fewer than the prices. */
  function SimpleReturns(close: seq<real>): (r: seq<real>)
    requires Divisible(close)
    ensures |close| > 0 ==> |r| == |close| - 1
    ensures |close| == 0 ==> r == []
  {
    if |close| == 0 then []
    else seq(|close| - 1, t requires 0 <= t < |close| - 1 => close[t + 1] / close[t] - 1.0)
  }

  /** `Close.pct_change()`: the first cell is undefined, cell t is the return
      from t-1 to t. */
  function PctChange(close: seq<real>): (c: Column)
    requires Divisible(close)
    ensures |c| == |close|
    ensures |close| > 0 ==> c[0].None?
  {
    if |close| == 0 then [] else [None] + Lift(SimpleReturns(close))
  }

  /** Cell t of `pct_change` (t > 0) is the return from t-1 to t. */
  lemma PctChangeCells(close: seq<real>)
    requires Divisible(close)
    ensures forall t :: 0 < t < |close| ==>
              PctChange(close)[t] == Some(close[t] / close[t - 1] - 1.0)
  {
    if |close| > 0 {
      var rs := SimpleReturns(close);
      forall t | 0 < t < |close|
        ensures PctChange(close)[t] == Some(close[t] / close[t - 1] - 1.0)
      {
        assert rs[t - 1] == close[t] / close[t - 1] - 1.0;
        assert PctChange(close)[t] == Lift(rs)[t - 1] == Some(rs[t - 1]);
      }
    }
  }

  /** The defined cells of a column, in order (what pandas' NaN-skipping
      reductions see). */
  function DefinedCells(c: Column): (xs: seq<real>)
    ensures |xs| <= |c|
  {
    if |c| == 0 then []
    else match c[|c| - 1]
      case None => DefinedCells(c[..|c| - 1])
      case Some(x) => DefinedCells(c[..|c| - 1]) + [x]
  }

  /** `Series.mean()`: the mean of the defined cells, NaN when there are none. */
  function MeanSkipNa(c: Column): Option<real>
  {
    var xs := DefinedCells(c);
    if |xs| == 0 then None else Some(Mean(xs))
  }

  /** The estimate `Return.mean() * 252`; `None` is the NaN that pandas
      returns for a series without any return. */
  function AverageInterest(close: seq<real>): Option<real>
    requires Divisible(close)
  {
    match MeanSkipNa(PctChange(close))
    case None => None
    case Some(m) => Some(m * TRADING_DAYS)
  }

  lemma {:induction false} DefinedCellsOfLifted(xs: seq<real>)
    ensures DefinedCells(Lift(xs)) == xs
    ensures DefinedCells([None] + Lift(xs)) == xs
    decreases |xs|
  {
    if |xs| > 0 {
      var init := xs[..|xs| - 1];
      assert Lift(xs)[..|xs| - 1] == Lift(init);
      assert ([None] + Lift(xs))[..|xs|] == [None] + Lift(init);
      DefinedCellsOfLifted(init);
      assert xs == init + [xs[|xs| - 1]];
    } else {
      assert [None] + Lift(xs) == [None];
      assert ([None] + Lift(xs))[..0] == [];
    }
  }

  /** The estimate is 252 times the mean simple return, and it is undefined
      exactly when the series has fewer than two prices. */
  lemma AverageInterestIsAnnualizedMeanReturn(close: seq<real>)
    requires Divisible(close)
    ensures AverageInterest(close).None? <==> |close| < 2
    ensures |close| >= 2 ==>
              AverageInterest(close) == Some(Mean(SimpleReturns(close)) * TRADING_DAYS)
  {
    ReturnsAreTheDefinedCells(close);
    var rs := SimpleReturns(close);
    assert MeanSkipNa(PctChange(close)) == if |rs| == 0 then None else Some(Mean(rs));
  }

  /** The cells `mean()` sees in `pct_change` are exactly the simple returns. */
  lemma ReturnsAreTheDefinedCells(close: seq<real>)
    requires Divisible(close)
    ensures DefinedCells(PctChange(close)) == SimpleReturns(close)
  {
    if |close| > 0 {
      DefinedCellsOfLifted(SimpleReturns(close));
    }
  }

  /** Constant prices earn nothing: the estimate is exactly 0. */
  lemma ConstantPricesGiveZero(close: seq<real>, c: real)
    requires c != 0.0 && |close| >= 2
    requires forall t :: 0 <= t < |close| ==> close[t] == c
    ensures AverageInterest(close) == Some(0.0)
  {
    ConstantPricesMeanReturn(close, c);
    AverageInterestIsAnnualizedMeanReturn(close);
    var m := Mean(SimpleReturns(close));
    assert AverageInterest(close) == Some(m * TRADING_DAYS);
    assert m * TRADING_DAYS == 0.0;
  }

  lemma ConstantPricesMeanReturn(close: seq<real>, c: real)
    requires c != 0.0 && |close| >= 2
    requires forall t :: 0 <= t < |close| ==> close[t] == c
    ensures Divisible(close) && Mean(SimpleReturns(close)) == 0.0
  {
    var r := SimpleReturns(close);
    forall t | 0 <= t < |r|
      ensures r[t] == 0.0
    {
      assert close[t + 1] == c && close[t] == c;
      DivSelf(c);
    }
    MeanBounds(r, 0.0, 0.0);
  }

  lemma DivSelf(c: real)
    requires c != 0.0
    ensures c / c == 1.0
  {
  }

  lemma RatioAtLeastOne(a: real, b: real)
    requires 0.0 < a <= b
    ensures b / a >= 1.0
  {
  }

  /** Prices that never fall give a non-negative estimate. */
  lemma NonDecreasingPricesGiveNonNegative(close: seq<real>)
    requires |close| >= 2
    requires forall t :: 0 <= t < |close| ==> close[t] > 0.0
    requires forall t :: 0 < t < |close| ==> close[t - 1] <= close[t]
    ensures AverageInterest(close).Some? && AverageInterest(close).value >= 0.0
  {
    var r := SimpleReturns(close);
    assert forall t :: 0 <= t < |r| ==> 0.0 <= r[t] by {
      forall t | 0 <= t < |r|
        ensures 0.0 <= r[t]
      {
        RatioAtLeastOne(close[t], close[t + 1]);
      }
    }
    MeanNonNegative(r);
    AverageInterestIsAnnualizedMeanReturn(close);
  }

  /** `calculate_average_interest(data)`: stores the return column in the
      caller's frame under "Return" and returns the annualized estimate. */
  method CalculateAverageInterest(data: Frame) returns (r: Option<real>)
    requires data.Valid() && Divisible(data.close)
    modifies data
    ensures data.Valid() && data.close == old(data.close)
    ensures data.columns == old(data.columns)[RETURN := PctChange(data.close)]
    ensures r == AverageInterest(data.close)
  {
    data.columns := data.columns[RETURN := PctChange(data.close)];
    r := AverageInterest(data.close);
  }

  /** The rate `dca_calculation` uses: the caller's `average_interest`, or the
      estimate when it is None. */
  function RateOrEstimate(averageInterest: Option<real>, close: seq<real>): (r: Option<real>)
    requires averageInterest.None? ==> Divisible(close)
    ensures averageInterest.Some? ==> r == averageInterest
    ensures averageInterest.None? ==> r == AverageInterest(close)
    ensures r.None? <==> averageInterest.None? && |close| < 2
  {
    if averageInterest.Some? then averageInterest
    else
      AverageInterestIsAnnualizedMeanReturn(close);
      AverageInterest(close)
  }
}

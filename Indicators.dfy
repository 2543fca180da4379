/** What the two versions of `calculate_indicators` compute alike: the price
    differences, the moving averages over 50 and 200 rows, the RSI formula
    applied to 14-row average gains and losses, the MACD line (12-span EMA
    minus 26-span EMA) and its 9-span signal line. */
module Indicators {
  import opened Wrappers
  import opened Series

  const SHORT_WINDOW: nat := 50
  const LONG_WINDOW: nat := 200
  const RSI_WINDOW: nat := 14
  const FAST_SPAN: nat := 12
  const SLOW_SPAN: nat := 26
  const SIGNAL_SPAN: nat := 9

  datatype Recommendation = Buy | Hold | Sell

  /** `Close.diff()`: the first cell is undefined. */
  function Diff(close: seq<real>): (d: Column)
    ensures |d| == |close|
    ensures |close| > 0 ==> d[0].None?
    ensures forall i :: 0 < i < |close| ==> d[i] == Some(close[i] - close[i - 1])
  {
    seq(|close|, i requires 0 <= i < |close| =>
      if i == 0 then None else Some(close[i] - close[i - 1]))
  }

  /** `Close.rolling(window=w).mean()`. */
  function Sma(close: seq<real>, w: nat): (c: Column)
    requires w > 0
    ensures |c| == |close|
  {
    RollingMean(Lift(close), w)
  }

  /** `100 - 100 / (1 + gain / loss)` as the floating-point code evaluates it:
      a zero loss makes the ratio infinite and the RSI 100, unless the gain is
      zero too, which makes it NaN. Both arguments are averages of values that
      are never negative. */
  function RsiValue(gain: real, loss: real): (r: Option<real>)
    requires gain >= 0.0 && loss >= 0.0
    ensures r.Some? <==> gain > 0.0 || loss > 0.0
    ensures loss > 0.0 ==> r == Some(100.0 * gain / (gain + loss))
    ensures loss == 0.0 && gain > 0.0 ==> r == Some(100.0)
    ensures r.Some? ==> 0.0 <= r.value <= 100.0
  {
    if loss > 0.0 then
      RsiFormula(gain, loss);
      Some(100.0 - 100.0 / (1.0 + gain / loss))
    else if gain > 0.0 then Some(100.0)
    else None
  }

  lemma RsiFormula(gain: real, loss: real)
    requires gain >= 0.0 && loss > 0.0
    ensures 1.0 + gain / loss > 0.0
    ensures 100.0 - 100.0 / (1.0 + gain / loss) == 100.0 * gain / (gain + loss)
    ensures 0.0 <= 100.0 * gain / (gain + loss) < 100.0
  {
    var s := gain + loss;
    var d := 1.0 + gain / loss;
    assert d * loss == s;
    var e := 100.0 / d;
    assert e * s == 100.0 * loss by {
      assert e * d == 100.0;
      assert e * s == e * d * loss;
    }
    var f := 100.0 * gain / s;
    assert f * s == 100.0 * gain;
    calc {
      (100.0 - e) * s;
      100.0 * s - e * s;
      100.0 * s - 100.0 * loss;
      100.0 * gain;
      f * s;
    }
    assert 100.0 * gain < 100.0 * s;
  }

  /** Cells of a column that are never negative where defined. */
  predicate NonNegative(c: Column)
  {
    forall i :: 0 <= i < |c| && c[i].Some? ==> c[i].value >= 0.0
  }

  /** The RSI column from the average-gain and average-loss columns: defined
      where both averages are and one of them is positive, and always within
      [0, 100]. */
  function RsiColumn(avgGain: Column, avgLoss: Column): (c: Column)
    requires |avgGain| == |avgLoss|
    requires NonNegative(avgGain) && NonNegative(avgLoss)
    ensures |c| == |avgGain|
    ensures forall i :: 0 <= i < |c| && c[i].Some? ==> 0.0 <= c[i].value <= 100.0
  {
    seq(|avgGain|, i requires 0 <= i < |avgGain| =>
      if avgGain[i].Some? && avgLoss[i].Some? then RsiValue(avgGain[i].value, avgLoss[i].value)
      else None)
  }

  /** `EMA_12 - EMA_26`, defined from the first row. */
  function Macd(close: seq<real>): (m: seq<real>)
    ensures |m| == |close|
  {
    seq(|close|, t requires 0 <= t < |close| =>
      EmaAt(close, FAST_SPAN, t) - EmaAt(close, SLOW_SPAN, t))
  }

  /** `MACD.ewm(span=9, adjust=False).mean()`. */
  function SignalLine(close: seq<real>): (s: seq<real>)
    ensures |s| == |close|
  {
    Ema(Macd(close), SIGNAL_SPAN)
  }

  /** Both averages are seeded with the first price, so the MACD line and its
      signal line both start at 0. */
  lemma MacdStartsAtZero(close: seq<real>)
    requires |close| > 0
    ensures Macd(close)[0] == 0.0 && SignalLine(close)[0] == 0.0
  {
  }

  /** Constant prices give a MACD line and a signal line that are 0
      throughout. */
  lemma ConstantPricesFlatMacd(close: seq<real>, c: real, t: nat)
    requires t < |close|
    requires forall k :: 0 <= k < |close| ==> close[k] == c
    ensures Macd(close)[t] == 0.0 && SignalLine(close)[t] == 0.0
  {
    forall k | 0 <= k <= t
      ensures Macd(close)[k] == 0.0
    {
      EmaOfConstant(close, FAST_SPAN, k, c);
      EmaOfConstant(close, SLOW_SPAN, k, c);
    }
    EmaOfConstant(Macd(close), SIGNAL_SPAN, t, 0.0);
  }

  /** While the prices stay within [lo, hi], the MACD line stays within
      [-(hi - lo), hi - lo]. */
  lemma MacdBoundedByPriceRange(close: seq<real>, t: nat, lo: real, hi: real)
    requires t < |close|
    requires forall k :: 0 <= k <= t ==> lo <= close[k] <= hi
    ensures lo - hi <= Macd(close)[t] <= hi - lo
  {
    EmaWithinRange(close, FAST_SPAN, t, lo, hi);
    EmaWithinRange(close, SLOW_SPAN, t, lo, hi);
  }
}

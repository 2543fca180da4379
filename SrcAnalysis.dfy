/** `src/stock_analysis.py`: indicators are computed on a copy of the frame,
    and the recommendation is read from the last row on which every indicator
    is defined. */
module SrcAnalysis {
  import opened Wrappers
  import opened Series
  import opened Frames
  import opened Indicators

  /** `delta.where(delta > 0, 0)`: the undefined first difference fails the
      test and becomes 0, so every cell is defined. */
  function Gains(close: seq<real>): (g: seq<real>)
    ensures |g| == |close|
    ensures forall i :: 0 <= i < |g| ==> g[i] >= 0.0
  {
    seq(|close|, i requires 0 <= i < |close| =>
      if i > 0 && close[i] - close[i - 1] > 0.0 then close[i] - close[i - 1] else 0.0)
  }

  /** `-delta.where(delta < 0, 0)`. */
  function Losses(close: seq<real>): (l: seq<real>)
    ensures |l| == |close|
    ensures forall i :: 0 <= i < |l| ==> l[i] >= 0.0
  {
    seq(|close|, i requires 0 <= i < |close| =>
      if i > 0 && close[i] - close[i - 1] < 0.0 then close[i - 1] - close[i] else 0.0)
  }

  /** Unlike `clip`, `where` turns the undefined first difference into 0: row
      0 of both columns is 0, and every later row is the positive part of the
      price change (gains) or of its negation (losses). */
  lemma GainsLossesCells(close: seq<real>)
    ensures |close| > 0 ==> Gains(close)[0] == 0.0 && Losses(close)[0] == 0.0
    ensures forall i :: 0 < i < |close| ==>
              Gains(close)[i] == if close[i] - close[i - 1] > 0.0 then close[i] - close[i - 1] else 0.0
    ensures forall i :: 0 < i < |close| ==>
              Losses(close)[i] == if close[i] - close[i - 1] < 0.0 then close[i - 1] - close[i] else 0.0
  {
  }

  /** The `RSI` column. */
  function Rsi(close: seq<real>): (c: Column)
    ensures |c| == |close|
    ensures forall i :: 0 <= i < |c| && c[i].Some? ==> 0.0 <= c[i].value <= 100.0
  {
    var avgGain := RollingMean(Lift(Gains(close)), RSI_WINDOW);
    var avgLoss := RollingMean(Lift(Losses(close)), RSI_WINDOW);
    RollingMeanKeepsSign(Lift(Gains(close)), RSI_WINDOW);
    RollingMeanKeepsSign(Lift(Losses(close)), RSI_WINDOW);
    RsiColumn(avgGain, avgLoss)
  }

  /** `calculate_indicators`: the caller's frame is a value and stays as it
      was; the result is the copy with the seven indicator columns set and
      every other column kept. */
  function CalculateIndicators(t: Table): (r: Table)
    requires t.Aligned()
    ensures r.Aligned() && r.close == t.close
    ensures r.columns.Keys == t.columns.Keys + {SMA_50, SMA_200, RSI, EMA_12, EMA_26, MACD, SIGNAL_LINE}
    ensures forall name :: name in t.columns && name !in {SMA_50, SMA_200, RSI, EMA_12, EMA_26, MACD, SIGNAL_LINE} ==>
              r.columns[name] == t.columns[name]
    ensures r.columns[SMA_50] == Sma(t.close, SHORT_WINDOW)
    ensures r.columns[SMA_200] == Sma(t.close, LONG_WINDOW)
    ensures r.columns[RSI] == Rsi(t.close)
    ensures r.columns[EMA_12] == Lift(Ema(t.close, FAST_SPAN))
    ensures r.columns[EMA_26] == Lift(Ema(t.close, SLOW_SPAN))
    ensures r.columns[MACD] == Lift(Macd(t.close))
    ensures r.columns[SIGNAL_LINE] == Lift(SignalLine(t.close))
  {
    Table(t.close, t.columns[SMA_50 := Sma(t.close, SHORT_WINDOW)]
                            [SMA_200 := Sma(t.close, LONG_WINDOW)]
                            [RSI := Rsi(t.close)]
                            [EMA_12 := Lift(Ema(t.close, FAST_SPAN))]
                            [EMA_26 := Lift(Ema(t.close, SLOW_SPAN))]
                            [MACD := Lift(Macd(t.close))]
                            [SIGNAL_LINE := Lift(SignalLine(t.close))])
  }

  /** The RSI is undefined on the first 13 rows, and afterwards defined
      exactly when the price moved at least once within the 14-row window. */
  lemma RsiDefinedWhenPriceMoves(close: seq<real>, i: nat)
    requires i < |close|
    ensures Rsi(close)[i].Some? <==>
              i + 1 >= RSI_WINDOW &&
              exists k :: i + 1 - RSI_WINDOW <= k <= i && k > 0 && close[k] != close[k - 1]
  {
    RollingMeanOfPrices(Gains(close), RSI_WINDOW, i);
    if i + 1 >= RSI_WINDOW {
      var lo := i + 1 - RSI_WINDOW;
      RsiFromWindowMeans(close, i);
      MeanPositive(Gains(close)[lo .. i + 1]);
      MeanPositive(Losses(close)[lo .. i + 1]);
      WindowMoves(close, lo, i + 1);
    }
  }

  /** Once the window is full, the RSI is defined exactly when the mean gain
      or the mean loss over the window is positive. */
  lemma RsiFromWindowMeans(close: seq<real>, i: nat)
    requires RSI_WINDOW <= i + 1 <= |close|
    ensures Rsi(close)[i].Some? <==>
              Mean(Gains(close)[i + 1 - RSI_WINDOW .. i + 1]) > 0.0 ||
              Mean(Losses(close)[i + 1 - RSI_WINDOW .. i + 1]) > 0.0
  {
    RollingMeanOfPrices(Gains(close), RSI_WINDOW, i);
    RollingMeanOfPrices(Losses(close), RSI_WINDOW, i);
    MeanNonNegative(Gains(close)[i + 1 - RSI_WINDOW .. i + 1]);
    MeanNonNegative(Losses(close)[i + 1 - RSI_WINDOW .. i + 1]);
  }

  /** Some gain or loss in rows lo..hi-1 is positive exactly when the price
      moved on one of those rows. */
  lemma WindowMoves(close: seq<real>, lo: nat, hi: nat)
    requires lo <= hi <= |close|
    ensures ((exists j :: 0 <= j < hi - lo && Gains(close)[lo .. hi][j] > 0.0) ||
             (exists j :: 0 <= j < hi - lo && Losses(close)[lo .. hi][j] > 0.0)) <==>
            exists k :: lo <= k < hi && k > 0 && close[k] != close[k - 1]
  {
    var g := Gains(close)[lo .. hi];
    var l := Losses(close)[lo .. hi];
    if exists k :: lo <= k < hi && k > 0 && close[k] != close[k - 1] {
      var k :| lo <= k < hi && k > 0 && close[k] != close[k - 1];
      assert g[k - lo] == Gains(close)[k] && l[k - lo] == Losses(close)[k];
      assert g[k - lo] > 0.0 || l[k - lo] > 0.0;
    }
    if exists j :: 0 <= j < hi - lo && g[j] > 0.0 {
      var j :| 0 <= j < hi - lo && g[j] > 0.0;
      assert Gains(close)[lo + j] > 0.0;
      assert lo + j > 0 && close[lo + j] != close[lo + j - 1];
    }
    if exists j :: 0 <= j < hi - lo && l[j] > 0.0 {
      var j :| 0 <= j < hi - lo && l[j] > 0.0;
      assert Losses(close)[lo + j] > 0.0;
      assert lo + j > 0 && close[lo + j] != close[lo + j - 1];
    }
  }

  /** Prices that rise on every row give an RSI of 100 once it is defined. */
  lemma RisingPricesGiveFullRsi(close: seq<real>, i: nat)
    requires RSI_WINDOW <= i + 1 <= |close|
    requires forall k :: 0 < k < |close| ==> close[k - 1] < close[k]
    ensures Rsi(close)[i] == Some(100.0)
  {
    var lo := i + 1 - RSI_WINDOW;
    RollingMeanOfPrices(Gains(close), RSI_WINDOW, i);
    RollingMeanOfPrices(Losses(close), RSI_WINDOW, i);
    var g := Gains(close)[lo .. i + 1];
    var l := Losses(close)[lo .. i + 1];
    MeanPositive(g);
    assert g[RSI_WINDOW - 1] > 0.0;
    MeanBounds(l, 0.0, 0.0);
  }

  /** Prices that fall on every row give an RSI of 0 once it is defined. */
  lemma FallingPricesGiveZeroRsi(close: seq<real>, i: nat)
    requires RSI_WINDOW <= i + 1 <= |close|
    requires forall k :: 0 < k < |close| ==> close[k - 1] > close[k]
    ensures Rsi(close)[i] == Some(0.0)
  {
    var lo := i + 1 - RSI_WINDOW;
    RollingMeanOfPrices(Gains(close), RSI_WINDOW, i);
    RollingMeanOfPrices(Losses(close), RSI_WINDOW, i);
    var g := Gains(close)[lo .. i + 1];
    var l := Losses(close)[lo .. i + 1];
    MeanPositive(l);
    assert l[RSI_WINDOW - 1] > 0.0;
    MeanBounds(g, 0.0, 0.0);
  }

  /** The row `get_latest_recommendation` reads. */
  datatype Row = Row(index: nat, close: real, sma50: real, sma200: real, rsi: real, macd: real, signalLine: real)

  datatype AnalysisError = KeyError | IndexError

  /** The columns `dropna(subset=...)` looks up. */
  predicate HasIndicators(t: Table)
  {
    SMA_50 in t.columns && SMA_200 in t.columns && RSI in t.columns &&
    MACD in t.columns && SIGNAL_LINE in t.columns
  }

  /** A row `dropna` keeps. */
  predicate Complete(t: Table, i: nat)
    requires t.Aligned() && HasIndicators(t) && i < |t.close|
  {
    t.columns[SMA_50][i].Some? && t.columns[SMA_200][i].Some? && t.columns[RSI][i].Some? &&
    t.columns[MACD][i].Some? && t.columns[SIGNAL_LINE][i].Some?
  }

  /** The last complete row among the first n. */
  function LastComplete(t: Table, n: nat): (r: Option<nat>)
    requires t.Aligned() && HasIndicators(t) && n <= |t.close|
    ensures r.Some? ==> r.value < n && Complete(t, r.value) &&
                        forall j :: r.value < j < n ==> !Complete(t, j)
    ensures r.None? ==> forall j :: 0 <= j < n ==> !Complete(t, j)
  {
    if n == 0 then None
    else if Complete(t, n - 1) then Some(n - 1)
    else LastComplete(t, n - 1)
  }

  predicate BuyRule(row: Row)
  {
    row.close > row.sma50 > row.sma200 && row.rsi < 70.0 && row.macd > row.signalLine
  }

  predicate SellRule(row: Row)
  {
    (row.close < row.sma50 < row.sma200) || row.rsi > 70.0 || row.macd < row.signalLine
  }

  /** The rule: Buy on an up-trend that is not overbought and has positive
      momentum, Sell on any of a down-trend, overbought or negative momentum,
      Hold otherwise. The two rules never both hold, so Sell is exactly its
      own rule. */
  function Recommend(row: Row): (r: Recommendation)
    ensures r == Buy <==> BuyRule(row)
    ensures r == Sell <==> SellRule(row)
    ensures r == Hold <==> !BuyRule(row) && !SellRule(row)
  {
    if BuyRule(row) then Buy
    else if SellRule(row) then Sell
    else Hold
  }

  /** `get_latest_recommendation`: a missing indicator column is a KeyError,
      a frame without a complete row an IndexError; otherwise the last
      complete row and the rule's verdict on it. */
  function GetLatestRecommendation(t: Table): (r: Result<(Row, Recommendation), AnalysisError>)
    requires t.Aligned()
    ensures r == Failure(KeyError) <==> !HasIndicators(t)
    ensures r == Failure(IndexError) <==>
              HasIndicators(t) && forall j :: 0 <= j < |t.close| ==> !Complete(t, j)
    ensures r.Success? ==>
              var (row, rec) := r.value;
              row.index < |t.close| && Complete(t, row.index) &&
              (forall j :: row.index < j < |t.close| ==> !Complete(t, j)) &&
              row.close == t.close[row.index] &&
              Some(row.sma50) == t.columns[SMA_50][row.index] &&
              Some(row.sma200) == t.columns[SMA_200][row.index] &&
              Some(row.rsi) == t.columns[RSI][row.index] &&
              Some(row.macd) == t.columns[MACD][row.index] &&
              Some(row.signalLine) == t.columns[SIGNAL_LINE][row.index] &&
              rec == Recommend(row)
  {
    if !HasIndicators(t) then Failure(KeyError)
    else match LastComplete(t, |t.close|)
      case None => Failure(IndexError)
      case Some(i) =>
        var row := Row(i, t.close[i], t.columns[SMA_50][i].value, t.columns[SMA_200][i].value,
                       t.columns[RSI][i].value, t.columns[MACD][i].value, t.columns[SIGNAL_LINE][i].value);
        Success((row, Recommend(row)))
  }

  /** Fewer than 200 prices leave the 200-row average undefined everywhere,
      so no row survives `dropna`. */
  lemma ShortHistoryHasNoRecommendation(t: Table)
    requires t.Aligned() && |t.close| < LONG_WINDOW
    ensures GetLatestRecommendation(CalculateIndicators(t)) == Failure(IndexError)
  {
    var r := CalculateIndicators(t);
    forall j | 0 <= j < |t.close|
      ensures !Complete(r, j)
    {
      RollingMeanOfPrices(t.close, LONG_WINDOW, j);
    }
  }

  /** Constant prices never move, so the RSI is never defined and no row
      survives `dropna`. */
  lemma ConstantPricesHaveNoRecommendation(t: Table, c: real)
    requires t.Aligned()
    requires forall k :: 0 <= k < |t.close| ==> t.close[k] == c
    ensures GetLatestRecommendation(CalculateIndicators(t)) == Failure(IndexError)
  {
    var r := CalculateIndicators(t);
    forall j | 0 <= j < |t.close|
      ensures !Complete(r, j)
    {
      RsiDefinedWhenPriceMoves(t.close, j);
    }
  }

  /** A complete last row is the one the recommendation is read from. */
  lemma CompleteLastRowIsLatest(t: Table)
    requires t.Aligned() && HasIndicators(t) && |t.close| > 0 && Complete(t, |t.close| - 1)
    ensures GetLatestRecommendation(t).Success?
    ensures GetLatestRecommendation(t).value.0.index == |t.close| - 1
  {
  }

  /** With at least 200 prices and a price move among the last 14, the last
      row is complete and the recommendation is read from it. */
  lemma LongHistoryUsesLastRow(t: Table, k: nat)
    requires t.Aligned() && |t.close| >= LONG_WINDOW
    requires |t.close| - RSI_WINDOW <= k < |t.close| && k > 0 && t.close[k] != t.close[k - 1]
    ensures GetLatestRecommendation(CalculateIndicators(t)).Success?
    ensures GetLatestRecommendation(CalculateIndicators(t)).value.0.index == |t.close| - 1
  {
    var r := CalculateIndicators(t);
    var n := |t.close|;
    assert Sma(t.close, SHORT_WINDOW)[n - 1].Some? by {
      RollingMeanOfPrices(t.close, SHORT_WINDOW, n - 1);
    }
    assert Sma(t.close, LONG_WINDOW)[n - 1].Some? by {
      RollingMeanOfPrices(t.close, LONG_WINDOW, n - 1);
    }
    assert Rsi(t.close)[n - 1].Some? by {
      RsiDefinedWhenPriceMoves(t.close, n - 1);
    }
    assert Complete(r, n - 1);
    CompleteLastRowIsLatest(r);
  }
}

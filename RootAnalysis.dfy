/** `stock_analysis.py`: indicators are written into the caller's frame, and
    the recommendation is read from the last row whatever it holds; a
    comparison with an undefined cell is false, as it is on NaN. */
module RootAnalysis {
  import opened Wrappers
  import opened Series
  import opened Frames
  import opened Indicators
  import SrcAnalysis

  /** `delta.clip(lower=0)`: the undefined first difference stays undefined. */
  function Ups(close: seq<real>): (c: Column)
    ensures |c| == |close| && NonNegative(c)
    ensures |close| > 0 ==> c[0].None?
    ensures forall i :: 0 < i < |close| ==>
              c[i] == Some(if close[i] - close[i - 1] > 0.0 then close[i] - close[i - 1] else 0.0)
  {
    var delta := Diff(close);
    seq(|delta|, i requires 0 <= i < |delta| =>
      match delta[i]
      case None => None
      case Some(d) => Some(if d > 0.0 then d else 0.0))
  }

  /** `-1 * delta.clip(upper=0)`. */
  function Downs(close: seq<real>): (c: Column)
    ensures |c| == |close| && NonNegative(c)
    ensures |close| > 0 ==> c[0].None?
    ensures forall i :: 0 < i < |close| ==>
              c[i] == Some(if close[i] - close[i - 1] < 0.0 then close[i - 1] - close[i] else 0.0)
  {
    var delta := Diff(close);
    seq(|delta|, i requires 0 <= i < |delta| =>
      match delta[i]
      case None => None
      case Some(d) => Some(if d < 0.0 then -d else 0.0))
  }

  /** The `RSI` column. */
  function Rsi(close: seq<real>): (c: Column)
    ensures |c| == |close|
    ensures forall i :: 0 <= i < |c| && c[i].Some? ==> 0.0 <= c[i].value <= 100.0
  {
    RollingMeanKeepsSign(Ups(close), RSI_WINDOW);
    RollingMeanKeepsSign(Downs(close), RSI_WINDOW);
    RsiColumn(RollingMean(Ups(close), RSI_WINDOW), RollingMean(Downs(close), RSI_WINDOW))
  }

  /** The frame `calculate_indicators` leaves behind: five indicator columns
      set, every other column kept. */
  function WithIndicators(t: Table): (r: Table)
    requires t.Aligned()
    ensures r.Aligned() && r.close == t.close
    ensures r.columns.Keys == t.columns.Keys + {SMA_50, SMA_200, RSI, MACD, SIGNAL_LINE}
    ensures forall name :: name in t.columns && name !in {SMA_50, SMA_200, RSI, MACD, SIGNAL_LINE} ==>
              r.columns[name] == t.columns[name]
    ensures r.columns[SMA_50] == Sma(t.close, SHORT_WINDOW)
    ensures r.columns[SMA_200] == Sma(t.close, LONG_WINDOW)
    ensures r.columns[RSI] == Rsi(t.close)
    ensures r.columns[MACD] == Lift(Macd(t.close))
    ensures r.columns[SIGNAL_LINE] == Lift(SignalLine(t.close))
  {
    Table(t.close, t.columns[SMA_50 := Sma(t.close, SHORT_WINDOW)]
                            [SMA_200 := Sma(t.close, LONG_WINDOW)]
                            [RSI := Rsi(t.close)]
                            [MACD := Lift(Macd(t.close))]
                            [SIGNAL_LINE := Lift(SignalLine(t.close))])
  }

  /** `calculate_indicators`: updates the caller's frame column by column and
      returns that same frame. */
  method CalculateIndicators(data: Frame) returns (r: Frame)
    requires data.Valid()
    modifies data
    ensures r == data && data.Valid()
    ensures data.Snapshot() == WithIndicators(old(data.Snapshot()))
  {
    data.columns := data.columns[SMA_50 := Sma(data.close, SHORT_WINDOW)];
    data.columns := data.columns[SMA_200 := Sma(data.close, LONG_WINDOW)];
    data.columns := data.columns[RSI := Rsi(data.close)];
    data.columns := data.columns[MACD := Lift(Macd(data.close))];
    data.columns := data.columns[SIGNAL_LINE := Lift(SignalLine(data.close))];
    r := data;
  }

  /** The first difference is undefined here, so the RSI appears one row later
      than in `src/stock_analysis.py` and agrees with it from then on. */
  lemma RsiOneRowLater(close: seq<real>, i: nat)
    requires i < |close|
    ensures Rsi(close)[i] == if i < RSI_WINDOW then None else SrcAnalysis.Rsi(close)[i]
  {
    if i >= RSI_WINDOW {
      var lo := i + 1 - RSI_WINDOW;
      assert Ups(close)[lo .. i + 1] == Lift(SrcAnalysis.Gains(close))[lo .. i + 1];
      assert Downs(close)[lo .. i + 1] == Lift(SrcAnalysis.Losses(close))[lo .. i + 1];
    } else if i + 1 >= RSI_WINDOW {
      assert !Defined(Ups(close)[0 .. i + 1]) by {
        assert Ups(close)[0 .. i + 1][0] == None;
      }
    }
  }

  /** `data.iloc[-1]`, with the indicator cells that may be NaN. */
  datatype LastRow = LastRow(index: nat, close: real, sma50: Option<real>, sma200: Option<real>,
                             rsi: Option<real>, macd: Option<real>, signalLine: Option<real>)

  datatype AnalysisError = IndexError

  /** `a > b` on cells that may be NaN: false unless both are defined. */
  predicate Above(a: Option<real>, b: Option<real>)
  {
    a.Some? && b.Some? && a.value > b.value
  }

  predicate BuyRule(row: LastRow)
  {
    Above(row.sma50, row.sma200) && Above(Some(70.0), row.rsi) && Above(row.macd, row.signalLine)
  }

  predicate SellRule(row: LastRow)
  {
    Above(row.sma200, row.sma50) && Above(row.rsi, Some(30.0)) && Above(row.signalLine, row.macd)
  }

  /** The rule: Buy on a golden cross that is not overbought with positive
      momentum, Sell on a death cross that is not oversold with negative
      momentum, Hold otherwise, in particular on any undefined cell the rule
      needs. The two rules never both hold. */
  function Recommend(row: LastRow): (r: Recommendation)
    ensures r == Buy <==> BuyRule(row)
    ensures r == Sell <==> SellRule(row)
    ensures r == Hold <==> !BuyRule(row) && !SellRule(row)
    ensures row.sma50.None? || row.sma200.None? ==> r == Hold
  {
    if BuyRule(row) then Buy
    else if SellRule(row) then Sell
    else Hold
  }

  /** The columns the rule reads. */
  predicate HasIndicators(t: Table)
  {
    SMA_50 in t.columns && SMA_200 in t.columns && RSI in t.columns &&
    MACD in t.columns && SIGNAL_LINE in t.columns
  }

  /** `get_latest_recommendation`: an empty frame is an IndexError; otherwise
      the last row, defined or not, and the rule's verdict on it. */
  function GetLatestRecommendation(t: Table): (r: Result<(LastRow, Recommendation), AnalysisError>)
    requires t.Aligned() && HasIndicators(t)
    ensures r.Failure? <==> |t.close| == 0
    ensures r.Success? ==>
              var (row, rec) := r.value;
              var i := |t.close| - 1;
              row == LastRow(i, t.close[i], t.columns[SMA_50][i], t.columns[SMA_200][i],
                             t.columns[RSI][i], t.columns[MACD][i], t.columns[SIGNAL_LINE][i]) &&
              rec == Recommend(row)
  {
    if |t.close| == 0 then Failure(IndexError)
    else
      var i := |t.close| - 1;
      var row := LastRow(i, t.close[i], t.columns[SMA_50][i], t.columns[SMA_200][i],
                         t.columns[RSI][i], t.columns[MACD][i], t.columns[SIGNAL_LINE][i]);
      Success((row, Recommend(row)))
  }

  /** Fewer than 200 prices leave the 200-row average undefined on the last
      row, so the verdict is Hold whatever the other indicators say. */
  lemma ShortHistoryHolds(t: Table)
    requires t.Aligned() && 0 < |t.close| < LONG_WINDOW
    ensures GetLatestRecommendation(WithIndicators(t)).Success?
    ensures GetLatestRecommendation(WithIndicators(t)).value.1 == Hold
  {
    RollingMeanOfPrices(t.close, LONG_WINDOW, |t.close| - 1);
  }

  /** Constant prices leave the MACD line on its signal line, so neither
      rule fires. */
  lemma ConstantPricesHold(t: Table, c: real)
    requires t.Aligned() && |t.close| > 0
    requires forall k :: 0 <= k < |t.close| ==> t.close[k] == c
    ensures GetLatestRecommendation(WithIndicators(t)).Success?
    ensures GetLatestRecommendation(WithIndicators(t)).value.1 == Hold
  {
    ConstantPricesFlatMacd(t.close, c, |t.close| - 1);
  }
}

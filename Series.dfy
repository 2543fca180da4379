/** The pandas column operations the core relies on, by their mathematical
    definitions over `real`: sums and means, `rolling(window).mean()` over a
    column whose cells may be undefined, and `ewm(span, adjust=False).mean()`. */
module Series {
  import opened Wrappers

  /** A column of a frame; `None` is a NaN cell. */
  type Column = seq<Option<real>>

  function Sum(s: seq<real>): real
  {
    if |s| == 0 then 0.0 else Sum(s[..|s| - 1]) + s[|s| - 1]
  }

  function Mean(s: seq<real>): real
    requires |s| > 0
  {
    Sum(s) / (|s| as real)
  }

  lemma {:induction false} SumConcat(a: seq<real>, b: seq<real>)
    ensures Sum(a + b) == Sum(a) + Sum(b)
    decreases |b|
  {
    if |b| == 0 {
      assert a + b == a;
    } else {
      assert (a + b)[..|a + b| - 1] == a + b[..|b| - 1];
      SumConcat(a, b[..|b| - 1]);
    }
  }

  /** A sum of values in [lo, hi] lies between |s|*lo and |s|*hi. */
  lemma {:induction false} SumBounds(s: seq<real>, lo: real, hi: real)
    requires forall i :: 0 <= i < |s| ==> lo <= s[i] <= hi
    ensures lo * (|s| as real) <= Sum(s) <= hi * (|s| as real)
    decreases |s|
  {
    if |s| > 0 {
      SumBounds(s[..|s| - 1], lo, hi);
    }
  }

  /** A sum of non-negative values is positive exactly when one of them is. */
  lemma {:induction false} SumPositive(s: seq<real>)
    requires forall i :: 0 <= i < |s| ==> s[i] >= 0.0
    ensures Sum(s) >= 0.0
    ensures Sum(s) > 0.0 <==> exists i :: 0 <= i < |s| && s[i] > 0.0
    decreases |s|
  {
    if |s| > 0 {
      var init := s[..|s| - 1];
      SumPositive(init);
      if exists i :: 0 <= i < |init| && init[i] > 0.0 {
        var i :| 0 <= i < |init| && init[i] > 0.0;
        assert s[i] > 0.0;
      }
    }
  }

  /** The mean of values in [lo, hi] lies in [lo, hi]. */
  lemma MeanBounds(s: seq<real>, lo: real, hi: real)
    requires |s| > 0
    requires forall i :: 0 <= i < |s| ==> lo <= s[i] <= hi
    ensures lo <= Mean(s) <= hi
  {
    SumBounds(s, lo, hi);
    var n := |s| as real;
    assert lo * n <= Sum(s) <= hi * n;
    assert Mean(s) * n == Sum(s);
  }

  lemma MeanNonNegative(s: seq<real>)
    requires |s| > 0
    requires forall i :: 0 <= i < |s| ==> s[i] >= 0.0
    ensures Mean(s) >= 0.0
  {
    SumPositive(s);
  }

  /** The mean of non-negative values is positive exactly when one of them is. */
  lemma MeanPositive(s: seq<real>)
    requires |s| > 0
    requires forall i :: 0 <= i < |s| ==> s[i] >= 0.0
    ensures Mean(s) >= 0.0
    ensures Mean(s) > 0.0 <==> exists i :: 0 <= i < |s| && s[i] > 0.0
  {
    SumPositive(s);
  }

  /** A column with every cell defined. */
  function Lift(xs: seq<real>): (c: Column)
    ensures |c| == |xs|
  {
    seq(|xs|, i requires 0 <= i < |xs| => Some(xs[i]))
  }

  predicate Defined(c: Column)
  {
    forall i :: 0 <= i < |c| ==> c[i].Some?
  }

  function Values(c: Column): (xs: seq<real>)
    requires Defined(c)
    ensures |xs| == |c|
  {
    seq(|c|, i requires 0 <= i < |c| => c[i].value)
  }

  /** `rolling(window=w).mean()`: the mean of the w cells ending at i, undefined
      while fewer than w cells exist or when one of them is undefined. */
  function RollingMean(c: Column, w: nat): (r: Column)
    requires w > 0
    ensures |r| == |c|
  {
    seq(|c|, i requires 0 <= i < |c| =>
      if i + 1 >= w && Defined(c[i + 1 - w .. i + 1])
      then Some(Mean(Values(c[i + 1 - w .. i + 1])))
      else None)
  }

  /** The rolling mean of a price series: undefined before index w-1, and from
      there on the mean of the trailing w prices. */
  lemma RollingMeanOfPrices(xs: seq<real>, w: nat, i: nat)
    requires w > 0 && i < |xs|
    ensures RollingMean(Lift(xs), w)[i] ==
              if i + 1 < w then None else Some(Mean(xs[i + 1 - w .. i + 1]))
  {
    if i + 1 >= w {
      assert Values(Lift(xs)[i + 1 - w .. i + 1]) == xs[i + 1 - w .. i + 1];
    }
  }

  /** The rolling mean of a column without negative cells is never negative. */
  lemma RollingMeanNonNegative(c: Column, w: nat, i: nat)
    requires w > 0 && i < |c|
    requires forall k :: 0 <= k < |c| && c[k].Some? ==> c[k].value >= 0.0
    ensures RollingMean(c, w)[i].Some? ==> RollingMean(c, w)[i].value >= 0.0
  {
    if i + 1 >= w && Defined(c[i + 1 - w .. i + 1]) {
      var cs := c[i + 1 - w .. i + 1];
      var win := Values(cs);
      forall k | 0 <= k < |win|
        ensures win[k] >= 0.0
      {
        assert cs[k] == c[i + 1 - w + k];
      }
      MeanNonNegative(win);
    }
  }

  /** RollingMeanNonNegative at every row. */
  lemma RollingMeanKeepsSign(c: Column, w: nat)
    requires w > 0
    requires forall k :: 0 <= k < |c| && c[k].Some? ==> c[k].value >= 0.0
    ensures forall i :: 0 <= i < |c| && RollingMean(c, w)[i].Some? ==> RollingMean(c, w)[i].value >= 0.0
  {
    forall i | 0 <= i < |c|
      ensures RollingMean(c, w)[i].Some? ==> RollingMean(c, w)[i].value >= 0.0
    {
      RollingMeanNonNegative(c, w, i);
    }
  }

  /** The rolling mean lies within the smallest and largest price of its window. */
  lemma RollingMeanWithinWindow(xs: seq<real>, w: nat, i: nat, lo: real, hi: real)
    requires w > 0 && w <= i + 1 && i < |xs|
    requires forall k :: i + 1 - w <= k <= i ==> lo <= xs[k] <= hi
    ensures RollingMean(Lift(xs), w)[i].Some?
    ensures lo <= RollingMean(Lift(xs), w)[i].value <= hi
  {
    RollingMeanOfPrices(xs, w, i);
    var win := xs[i + 1 - w .. i + 1];
    assert forall k :: 0 <= k < |win| ==> win[k] == xs[i + 1 - w + k];
    MeanBounds(win, lo, hi);
  }

  /** Sliding a window by one row adds the entering value and drops the
      leaving one. */
  lemma SumSlides(xs: seq<real>, w: nat, i: nat)
    requires w > 0 && w <= i < |xs|
    ensures Sum(xs[i + 1 - w .. i + 1]) == Sum(xs[i - w .. i]) + xs[i] - xs[i - w]
  {
    var mid := xs[i + 1 - w .. i];
    assert xs[i - w .. i] == [xs[i - w]] + mid;
    assert xs[i + 1 - w .. i + 1] == mid + [xs[i]];
    SumConcat([xs[i - w]], mid);
    SumConcat(mid, [xs[i]]);
    assert [xs[i - w]][..0] == [] && [xs[i]][..0] == [];
  }

  /** Sliding the window by one row adds the entering price and drops the
      leaving one, each weighted 1/w. */
  lemma RollingMeanSlides(xs: seq<real>, w: nat, i: nat)
    requires w > 0 && w <= i < |xs|
    ensures RollingMean(Lift(xs), w)[i].Some? && RollingMean(Lift(xs), w)[i - 1].Some?
    ensures RollingMean(Lift(xs), w)[i].value ==
              RollingMean(Lift(xs), w)[i - 1].value + (xs[i] - xs[i - w]) / (w as real)
  {
    RollingMeanOfPrices(xs, w, i);
    RollingMeanOfPrices(xs, w, i - 1);
    assert i - 1 + 1 - w == i - w;
    SumSlides(xs, w, i);
    DivisionSplits(Sum(xs[i - w .. i]), xs[i] - xs[i - w], w as real);
  }

  lemma DivisionSplits(a: real, b: real, n: real)
    requires n > 0.0
    ensures (a + b) / n == a / n + b / n
  {
  }

  /** The smoothing factor of an exponential moving average of span s. */
  function Alpha(span: nat): real
  {
    2.0 / (span as real + 1.0)
  }

  /** `ewm(span, adjust=False).mean()` at row t: seeded with the first value,
      then e[t] = alpha*x[t] + (1-alpha)*e[t-1]. */
  function EmaAt(xs: seq<real>, span: nat, t: nat): real
    requires t < |xs|
    decreases t
  {
    if t == 0 then xs[0]
    else Alpha(span) * xs[t] + (1.0 - Alpha(span)) * EmaAt(xs, span, t - 1)
  }

  function Ema(xs: seq<real>, span: nat): (e: seq<real>)
    ensures |e| == |xs|
  {
    seq(|xs|, t requires 0 <= t < |xs| => EmaAt(xs, span, t))
  }

  lemma ProductNonNegative(a: real, b: real)
    requires a >= 0.0 && b >= 0.0
    ensures a * b >= 0.0
  {
  }

  /** A weighted average of two values within [lo, hi] stays within it. */
  lemma BlendWithinRange(a: real, x: real, e: real, lo: real, hi: real)
    requires 0.0 < a <= 1.0 && lo <= x <= hi && lo <= e <= hi
    ensures lo <= a * x + (1.0 - a) * e <= hi
  {
    ProductNonNegative(a, x - lo);
    ProductNonNegative(1.0 - a, e - lo);
    ProductNonNegative(a, hi - x);
    ProductNonNegative(1.0 - a, hi - e);
  }

  lemma AlphaIsWeight(span: nat)
    requires span >= 1
    ensures 0.0 < Alpha(span) <= 1.0
  {
  }

  /** An exponential moving average never leaves the range of the values seen
      so far. */
  lemma {:induction false} EmaWithinRange(xs: seq<real>, span: nat, t: nat, lo: real, hi: real)
    requires span >= 1 && t < |xs|
    requires forall k :: 0 <= k <= t ==> lo <= xs[k] <= hi
    ensures lo <= EmaAt(xs, span, t) <= hi
    decreases t
  {
    if t == 0 {
      assert lo <= xs[0] <= hi;
    } else {
      EmaWithinRange(xs, span, t - 1, lo, hi);
      AlphaIsWeight(span);
      assert lo <= xs[t] <= hi;
      BlendWithinRange(Alpha(span), xs[t], EmaAt(xs, span, t - 1), lo, hi);
    }
  }

  /** The exponential moving average of a constant series is that constant,
      whatever the span. */
  lemma {:induction false} EmaOfConstant(xs: seq<real>, span: nat, t: nat, c: real)
    requires t < |xs|
    requires forall k :: 0 <= k <= t ==> xs[k] == c
    ensures EmaAt(xs, span, t) == c
    decreases t
  {
    if t > 0 {
      EmaOfConstant(xs, span, t - 1, c);
    }
  }
}

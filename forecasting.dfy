// Demand forecasting in main.py: first-order exponential smoothing of a sales
// series, and the mean of the last seven forecast values. Arithmetic is exact
// (`real`); floating-point rounding is not modelled.

module Forecasting {
  import opened Wrappers

  /** The exception raised by the forecast: `data[0]` on an empty series. */
  datatype Error = IndexError

  /** The smoothing factor `exponential_smoothing` uses when none is given. */
  const DefaultAlpha: real := 0.3

  /** How many of the last forecast values the average takes. */
  const Window: nat := 7

  /** Forecast value number `t`: the seed `data[0]`, then the smoothing recurrence. */
  function SmoothAt(data: seq<real>, alpha: real, t: nat): real
    requires t < |data|
  {
    if t == 0 then data[0]
    else alpha * data[t - 1] + (1.0 - alpha) * SmoothAt(data, alpha, t - 1)
  }

  /** The forecast of a non-empty series: one value per observation, seeded with the first. */
  function Smooth(data: seq<real>, alpha: real): (f: seq<real>)
    requires |data| > 0
    ensures |f| == |data|
    ensures f[0] == data[0]
  {
    seq(|data|, t requires 0 <= t < |data| => SmoothAt(data, alpha, t))
  }

  /**
   * Every forecast value after the first mixes the previous observation with
   * the previous forecast value, in proportions alpha and 1 - alpha.
   */
  lemma SmoothRecurrence(data: seq<real>, alpha: real)
    requires |data| > 0
    ensures forall t :: 1 <= t < |data| ==>
      Smooth(data, alpha)[t] == alpha * data[t - 1] + (1.0 - alpha) * Smooth(data, alpha)[t - 1]
  {
  }

  /**
   * `exponential_smoothing(data, alpha)`: grows the forecast list one value at a
   * time; an empty series fails with IndexError.
   */
  method ExponentialSmoothing(data: seq<real>, alpha: real) returns (r: Result<seq<real>, Error>)
    ensures r.Err? <==> |data| == 0
    ensures r.Ok? ==> r.value == Smooth(data, alpha)
  {
    if |data| == 0 {
      return Err(IndexError);
    }
    var forecast := [data[0]];
    for t := 1 to |data|
      invariant |forecast| == t
      invariant forall i :: 0 <= i < t ==> forecast[i] == SmoothAt(data, alpha, i)
    {
      forecast := forecast + [alpha * data[t - 1] + (1.0 - alpha) * forecast[t - 1]];
    }
    return Ok(forecast);
  }

  /** The smallest value of a non-empty sequence. */
  function SeqMin(s: seq<real>): (m: real)
    requires |s| > 0
    ensures m in s
    ensures forall i :: 0 <= i < |s| ==> m <= s[i]
  {
    if |s| == 1 then s[0]
    else
      var m := SeqMin(s[1..]);
      if s[0] <= m then s[0] else m
  }

  /** The largest value of a non-empty sequence. */
  function SeqMax(s: seq<real>): (m: real)
    requires |s| > 0
    ensures m in s
    ensures forall i :: 0 <= i < |s| ==> s[i] <= m
  {
    if |s| == 1 then s[0]
    else
      var m := SeqMax(s[1..]);
      if s[0] >= m then s[0] else m
  }

  lemma MulNonNegative(a: real, b: real)
    requires a >= 0.0 && b >= 0.0
    ensures a * b >= 0.0
  {
  }

  /** A convex combination of two values in [lo, hi] stays in [lo, hi]. */
  lemma ConvexWithin(alpha: real, x: real, y: real, lo: real, hi: real)
    requires 0.0 <= alpha <= 1.0
    requires lo <= x <= hi && lo <= y <= hi
    ensures lo <= alpha * x + (1.0 - alpha) * y <= hi
  {
    var beta := 1.0 - alpha;
    MulNonNegative(alpha, x - lo);
    MulNonNegative(beta, y - lo);
    MulNonNegative(alpha, hi - x);
    MulNonNegative(beta, hi - y);
    assert alpha * x + beta * y - lo == alpha * (x - lo) + beta * (y - lo);
    assert hi - (alpha * x + beta * y) == alpha * (hi - x) + beta * (hi - y);
  }

  /**
   * For 0 <= alpha <= 1, forecast value `t` lies within any bounds that hold
   * for the observations it has seen, `data[0 .. max(t, 1) - 1]`.
   */
  lemma {:induction false} SmoothAtWithin(data: seq<real>, alpha: real, t: nat, lo: real, hi: real)
    requires 0.0 <= alpha <= 1.0 && t < |data|
    requires forall i :: 0 <= i < |data| && (i == 0 || i < t) ==> lo <= data[i] <= hi
    ensures lo <= SmoothAt(data, alpha, t) <= hi
  {
    if t > 0 {
      SmoothAtWithin(data, alpha, t - 1, lo, hi);
      ConvexWithin(alpha, data[t - 1], SmoothAt(data, alpha, t - 1), lo, hi);
    }
  }

  /**
   * For 0 <= alpha <= 1, every forecast value lies between the smallest and the
   * largest observation before it (the first observation for t = 0), and so the
   * whole forecast lies within the range of the series.
   */
  lemma SmoothWithinRange(data: seq<real>, alpha: real)
    requires |data| > 0 && 0.0 <= alpha <= 1.0
    ensures forall t :: 0 <= t < |data| ==>
      var seen := data[..if t == 0 then 1 else t];
      SeqMin(seen) <= Smooth(data, alpha)[t] <= SeqMax(seen)
    ensures forall t :: 0 <= t < |data| ==> SeqMin(data) <= Smooth(data, alpha)[t] <= SeqMax(data)
  {
    forall t | 0 <= t < |data|
      ensures var seen := data[..if t == 0 then 1 else t];
        SeqMin(seen) <= Smooth(data, alpha)[t] <= SeqMax(seen)
      ensures SeqMin(data) <= Smooth(data, alpha)[t] <= SeqMax(data)
    {
      var seen := data[..if t == 0 then 1 else t];
      SmoothAtWithin(data, alpha, t, SeqMin(seen), SeqMax(seen));
      SmoothAtWithin(data, alpha, t, SeqMin(data), SeqMax(data));
    }
  }

  /**
   * For 0 <= alpha <= 1, the weekly average of the forecast of a series whose
   * values all lie in [lo, hi] lies in [lo, hi] too.
   */
  lemma ForecastMeanWithin(data: seq<real>, alpha: real, lo: real, hi: real)
    requires |data| > 0 && 0.0 <= alpha <= 1.0
    requires forall i :: 0 <= i < |data| ==> lo <= data[i] <= hi
    ensures lo <= WindowMean(Smooth(data, alpha)).value <= hi
  {
    var f := Smooth(data, alpha);
    forall t | 0 <= t < |f| ensures lo <= f[t] <= hi {
      SmoothAtWithin(data, alpha, t, lo, hi);
    }
    WindowMeanWithin(f, lo, hi);
  }

  lemma {:induction false} SmoothAtConstant(data: seq<real>, alpha: real, c: real, t: nat)
    requires t < |data|
    requires forall i :: 0 <= i < |data| ==> data[i] == c
    ensures SmoothAt(data, alpha, t) == c
  {
    if t > 0 {
      SmoothAtConstant(data, alpha, c, t - 1);
      assert alpha * c + (1.0 - alpha) * c == c;
    }
  }

  /** A constant series is forecast as itself, whatever the smoothing factor. */
  lemma SmoothConstant(data: seq<real>, alpha: real, c: real)
    requires |data| > 0
    requires forall i :: 0 <= i < |data| ==> data[i] == c
    ensures Smooth(data, alpha) == data
  {
    forall t | 0 <= t < |data| ensures Smooth(data, alpha)[t] == data[t] {
      SmoothAtConstant(data, alpha, c, t);
    }
  }

  /** The weekly average of a constant series' forecast is that constant. */
  lemma ForecastMeanConstant(data: seq<real>, alpha: real, c: real)
    requires |data| > 0
    requires forall i :: 0 <= i < |data| ==> data[i] == c
    ensures Smooth(data, alpha) == data
    ensures WindowMean(Smooth(data, alpha)) == Some(c)
  {
    SmoothConstant(data, alpha, c);
    WindowMeanWithin(data, c, c);
  }

  /** With alpha = 1 the forecast is the series delayed by one day. */
  lemma SmoothLagOne(data: seq<real>)
    requires |data| > 0
    ensures Smooth(data, 1.0)[0] == data[0]
    ensures forall t :: 1 <= t < |data| ==> Smooth(data, 1.0)[t] == data[t - 1]
  {
  }

  /** Python's `s[-n:]` for n > 0: the last `n` values, or all of `s` when it is shorter. */
  function LastN(s: seq<real>, n: nat): (w: seq<real>)
    requires n > 0
    ensures |w| == if |s| < n then |s| else n
    ensures s == s[..|s| - |w|] + w
  {
    if |s| <= n then s else s[|s| - n..]
  }

  function Sum(s: seq<real>): real {
    if |s| == 0 then 0.0 else s[0] + Sum(s[1..])
  }

  lemma {:induction false} SumWithin(s: seq<real>, lo: real, hi: real)
    requires forall i :: 0 <= i < |s| ==> lo <= s[i] <= hi
    ensures lo * |s| as real <= Sum(s) <= hi * |s| as real
  {
    if |s| > 0 {
      SumWithin(s[1..], lo, hi);
    }
  }

  /** If n > 0 and n * lo <= total <= n * hi then lo <= total / n <= hi. */
  lemma MeanWithin(total: real, n: real, lo: real, hi: real)
    requires n > 0.0 && lo * n <= total <= hi * n
    ensures lo <= total / n <= hi
  {
  }

  /** The mean of a non-empty sequence lies within any bounds on its values. */
  lemma MeanOfWithin(w: seq<real>, lo: real, hi: real)
    requires |w| > 0
    requires forall i :: 0 <= i < |w| ==> lo <= w[i] <= hi
    ensures lo <= Sum(w) / |w| as real <= hi
  {
    SumWithin(w, lo, hi);
    MeanWithin(Sum(w), |w| as real, lo, hi);
  }

  /**
   * `np.mean(fcast[-7:])`: the arithmetic mean of the last `min(7, |f|)` forecast
   * values; the mean of an empty list is NaN, here `None`. The mean lies between
   * the smallest and the largest value it averages.
   */
  function WindowMean(f: seq<real>): (m: Option<real>)
    ensures m.Some? <==> |f| > 0
    ensures m.Some? ==> SeqMin(LastN(f, Window)) <= m.value <= SeqMax(LastN(f, Window))
  {
    var w := LastN(f, Window);
    if |w| == 0 then None
    else
      MeanOfWithin(w, SeqMin(w), SeqMax(w));
      Some(Sum(w) / |w| as real)
  }

  /** The two cases of the window: the last seven values, or every value of a shorter forecast. */
  lemma WindowMeanCases(f: seq<real>)
    ensures |f| >= Window ==> WindowMean(f) == Some(Sum(f[|f| - Window..]) / Window as real)
    ensures 0 < |f| < Window ==> WindowMean(f) == Some(Sum(f) / |f| as real)
  {
  }

  /** If every forecast value lies in [lo, hi], so does their window mean. */
  lemma WindowMeanWithin(f: seq<real>, lo: real, hi: real)
    requires |f| > 0
    requires forall i :: 0 <= i < |f| ==> lo <= f[i] <= hi
    ensures lo <= WindowMean(f).value <= hi
  {
    var w := LastN(f, Window);
    assert w == f[|f| - |w|..];
    assert w[0] == f[|f| - |w|] && w[|w| - 1] == f[|f| - 1];
    var k :| 0 <= k < |w| && w[k] == SeqMin(w);
    var j :| 0 <= j < |w| && w[j] == SeqMax(w);
    assert w[k] == f[|f| - |w| + k];
    assert w[j] == f[|f| - |w| + j];
  }
}

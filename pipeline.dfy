// The body of `main()` in main.py, lines 43-53: forecast every product's sales,
// average the last week of each forecast, allocate from those averages.
// The sales series are a parameter here (main() draws them at random).

module Pipeline {
  import opened Wrappers
  import opened Forecasting
  import opened Allocation

  /** What `main()` computes for its result file and plot. */
  datatype Report = Report(
    forecast: map<string, seq<real>>,
    average: map<string, real>,
    allocation: map<string, real>)

  /** `{product: exponential_smoothing(sales) ...}` once every series is known to be non-empty. */
  function ForecastAll(sales: map<string, seq<real>>, alpha: real): (forecast: map<string, seq<real>>)
    requires forall p :: p in sales ==> |sales[p]| > 0
    ensures forecast.Keys == sales.Keys
    ensures forall p :: p in sales ==> forecast[p] == Smooth(sales[p], alpha)
  {
    map p | p in sales :: Smooth(sales[p], alpha)
  }

  /** `{product: np.mean(fcast[-7:]) ...}` over non-empty forecasts. */
  function AverageAll(forecast: map<string, seq<real>>): (average: map<string, real>)
    requires forall p :: p in forecast ==> |forecast[p]| > 0
    ensures average.Keys == forecast.Keys
    ensures forall p :: p in forecast ==> WindowMean(forecast[p]) == Some(average[p])
  {
    map p | p in forecast :: WindowMean(forecast[p]).value
  }

  /**
   * The three dict comprehensions of `main()`. Smoothing an empty series raises
   * IndexError, which aborts the whole run.
   */
  function Run(sales: map<string, seq<real>>, alpha: real): (r: Result<Report, Error>)
    ensures r.Ok? <==> forall p :: p in sales ==> |sales[p]| > 0
    ensures r.Ok? ==>
      && r.value.forecast.Keys == sales.Keys
      && r.value.average.Keys == sales.Keys
      && r.value.allocation == Allocate(r.value.average)
    ensures r.Ok? ==> forall p :: p in sales ==>
      && r.value.forecast[p] == Smooth(sales[p], alpha)
      && WindowMean(r.value.forecast[p]) == Some(r.value.average[p])
  {
    if exists p :: p in sales && |sales[p]| == 0 then Err(IndexError)
    else
      var forecast := ForecastAll(sales, alpha);
      var average := AverageAll(forecast);
      Ok(Report(forecast, average, Allocate(average)))
  }

  /**
   * For 0 <= alpha <= 1, when every sale of product `p` lies in [lo, hi], its
   * weekly average lies in [lo, hi] and its allocation between max(0, lo - 5)
   * and max(0, hi - 5).
   */
  lemma RunWithin(sales: map<string, seq<real>>, alpha: real, p: string, lo: real, hi: real)
    requires 0.0 <= alpha <= 1.0
    requires forall q :: q in sales ==> |sales[q]| > 0
    requires p in sales
    requires forall i :: 0 <= i < |sales[p]| ==> lo <= sales[p][i] <= hi
    ensures Run(sales, alpha).Ok?
    ensures lo <= Run(sales, alpha).value.average[p] <= hi
    ensures ClampAtZero(lo - Offset) <= Run(sales, alpha).value.allocation[p] <= ClampAtZero(hi - Offset)
  {
    var r := Run(sales, alpha);
    var m := r.value.average[p];
    assert WindowMean(Smooth(sales[p], alpha)) == Some(m);
    ForecastMeanWithin(sales[p], alpha, lo, hi);
    AllocateWithin(r.value.average, p, lo, hi);
  }

  /**
   * A product whose sales are constant keeps that constant as its forecast and
   * its weekly average, whatever alpha is, and is allocated max(0, c - 5).
   */
  lemma RunConstant(sales: map<string, seq<real>>, alpha: real, p: string, c: real)
    requires forall q :: q in sales ==> |sales[q]| > 0
    requires p in sales
    requires forall i :: 0 <= i < |sales[p]| ==> sales[p][i] == c
    ensures Run(sales, alpha).Ok?
    ensures Run(sales, alpha).value.forecast[p] == sales[p]
    ensures Run(sales, alpha).value.average[p] == c
    ensures Run(sales, alpha).value.allocation[p] == ClampAtZero(c - Offset)
  {
    var r := Run(sales, alpha);
    var f, m := r.value.forecast[p], r.value.average[p];
    assert f == Smooth(sales[p], alpha) && WindowMean(f) == Some(m);
    assert f == sales[p] && m == c by {
      ForecastMeanConstant(sales[p], alpha, c);
    }
  }

  /** A report about the single product `k` is made of three one-entry maps. */
  lemma SingletonReport(r: Report, k: string, f: seq<real>, m: real, a: real)
    requires r.forecast.Keys == {k} && r.average.Keys == {k} && r.allocation.Keys == {k}
    requires r.forecast[k] == f && r.average[k] == m && r.allocation[k] == a
    ensures r == Report(map[k := f], map[k := m], map[k := a])
  {
    assert r.forecast == map[k := f];
    assert r.average == map[k := m];
    assert r.allocation == map[k := a];
  }

  /** A single product whose sales are constant: the whole report, entry by entry. */
  lemma SingleConstantProduct(product: string, sales: seq<real>, alpha: real, c: real)
    requires |sales| > 0 && forall i :: 0 <= i < |sales| ==> sales[i] == c
    ensures Run(map[product := sales], alpha)
      == Ok(Report(map[product := sales], map[product := c], map[product := ClampAtZero(c - Offset)]))
  {
    var input := map[product := sales];
    assert input.Keys == {product};
    RunConstant(input, alpha, product, c);
    var r := Run(input, alpha);
    SingletonReport(r.value, product, sales, c, ClampAtZero(c - Offset));
  }

  /**
   * One product selling 10 a day for eight days, with the default alpha: the
   * forecast is the same constant series, the weekly average is 10 and the
   * allocation is 5.
   */
  lemma ConstantSalesScenario(sales: seq<real>)
    requires |sales| == 8 && forall i :: 0 <= i < |sales| ==> sales[i] == 10.0
    ensures Run(map["A" := sales], DefaultAlpha)
      == Ok(Report(map["A" := sales], map["A" := 10.0], map["A" := 5.0]))
  {
    SingleConstantProduct("A", sales, DefaultAlpha, 10.0);
  }
}

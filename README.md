# retail_model: forecast, allocation and the result-file hand-off

A model of the computing core of the retail resource-allocation demo:

- `main.py` forecasts each product's daily sales with first-order exponential
  smoothing (`exponential_smoothing`, default alpha 0.3), averages the last
  seven forecast values of each product (`np.mean(fcast[-7:])`), and allocates
  every product its average less a fixed offset of 5, never below zero
  (`allocate_resources`). It then prints two marker lines,
  `RESULT_FILE::<path>` and `PLOT_FILE::<path>`.
- `dashboard.py` runs `main.py`, scans the captured output lines for those
  markers (`line.split("::")[1].strip()`, the last matching line wins) and
  offers the files only when both paths were found and are non-empty.

Modules:

| file | module | what it holds |
|---|---|---|
| `wrappers.dfy` | `Wrappers` | `Option` and `Result` |
| `forecasting.dfy` | `Forecasting` | the smoothing recurrence as a function, the list-building loop as a method proved against it, the seven-value window mean, and their bounds |
| `allocation.dfy` | `Allocation` | the offset allocation rule over a product map |
| `pipeline.dfy` | `Pipeline` | the three dict comprehensions of `main()` as one function and what they promise together |
| `text.dfy` | `Text` | Python's `pat in s`, `s.split(sep)` and `s.strip()` on `seq<char>` |
| `markers.dfy` | `Markers` | the printed marker lines, the dashboard's scanning loop as a method proved against a "last matching line" function, and the round trip between them |

Sales and forecasts are exact `real`s. `exponential_smoothing` does not check
alpha: any real value is accepted, and properties that need alpha in [0, 1]
take it as a precondition of the lemma, not of the operation. An empty series
raises IndexError (from `data[0]`), with no dedicated invalid-input error; the
model returns `Err(IndexError)` there, and one empty series makes the whole run
fail, as the exception would. The mean of an empty window (NaN in numpy) is
`None`; `main()` never reaches it.

## Model

| member | source | states |
|---|---|---|
| Forecasting.ExponentialSmoothing | main.py:8-12 | fails exactly when the series is empty; otherwise the list its loop builds is the forecast `Smooth(data, alpha)` |
| Forecasting.Smooth | main.py:9-12 | one forecast value per observation, the first one equal to the first observation |
| Forecasting.SmoothRecurrence | main.py:10-11 | every later value is alpha times the previous observation plus (1 - alpha) times the previous forecast value |
| Forecasting.SmoothWithinRange | main.py:9-11 | for 0 <= alpha <= 1, each forecast value lies between the smallest and the largest observation seen before it (the first one counts for t = 0), hence within the range of the whole series |
| Forecasting.SmoothConstant | main.py:9-11 | a constant series is its own forecast, for every alpha |
| Forecasting.SmoothLagOne | main.py:11 | with alpha = 1 the forecast is the series delayed by one day |
| Forecasting.LastN | main.py:50 | `fcast[-7:]`: the last min(n, len) values, and the series is what precedes them followed by them |
| Forecasting.WindowMean | main.py:50 | the mean exists exactly when the forecast is non-empty and lies between the smallest and largest of the last seven values |
| Forecasting.WindowMeanCases | main.py:50 | the mean is the sum of the last seven values over 7, or of all of them over their count when there are fewer |
| Forecasting.WindowMeanWithin | main.py:50 | bounds on every forecast value bound the window mean |
| Forecasting.ForecastMeanWithin | main.py:8-12 | for 0 <= alpha <= 1, sales within [lo, hi] give a weekly average within [lo, hi] |
| Forecasting.ForecastMeanConstant | main.py:8-12 | constant sales c give the constant forecast and the average c |
| Allocation.Allocate | main.py:15-17 | the same products; each gets its demand less 5 when that is at least 0, and 0 otherwise; never negative |
| Allocation.AllocateMonotone | main.py:16 | a larger demand never gets a smaller allocation; equal demands get equal allocations, whatever the other products |
| Allocation.AllocateWithin | main.py:16 | a demand in [lo, hi] is allocated between max(0, lo - 5) and max(0, hi - 5) |
| Allocation.AllocateBelowDemand | main.py:16 | a non-negative demand is never exceeded by its allocation |
| Pipeline.ForecastAll | main.py:43-46 | one forecast per product, the forecast of its sales |
| Pipeline.AverageAll | main.py:49-51 | one average per product, the window mean of its forecast |
| Pipeline.Run | main.py:43-53 | succeeds exactly when no sales series is empty; then forecast, average and allocation cover the same products, each forecast is the smoothing of its sales, each average the window mean of its forecast, and the allocation is `Allocate` of the averages |
| Pipeline.RunWithin | main.py:43-53 | for 0 <= alpha <= 1, a product whose sales lie in [lo, hi] has its average in [lo, hi] and its allocation between max(0, lo - 5) and max(0, hi - 5) |
| Pipeline.RunConstant | main.py:43-53 | a product with constant sales c keeps them as its forecast, averages c and is allocated max(0, c - 5) |
| Pipeline.SingleConstantProduct | main.py:43-53 | the whole report for a single product with constant sales |
| Pipeline.ConstantSalesScenario | main.py:43-53 | eight days of sales 10 for one product, default alpha: forecast all 10s, average 10, allocation 5 |
| Text.Find | dashboard.py:58 | the leftmost occurrence of the pattern, or -1 when there is none |
| Text.OccurrenceFound | dashboard.py:58 | any occurrence makes `pat in s` true and bounds the leftmost one |
| Text.Split | dashboard.py:59 | at least one piece; joining the pieces with the separator gives back the line; no piece holds the separator, and none before the last holds one even together with all but the last character of the separator that follows it, so every cut is at the leftmost occurrence; the first piece is the text before the first separator; a single piece exactly when the line has no separator |
| Text.Lead | dashboard.py:59 | the leading whitespace run: all whitespace, followed by a non-whitespace character or the end |
| Text.TextEnd | dashboard.py:59 | the trailing whitespace run of a slice: all whitespace, preceded by a non-whitespace character or the slice start |
| Text.Strip | dashboard.py:59 | the result is the slice between the leading and trailing whitespace, which are all whitespace, and it starts and ends with non-whitespace |
| Text.StripKeeps | dashboard.py:59 | a string without surrounding whitespace is unchanged |
| Markers.PrintedLines | main.py:74-75 | two lines, the first carrying `RESULT_FILE::`, the second `PLOT_FILE::` |
| Markers.MarkerHasSeparator | dashboard.py:58-59 | a line holding a marker holds `::`, so `split("::")[1]` exists |
| Markers.Field | dashboard.py:59 | the extracted value has no surrounding whitespace |
| Markers.FieldIsSecondSegment | dashboard.py:59 | the value is the stripped text between the first `::` and the next one or the line end, wherever the marker itself stands |
| Markers.LastMatch | dashboard.py:55-61 | the value left for a marker: the field of the last line holding it, or None |
| Markers.ScanMarkers | dashboard.py:55-61 | the loop leaves each path equal to `LastMatch` of all lines for its marker |
| Markers.LastMatchStep | dashboard.py:57-61 | one more line overwrites the value exactly when it holds the marker |
| Markers.LastMatchNone | dashboard.py:55-61 | a path stays None exactly when no line holds its marker |
| Markers.LastMatchAppend | dashboard.py:57-61 | a match among later lines overrides anything earlier; otherwise the earlier value stands |
| Markers.LastMatchLastLine | dashboard.py:57-61 | the last line holding the marker alone decides the value |
| Markers.LastMatchOneLine | dashboard.py:58-59 | a single line holding the marker yields its field |
| Markers.BothMarkersOneLine | dashboard.py:58-61 | a line holding both markers sets both paths to the same value |
| Markers.FirstSeparator | dashboard.py:59 | in `key::rest` with no `:` in the key, the first `::` follows the key |
| Markers.MarkedField | dashboard.py:59 | the field of `key::v` is `v` when `v` has no `::` and no surrounding whitespace |
| Markers.NoPlotMarkerInResultLine | main.py:74 | a printed result line never sets the plot path |
| Markers.NoResultMarkerInPlotLine | main.py:75 | a printed plot line never sets the result path |
| Markers.RoundTrip | dashboard.py:55-63 | scanning what `main()` prints recovers both paths, and the files are offered exactly when both are non-empty |
| Markers.OfferedNeedsBothMarkers | dashboard.py:63 | the files are offered only if some line carried each marker |
| Markers.MisplacedMarker | dashboard.py:59 | in `x::RESULT_FILE::p` the value taken is `RESULT_FILE`, not `p` |
| Markers.MisplacedKey | dashboard.py:59 | the same for any key without `:` and surrounding whitespace |
| Markers.FieldAfterPrefix | dashboard.py:59 | the field of `prefix::key::rest` is `key` when neither prefix nor key holds `:` |

## Left out

- Random sales data (`np.random.poisson` with a fixed seed): the sales map is a parameter of `Pipeline.Run`.
- Floating-point rounding, and numpy's summation order: all arithmetic is exact on `real`.
- Timestamps, directory creation, the result file's text and `:.2f` formatting: file output is not modelled.
- Plotting (`plot_forecast`, `visualization/plot_results.py`), Streamlit widgets, session state, image display and downloads.
- Running `main.py` as a subprocess and its return code: the dashboard scan takes the captured lines as its input.
- `stdout.splitlines()` and the newline `print` appends: `Markers.PrintedLines` yields the two lines directly.
- The linear program of `optimization/resource_allocation.py`, the queue simulation of `simulation/store_simulation.py`, `models/forecast.py` and `data/load_data.py`: none of them is reached from the modelled code.
- Dictionary iteration order: maps are unordered, and every modelled result is per product.
- Forecasting.LastN: takes the window size as a positive number only; Python's `s[-0:]` (the whole list) is not needed for the window of 7.

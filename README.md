# pv_forecast core in Dafny

A model of the two independent components of the `pv_forecast` package:

- **The metrics-pipeline runner** (`pv_forecast/metrics.py`, module `Metrics` in `metrics.dfy`).
  `run_pipeline` folds a pipeline of callables over an accumulator that starts as the
  keyword bag `{predictions, actual}`; the accumulator's shape picks the calling convention
  of the next step (a dict is splatted as keyword arguments, a tuple is unpacked as
  positional arguments, anything else is the single argument), and the step's return value
  replaces it. `run_all_pipelines` runs every named pipeline of a registry and collects the
  results under the same names. `denormalize` multiplies `predictions` and `actual` by the
  installed PV capacity and returns a keyword bag, resampling a capacity series first when
  its frequency differs from that of `actual`.
- **The Fourier time encoder** (`pv_forecast/fourier.py`, module `Fourier` in `fourier.dfy`).
  `fourier_encode_date_time` turns each timestamp into the fraction of the day elapsed and
  the fraction of a fixed 365-day year, converts both to angles with `fraction_to_radians`,
  and emits six columns: sin/cos of the day angle, of the year angle and of four times the
  year angle.

`results.dfy` (module `Results`) holds the `Result` type: a Python exception becomes an `Err`
carrying the exception's class name and message.

Modelling choices:

- A Python value flowing through a pipeline is the datatype `Metrics.Value`
  (`Number | Series | Dict | Tuple | Object`); dicts and tuples may nest. A call is its
  positional and keyword arguments (`Metrics.Call`), and a step is any function from a call
  to a `Result<Value>`, so "the step raised" is an `Err` that the runner passes on untouched.
- `run_pipeline` and `run_all_pipelines` are methods with the source's loops, proved against
  the specification functions `Metrics.Fold` / `Metrics.Run`.
- The pipeline registry is given as its items in insertion order (a sequence of
  name/pipeline pairs with distinct names, as a dict's keys are); the results dict is a `map`.
- The pandas operations that `denormalize` relies on for a capacity series (the comparison
  of two index frequencies, `resample(...).ffill()` and the index-aligned product of two
  series) are parameters (`Metrics.SeriesOps`); the resample and the product may raise. The
  scalar path, a plain elementwise product, is modelled in full.
- pi, sin and cos are parameters (`Fourier.Trig`), so every fact proved about the encoder holds
  whatever values the numeric library gives them; arithmetic is exact over `real`.
- The encoder reads only the integer `second` of each timestamp, so any sub-second part is
  dropped (`Fourier.SubSecondIgnored`). An empty index fails the function's bare `assert` with an
  `AssertionError` carrying an empty message. A failed resample raises whatever pandas raises,
  and `denormalize` does not translate it.

## Model

| member | source | states |
|---|---|---|
| `Metrics.RunPipeline` | pv_forecast/metrics.py:100-110 | the loop returns exactly `Run(pipeline, predictions, actual)`: the fold from the bag `{predictions, actual}`, dispatching each call on the accumulator's shape (dict as keywords, tuple as positionals, else one argument) and stopping at the first exception |
| `Metrics.RunAllPipelines` | pv_forecast/metrics.py:88-91 | succeeds iff every pipeline succeeds; the result's keys are exactly the registry's names; each name maps to the result of running its pipeline alone; on failure the error is that of the first failing pipeline in registry order, all earlier ones having succeeded |
| `Metrics.RunEmptyPipeline` | pv_forecast/metrics.py:100-103 | an empty pipeline returns the initial bag unchanged, with keys `predictions` and `actual` |
| `Metrics.RunSingleStep` | pv_forecast/metrics.py:100-105 | the first step is always called with `predictions` and `actual` as keyword arguments, and its return value is the result |
| `Metrics.RunTwoSteps` | pv_forecast/metrics.py:100-110 | a two-step pipeline calls the second step on whatever the first returns, dispatched by its shape, unless the first raised, whose exception is then the result |
| `Metrics.FoldThroughOneStep` | pv_forecast/metrics.py:103-109 | one iteration: the step's return value replaces the accumulator for the rest of the pipeline, and an exception ends the run |
| `Metrics.FoldAppend` | pv_forecast/metrics.py:103-110 | running `p + q` equals running `q` from the accumulator `p` produced, or `p`'s exception |
| `Metrics.ThreeStepChain` | pv_forecast/metrics.py:103-110 | for steps `f`, `g`, `h` where `f` returns a tuple and `g` a single value, the run returns `h(g(*f(**bag)))` unchanged, exception included |
| `Metrics.FailureAborts` | pv_forecast/metrics.py:103-109 | an exception raised by any step, once reached, is the result of the whole run whatever follows |
| `Metrics.FailureComesFromAStep` | pv_forecast/metrics.py:103-110 | every exception of a run is, unchanged, the one some step raised on the accumulator its prefix produced |
| `Metrics.Dispatch` | pv_forecast/metrics.py:104-109 | the call has keyword arguments only for a dict accumulator, and they are its entries; otherwise its positional arguments are the tuple's items or the accumulator itself as the single argument, and none for a dict |
| `Metrics.DispatchCollisions` | pv_forecast/metrics.py:104-109 | two accumulators give the same call iff they are equal, or one is a one-element tuple of the other (a non-dict, non-tuple value), or they are the empty dict and the empty tuple |
| `Metrics.Denormalize` | pv_forecast/metrics.py:113-122 | a successful result is a dict with exactly the keys `predictions` and `actual`; with a scalar capacity `c` it succeeds and each series is `c` times the input elementwise, same index, frequency, length and order; with a capacity series, both `predictions` and `actual` are multiplied by the same capacity (resampled to `actual`'s frequency when the frequencies differ, as it is otherwise); a failure is only possible with a capacity series and is, unchanged, the failed resample's error or the error of the first failing product (`predictions` before `actual`) |
| `Metrics.ScalarCapacityNeedsNoResample` | pv_forecast/metrics.py:116-120 | with a scalar capacity the resample branch is not taken: the result does not depend on the pandas operations |
| `Metrics.SameFrequencyNeedsNoResample` | pv_forecast/metrics.py:116-120 | a capacity series at `actual`'s frequency is used without resampling (the result does not depend on the resample operation), and `denormalize` succeeds exactly when both products succeed |
| `Metrics.ResampleFailurePropagates` | pv_forecast/metrics.py:116-120 | with a capacity series at another frequency, a failed resample is the result of `denormalize`, unchanged; after a successful resample, `denormalize` succeeds exactly when both products by the resampled capacity succeed |
| `Metrics.BindSeriesPair` | pv_forecast/metrics.py:113-115 | a call binds `predictions` and `actual` from exactly two arguments: the first from the first positional argument or the keyword `predictions`, the second from the second positional argument or the keyword `actual`; the keyword bag, the positional pair and the mixed call `denormalize(p, actual=a)` of two series all bind; anything else raises `TypeError` |
| `Metrics.DenormalizeStepCalls` | pv_forecast/metrics.py:113-122 | `denormalize` with its capacity bound, as a step: called with the keyword bag or with the positional pair of two series it returns `denormalize` of them; called with a single non-dict, non-tuple value it raises |
| `Metrics.DenormalizeThenKeywords` | pv_forecast/metrics.py:104-105 | the step after `denormalize` is called with the denormalized `predictions` and `actual` as keyword arguments |
| `Metrics.DenormalizeTwice` | pv_forecast/metrics.py:119-122 | two scalar `denormalize` steps chain through keyword arguments and scale both series by the product of the capacities |
| `Fourier.HourOfDayFraction` | pv_forecast/fourier.py:26-29 | for a valid time of day the day fraction lies in [0, 1) |
| `Fourier.FractionToRadians` | pv_forecast/fourier.py:50-52 | 0 maps to 0 and a whole turn (fraction 1) maps to 2π |
| `Fourier.EncodeRow` | pv_forecast/fourier.py:37-46 | a row has one value per column: sin/cos of the day angle, of the year angle and of four times the year angle, in the column order |
| `Fourier.FourierEncodeDateTime` | pv_forecast/fourier.py:13-47 | fails with `AssertionError` iff the index is empty; otherwise one row per timestamp, in input order, indexed by the input, with the six columns `day_sin`, `day_cos`, `year_sin`, `year_cos`, `year_x4_sin`, `year_x4_cos` holding sin/cos of the day angle, of the year angle and of four times the year angle |
| `Fourier.FractionToRadiansLinear` | pv_forecast/fourier.py:50-52 | `fraction_to_radians` maps 0 to 0 and 1 to 2π and is linear |
| `Fourier.Midnight` | pv_forecast/fourier.py:26-30 | midnight has day fraction 0 and day angle 0, so `day_sin` is 0 and `day_cos` is 1 |
| `Fourier.SubSecondIgnored` | pv_forecast/fourier.py:26-28 | the encoding does not depend on the sub-second part of a timestamp |
| `Fourier.DayFractionIncreasing` | pv_forecast/fourier.py:26-29 | a later (hour, minute, second) in the same day gives a strictly larger day fraction |
| `Fourier.DayFractionInjective` | pv_forecast/fourier.py:26-29 | two times have equal day fractions iff their hour, minute and second agree |
| `Fourier.DayAngleIncreasing` | pv_forecast/fourier.py:26-30 | day angles lie in [0, 2π) and grow strictly with the time of day |
| `Fourier.MinutesAfterMidnight` | pv_forecast/fourier.py:26-29 | at minute `k` after midnight the day fraction is `k`/1440, the minute-by-minute steps of the test fixture |
| `Fourier.YearFractionBounds` | pv_forecast/fourier.py:33-34 | the year fraction runs from 1/365 (1 January, midnight) to below 367/365 |
| `Fourier.NewYearMidnight` | pv_forecast/fourier.py:26-34 | on 1 January at midnight the day angle is 0, the year angle 2π/365 and the harmonic angle 8π/365, as days of the year count from 1 |
| `Fourier.FixedYearLength` | pv_forecast/fourier.py:10 | the year is a constant 365 days: the same time 365 days later is exactly one full turn further |
| `Fourier.LeapDayWrapsAround` | pv_forecast/fourier.py:33-34 | leap years are not special-cased: day 366 is one turn past day 1 at the same time |
| `Fourier.YearAngleIncreasing` | pv_forecast/fourier.py:33-34 | a later moment of the same year gives a strictly larger year angle |
| `Fourier.QuarterlyHarmonic` | pv_forecast/fourier.py:44-45 | the `year_x4` angle is four times the year angle: four turns per 365 days |
| `Fourier.ColumnPairsOnUnitCircle` | pv_forecast/fourier.py:40-45 | if sin and cos satisfy sin² + cos² = 1, every sin/cos column pair of every row does |

## Left out

- Floating point: all arithmetic is exact over `real`; the rounding of numpy's float64 and the 7-decimal comparison with the test fixture are not modelled.
- The values of pi, sin and cos: they are parameters, so the fixture's concrete numbers (such as `year_sin` = 0.0172134 on the first row) are stated only as the angles they are computed from.
- Datetime parsing and the calendar computation of the day of the year: a timestamp is given as its day of the year, hour, minute, second and sub-second part; `ValidTimestamp` states their ranges.
- The `isinstance(dt_index, pd.DatetimeIndex)` assertion: Dafny's types guarantee it.
- Running Python with `-O` removes both assertions of `fourier_encode_date_time`; the model keeps the empty-index failure.
- pandas `resample(...).ffill()`, the comparison of `index.freq` values (offsets compare by value, so `"H"` equals `"60min"`) and index alignment in `predictions * pv_capacity` when the capacity is a series: library code that is not part of this model, passed in as `Metrics.SeriesOps`; forward-fill values and the aligned products' values are therefore not stated, only which capacity series they are computed from.
- `Metrics.Denormalize`: takes `predictions` and `actual` as series only; pandas would also multiply other operands, such as plain numbers.
- Python's argument binding in general: `Metrics.BindSeriesPair` accepts the three ways of passing `predictions` and `actual` to `denormalize` and raises `TypeError` otherwise, including when a call passes `pv_capacity` again, which `functools.partial` would let override the bound one.
- The example steps of the `run_all_pipelines` docstring (`Denormalize`, `IgnoreNight`, `GroupBy`, numpy and pandas reductions): they are not defined in the modelled code; steps are arbitrary functions.
- Side effects of steps: a step is a pure function of its call. The model therefore cannot express a callable whose answer depends on its earlier calls.
- Mutation of the inputs: every pipeline receives the same `predictions` and `actual` objects. In Python, a step that changes them in place would change the results of later pipelines. `RunAllPipelines`' "each name maps to the result of running its pipeline alone" holds in the model only because steps cannot do that.
- The key order of a dict accumulator: it is a `map`, but a `**kwargs` step can observe the order of its keyword arguments in Python.
- The order of the keys in the results dict: the result is a `map`.

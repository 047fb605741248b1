/**
 * The metrics-pipeline runner of pv_forecast/metrics.py.
 *
 * A pipeline is a sequence of callables. The runner threads one accumulator
 * (`output`) through them; the accumulator's shape decides how the next
 * callable is invoked: a dict is splatted as keyword arguments, a tuple is
 * unpacked as positional arguments, anything else is passed as the single
 * argument. A callable that raises aborts the run with that exception.
 */
module Metrics {
  import opened Results

  // ---------------------------------------------------------------------------
  // Values that flow through a pipeline
  // ---------------------------------------------------------------------------

  /** The sampling frequency of a pandas index (`index.freq`), which may be undefined. */
  datatype Freq = NoFreq | Rule(alias: string)

  /** A pandas Series: its index (timestamps as integers), its frequency and its values. */
  datatype TimeSeries = TimeSeries(index: seq<int>, freq: Freq, values: seq<real>)

  /** The Python values a step may receive or return. */
  datatype Value =
    | Number(x: real)
    | Series(series: TimeSeries)
    | Dict(entries: map<string, Value>)
    | Tuple(items: seq<Value>)
    | Object(kind: string)        // any other object: a DataFrame, a GroupBy, ...

  /** The arguments of one Python call: positional, then keyword. */
  datatype Call = Call(args: seq<Value>, kwargs: map<string, Value>)

  /** A pipeline step: a callable; raising an exception is an `Err` result. */
  type Step = Call -> Result<Value>

  // ---------------------------------------------------------------------------
  // run_pipeline
  // ---------------------------------------------------------------------------

  /** The keyword bag `{"predictions": ..., "actual": ...}`. */
  function PredictionsAndActual(predictions: Value, actual: Value): map<string, Value>
  {
    map["predictions" := predictions, "actual" := actual]
  }

  /** The accumulator a run starts from: `dict(predictions=predictions, actual=actual)`. */
  function InitialOutput(predictions: Value, actual: Value): Value
  {
    Dict(PredictionsAndActual(predictions, actual))
  }

  /**
   * How a step is called on the current accumulator: keyword arguments only
   * for a dict (its entries), positional ones otherwise (a tuple's items, or
   * the accumulator itself as the single argument).
   */
  function Dispatch(output: Value): (c: Call)
    ensures c.kwargs == (if output.Dict? then output.entries else map[])
    ensures c.args == (if output.Dict? then [] else if output.Tuple? then output.items else [output])
  {
    match output
    case Dict(entries) => Call([], entries)       // function(**output)
    case Tuple(items) => Call(items, map[])        // function(*output)
    case _ => Call([output], map[])                // function(output)
  }

  /** Calling one step on the accumulator; its return value is the next accumulator. */
  function Invoke(step: Step, output: Value): Result<Value>
  {
    step(Dispatch(output))
  }

  /** The left fold of `pipeline` over the accumulator, stopping at the first exception. */
  function Fold(pipeline: seq<Step>, output: Value): Result<Value>
    decreases |pipeline|
  {
    if pipeline == [] then Ok(output)
    else
      match Invoke(pipeline[0], output)
      case Err(e) => Err(e)
      case Ok(next) => Fold(pipeline[1..], next)
  }

  /** What `run_pipeline(pipeline, predictions, actual)` returns or raises. */
  function Run(pipeline: seq<Step>, predictions: Value, actual: Value): Result<Value>
  {
    Fold(pipeline, InitialOutput(predictions, actual))
  }

  /** `run_pipeline`: the loop that reassigns `output` once per step. */
  method RunPipeline(pipeline: seq<Step>, predictions: Value, actual: Value) returns (r: Result<Value>)
    ensures r == Run(pipeline, predictions, actual)
  {
    var output := InitialOutput(predictions, actual);
    for i := 0 to |pipeline|
      invariant Fold(pipeline[i..], output) == Run(pipeline, predictions, actual)
    {
      var step := pipeline[i];
      var returned: Result<Value>;
      if output.Dict? {
        returned := step(Call([], output.entries));
      } else if output.Tuple? {
        returned := step(Call(output.items, map[]));
      } else {
        returned := step(Call([output], map[]));
      }
      assert pipeline[i..][1..] == pipeline[i + 1..];
      if returned.Err? {
        return Err(returned.error);
      }
      output := returned.value;
    }
    return Ok(output);
  }

  /** Continuing a run that has produced `r` with the rest of a pipeline. */
  function AndThen(r: Result<Value>, pipeline: seq<Step>): Result<Value>
  {
    match r
    case Err(e) => Err(e)
    case Ok(output) => Fold(pipeline, output)
  }

  /** An empty pipeline returns the initial keyword bag unchanged. */
  lemma RunEmptyPipeline(predictions: Value, actual: Value)
    ensures Run([], predictions, actual) == Ok(InitialOutput(predictions, actual))
    ensures Run([], predictions, actual).value.entries.Keys == {"predictions", "actual"}
  {
  }

  /** A one-step pipeline calls the step with the initial bag as keyword arguments. */
  lemma RunSingleStep(step: Step, predictions: Value, actual: Value)
    ensures Run([step], predictions, actual) == step(Call([], PredictionsAndActual(predictions, actual)))
  {
    FoldThroughOneStep(step, [], InitialOutput(predictions, actual));
    assert [step] + [] == [step];
    match Invoke(step, InitialOutput(predictions, actual))
    case Err(e) =>
    case Ok(next) =>
  }

  /** A two-step pipeline calls the second step on whatever the first returns, unless the first raised. */
  lemma RunTwoSteps(f: Step, g: Step, predictions: Value, actual: Value)
    ensures Run([f, g], predictions, actual)
         == match f(Call([], PredictionsAndActual(predictions, actual)))
            case Err(e) => Err(e)
            case Ok(v) => Invoke(g, v)
  {
    FoldThroughOneStep(f, [g], InitialOutput(predictions, actual));
    assert [f] + [g] == [f, g];
    match f(Call([], PredictionsAndActual(predictions, actual)))
    case Err(e) =>
    case Ok(v) =>
      FoldThroughOneStep(g, [], v);
      assert [g] + [] == [g];
      match Invoke(g, v)
      case Err(e) =>
      case Ok(w) =>
  }

  /** Unfolding the fold by one step. */
  lemma FoldThroughOneStep(step: Step, rest: seq<Step>, output: Value)
    ensures Fold([step] + rest, output) == AndThen(Invoke(step, output), rest)
  {
  }

  /** Running `p + q` is running `q` from the accumulator `p` produced (or `p`'s exception). */
  lemma {:induction false} FoldAppend(p: seq<Step>, q: seq<Step>, output: Value)
    ensures Fold(p + q, output) == AndThen(Fold(p, output), q)
    decreases |p|
  {
    if p == [] {
      assert p + q == q;
    } else {
      assert (p + q)[0] == p[0];
      assert (p + q)[1..] == p[1..] + q;
      match Invoke(p[0], output)
      case Err(e) =>
      case Ok(next) => FoldAppend(p[1..], q, next);
    }
  }

  /**
   * The calling convention follows the previous return value: `f` gets the bag
   * as keywords, `g` the tuple `f` returned unpacked, `h` the single value `g`
   * returned; the run returns `h(g(*f(**bag)))` unchanged, exception included.
   */
  lemma ThreeStepChain(f: Step, g: Step, h: Step, predictions: Value, actual: Value, t: seq<Value>, v: Value)
    requires f(Call([], PredictionsAndActual(predictions, actual))) == Ok(Tuple(t))
    requires g(Call(t, map[])) == Ok(v)
    requires !v.Dict? && !v.Tuple?
    ensures Run([f, g, h], predictions, actual) == h(Call([v], map[]))
  {
    FoldThroughOneStep(f, [g, h], InitialOutput(predictions, actual));
    FoldThroughOneStep(g, [h], Tuple(t));
    FoldThroughOneStep(h, [], v);
    assert [f] + [g, h] == [f, g, h];
    assert [g] + [h] == [g, h];
    assert [h] + [] == [h];
    match h(Call([v], map[]))
    case Err(e) =>
    case Ok(w) =>
  }

  /** An exception raised by any step aborts the run with that same exception. */
  lemma FailureAborts(p: seq<Step>, step: Step, q: seq<Step>, output: Value, before: Value, e: Exception)
    requires Fold(p, output) == Ok(before)
    requires Invoke(step, before) == Err(e)
    ensures Fold(p + [step] + q, output) == Err(e)
  {
    FoldAppend(p + [step], q, output);
    FoldAppend(p, [step], output);
    FoldThroughOneStep(step, [], before);
    assert [step] + [] == [step];
  }

  /** Conversely, every exception of a run is the one raised by some step, unchanged. */
  lemma {:induction false} FailureComesFromAStep(pipeline: seq<Step>, output: Value, e: Exception)
    requires Fold(pipeline, output) == Err(e)
    ensures exists k :: (
      && 0 <= k < |pipeline|
      && Fold(pipeline[..k], output).Ok?
      && Invoke(pipeline[k], Fold(pipeline[..k], output).value) == Err(e))
    decreases |pipeline|
  {
    assert pipeline[..0] == [];
    match Invoke(pipeline[0], output)
    case Err(e') =>
      assert Fold(pipeline[..0], output) == Ok(output);
    case Ok(next) =>
      FailureComesFromAStep(pipeline[1..], next, e);
      var k :| && 0 <= k < |pipeline[1..]|
               && Fold(pipeline[1..][..k], next).Ok?
               && Invoke(pipeline[1..][k], Fold(pipeline[1..][..k], next).value) == Err(e);
      var prefix := pipeline[..k + 1];
      assert prefix[0] == pipeline[0];
      assert prefix[1..] == pipeline[1..][..k];
      assert Fold(prefix, output) == Fold(pipeline[1..][..k], next);
      assert pipeline[k + 1] == pipeline[1..][k];
  }

  /** `CallsAlike(a, b)`: the step cannot tell accumulator `a` from a different accumulator `b`. */
  predicate CallsAlike(a: Value, b: Value)
  {
    || (a == Tuple([b]) && !b.Dict? && !b.Tuple?)   // f(*(v,)) is f(v)
    || (a == Dict(map[]) && b == Tuple([]))          // f(**{}) is f(*())
  }

  /**
   * Two accumulators give the same call exactly when they are equal, or one is
   * a one-element tuple holding the other, or they are the empty dict and the
   * empty tuple.
   */
  lemma DispatchCollisions(a: Value, b: Value)
    ensures Dispatch(a) == Dispatch(b) <==> (a == b || CallsAlike(a, b) || CallsAlike(b, a))
  {
  }

  // ---------------------------------------------------------------------------
  // run_all_pipelines
  // ---------------------------------------------------------------------------

  /** The names of a registry given as its items, in insertion order. */
  function Names(metricsPipelines: seq<(string, seq<Step>)>): set<string>
  {
    set k | 0 <= k < |metricsPipelines| :: metricsPipelines[k].0
  }

  /** A dict has each key once. */
  predicate DistinctNames(metricsPipelines: seq<(string, seq<Step>)>)
  {
    forall i, j :: 0 <= i < j < |metricsPipelines| ==> metricsPipelines[i].0 != metricsPipelines[j].0
  }

  /**
   * `run_all_pipelines`: runs every named pipeline on the same predictions and
   * actual, in the registry's order; the first exception aborts the whole call.
   */
  method RunAllPipelines(metricsPipelines: seq<(string, seq<Step>)>, predictions: Value, actual: Value)
    returns (r: Result<map<string, Value>>)
    requires DistinctNames(metricsPipelines)
    ensures r.Ok? <==> forall k :: 0 <= k < |metricsPipelines| ==> Run(metricsPipelines[k].1, predictions, actual).Ok?
    ensures r.Ok? ==> r.value.Keys == Names(metricsPipelines)
    ensures r.Ok? ==> forall k :: 0 <= k < |metricsPipelines| ==>
      r.value[metricsPipelines[k].0] == Run(metricsPipelines[k].1, predictions, actual).value
    ensures r.Err? ==> exists k :: (
      && 0 <= k < |metricsPipelines|
      && Run(metricsPipelines[k].1, predictions, actual) == Err(r.error)
      && forall j :: 0 <= j < k ==> Run(metricsPipelines[j].1, predictions, actual).Ok?)
  {
    var metricsResults: map<string, Value> := map[];
    for k := 0 to |metricsPipelines|
      invariant metricsResults.Keys == Names(metricsPipelines[..k])
      invariant forall j :: 0 <= j < k ==> Run(metricsPipelines[j].1, predictions, actual).Ok?
      invariant forall j :: 0 <= j < k ==>
        metricsResults[metricsPipelines[j].0] == Run(metricsPipelines[j].1, predictions, actual).value
    {
      var result := RunPipeline(metricsPipelines[k].1, predictions, actual);
      if result.Err? {
        return Err(result.error);
      }
      metricsResults := metricsResults[metricsPipelines[k].0 := result.value];
      assert metricsPipelines[..k + 1] == metricsPipelines[..k] + [metricsPipelines[k]];
    }
    assert metricsPipelines[..|metricsPipelines|] == metricsPipelines;
    return Ok(metricsResults);
  }

  // ---------------------------------------------------------------------------
  // denormalize
  // ---------------------------------------------------------------------------

  /** The installed PV capacity: a scalar constant or a capacity time series. */
  datatype Capacity = Scalar(c: real) | CapacitySeries(series: TimeSeries)

  /**
   * The pandas operations `denormalize` relies on and whose code is not part of
   * this model: the comparison of two index frequencies, `resample(...).ffill()`
   * to a target frequency, and the index-aligned product of two series. The last
   * two may raise.
   */
  datatype SeriesOps = SeriesOps(
    sameFreq: (Freq, Freq) -> bool,
    resampleFfill: (TimeSeries, Freq) -> Result<TimeSeries>,
    multiply: (TimeSeries, TimeSeries) -> Result<TimeSeries>)

  /** `series * c` for a scalar `c`. */
  function Scale(s: TimeSeries, c: real): TimeSeries
  {
    TimeSeries(s.index, s.freq, seq(|s.values|, i requires 0 <= i < |s.values| => c * s.values[i]))
  }

  /** `v` is the series `s` with every value multiplied by `c`, same index and order. */
  predicate ScaledBy(v: Value, s: TimeSeries, c: real)
  {
    && v.Series?
    && v.series.index == s.index
    && v.series.freq == s.freq
    && |v.series.values| == |s.values|
    && forall i :: 0 <= i < |s.values| ==> v.series.values[i] == c * s.values[i]
  }

  /**
   * `cap` is the capacity series `denormalize` multiplies by: `capacity` resampled
   * to `actual`'s frequency when the two frequencies differ, `capacity` itself otherwise.
   */
  predicate CapacityUsed(capacity: TimeSeries, actual: TimeSeries, ops: SeriesOps, cap: TimeSeries)
  {
    if ops.sameFreq(capacity.freq, actual.freq) then cap == capacity
    else ops.resampleFfill(capacity, actual.freq) == Ok(cap)
  }

  /** `denormalize(predictions, actual, pv_capacity)`. */
  function Denormalize(predictions: TimeSeries, actual: TimeSeries, pvCapacity: Capacity, ops: SeriesOps): (r: Result<Value>)
    ensures r.Ok? ==> r.value.Dict? && r.value.entries.Keys == {"predictions", "actual"}
    ensures pvCapacity.Scalar? ==> (
      && r.Ok?
      && ScaledBy(r.value.entries["predictions"], predictions, pvCapacity.c)
      && ScaledBy(r.value.entries["actual"], actual, pvCapacity.c))
    ensures pvCapacity.CapacitySeries? && r.Ok? ==> exists cap :: (
      && CapacityUsed(pvCapacity.series, actual, ops, cap)
      && r.value.entries["predictions"].Series?
      && r.value.entries["actual"].Series?
      && ops.multiply(predictions, cap) == Ok(r.value.entries["predictions"].series)
      && ops.multiply(actual, cap) == Ok(r.value.entries["actual"].series))
    ensures r.Err? ==> (
      && pvCapacity.CapacitySeries?
      && (|| (!ops.sameFreq(pvCapacity.series.freq, actual.freq)
          && ops.resampleFfill(pvCapacity.series, actual.freq) == Err(r.error))
      || exists cap :: (
        && CapacityUsed(pvCapacity.series, actual, ops, cap)
        && (|| ops.multiply(predictions, cap) == Err(r.error)
            || (ops.multiply(predictions, cap).Ok? && ops.multiply(actual, cap) == Err(r.error))))))
  {
    match pvCapacity
    case Scalar(c) =>
      Ok(Dict(PredictionsAndActual(Series(Scale(predictions, c)), Series(Scale(actual, c)))))
    case CapacitySeries(capacity) =>
      var resampled :=
        if !ops.sameFreq(capacity.freq, actual.freq) then ops.resampleFfill(capacity, actual.freq) else Ok(capacity);
      match resampled
      case Err(e) => Err(e)
      case Ok(cap) =>
        assert CapacityUsed(capacity, actual, ops, cap);
        match ops.multiply(predictions, cap)
        case Err(e) => Err(e)
        case Ok(predictionsDenorm) =>
          match ops.multiply(actual, cap)
          case Err(e) => Err(e)
          case Ok(actualDenorm) =>
            Ok(Dict(PredictionsAndActual(Series(predictionsDenorm), Series(actualDenorm))))
  }

  /**
   * Binding a call to the parameters `(predictions, actual)` of `denormalize`
   * (its `pv_capacity` is bound in advance): positionally, by keyword, or
   * the first positionally and the second by keyword; both must be series.
   */
  function BindSeriesPair(call: Call): (r: Result<(TimeSeries, TimeSeries)>)
    ensures r.Err? ==> r.error.kind == "TypeError"
    ensures r.Ok? ==> |call.args| + |call.kwargs| == 2 && call.kwargs.Keys <= {"predictions", "actual"}
    ensures r.Ok? && |call.args| >= 1 ==> call.args[0] == Series(r.value.0)
    ensures r.Ok? && |call.args| == 0 ==> "predictions" in call.kwargs && call.kwargs["predictions"] == Series(r.value.0)
    ensures r.Ok? && |call.args| == 2 ==> call.args[1] == Series(r.value.1)
    ensures r.Ok? && |call.args| < 2 ==> "actual" in call.kwargs && call.kwargs["actual"] == Series(r.value.1)
    ensures forall p, a :: call == Call([], PredictionsAndActual(Series(p), Series(a))) ==> r == Ok((p, a))
    ensures forall p, a :: call == Call([Series(p), Series(a)], map[]) ==> r == Ok((p, a))
    ensures forall p, a :: call == Call([Series(p)], map["actual" := Series(a)]) ==> r == Ok((p, a))
    ensures |call.args| + |call.kwargs| != 2 ==> r.Err?
  {
    var bound :=
      if call.args == [] && call.kwargs.Keys == {"predictions", "actual"} then
        Ok((call.kwargs["predictions"], call.kwargs["actual"]))
      else if |call.args| == 1 && call.kwargs.Keys == {"actual"} then
        Ok((call.args[0], call.kwargs["actual"]))
      else if |call.args| == 2 && call.kwargs == map[] then
        Ok((call.args[0], call.args[1]))
      else
        Err(Exception("TypeError", "denormalize() expects exactly the arguments predictions and actual"));
    match bound
    case Err(e) => Err(e)
    case Ok(pair) =>
      if pair.0.Series? && pair.1.Series? then Ok((pair.0.series, pair.1.series))
      else Err(Exception("TypeError", "denormalize() expects two series"))
  }

  /** `denormalize` with its capacity bound, as a pipeline step. */
  function DenormalizeStep(pvCapacity: Capacity, ops: SeriesOps): Step
  {
    (call: Call) =>
      match BindSeriesPair(call)
      case Err(e) => Err(e)
      case Ok(pair) => Denormalize(pair.0, pair.1, pvCapacity, ops)
  }

  /**
   * The `denormalize` step called with the keyword bag or with the positional
   * pair of two series is `denormalize` of them; called with a single value it raises.
   */
  lemma DenormalizeStepCalls(pvCapacity: Capacity, ops: SeriesOps, predictions: TimeSeries, actual: TimeSeries, v: Value)
    ensures DenormalizeStep(pvCapacity, ops)(Call([], PredictionsAndActual(Series(predictions), Series(actual))))
         == Denormalize(predictions, actual, pvCapacity, ops)
    ensures DenormalizeStep(pvCapacity, ops)(Call([Series(predictions), Series(actual)], map[]))
         == Denormalize(predictions, actual, pvCapacity, ops)
    ensures !v.Dict? && !v.Tuple? ==> DenormalizeStep(pvCapacity, ops)(Dispatch(v)).Err?
  {
    assert BindSeriesPair(Call([], PredictionsAndActual(Series(predictions), Series(actual)))) == Ok((predictions, actual));
    assert BindSeriesPair(Call([Series(predictions), Series(actual)], map[])) == Ok((predictions, actual));
    if !v.Dict? && !v.Tuple? {
      assert BindSeriesPair(Dispatch(v)).Err?;
    }
  }

  /** With a scalar capacity the pandas operations are never used. */
  lemma ScalarCapacityNeedsNoResample(predictions: TimeSeries, actual: TimeSeries, c: real, ops: SeriesOps, ops': SeriesOps)
    ensures Denormalize(predictions, actual, Scalar(c), ops) == Denormalize(predictions, actual, Scalar(c), ops')
  {
  }

  /**
   * A capacity series already at `actual`'s frequency is used as it is, without
   * resampling; `denormalize` then succeeds exactly when both products do.
   */
  lemma SameFrequencyNeedsNoResample(predictions: TimeSeries, actual: TimeSeries, capacity: TimeSeries, ops: SeriesOps, ops': SeriesOps)
    requires ops.sameFreq(capacity.freq, actual.freq) && ops'.sameFreq(capacity.freq, actual.freq)
    requires ops.multiply == ops'.multiply
    ensures Denormalize(predictions, actual, CapacitySeries(capacity), ops)
         == Denormalize(predictions, actual, CapacitySeries(capacity), ops')
    ensures Denormalize(predictions, actual, CapacitySeries(capacity), ops).Ok?
        <==> ops.multiply(predictions, capacity).Ok? && ops.multiply(actual, capacity).Ok?
  {
  }

  /**
   * With a capacity series at another frequency, a failed resample is the
   * result of `denormalize`, unchanged; a successful one is what both series
   * are multiplied by.
   */
  lemma ResampleFailurePropagates(predictions: TimeSeries, actual: TimeSeries, capacity: TimeSeries, ops: SeriesOps)
    requires !ops.sameFreq(capacity.freq, actual.freq)
    ensures ops.resampleFfill(capacity, actual.freq).Err? ==>
      Denormalize(predictions, actual, CapacitySeries(capacity), ops) == Err(ops.resampleFfill(capacity, actual.freq).error)
    ensures ops.resampleFfill(capacity, actual.freq).Ok? ==> (
      var cap := ops.resampleFfill(capacity, actual.freq).value;
      (Denormalize(predictions, actual, CapacitySeries(capacity), ops).Ok?
       <==> ops.multiply(predictions, cap).Ok? && ops.multiply(actual, cap).Ok?))
  {
  }

  /** The step after `denormalize` is called with `predictions` and `actual` as keyword arguments. */
  lemma DenormalizeThenKeywords(pvCapacity: Capacity, ops: SeriesOps, next: Step, predictions: TimeSeries, actual: TimeSeries)
    ensures Run([DenormalizeStep(pvCapacity, ops), next], Series(predictions), Series(actual))
         == match Denormalize(predictions, actual, pvCapacity, ops)
            case Err(e) => Err(e)
            case Ok(bag) => next(Call([], bag.entries))
  {
    RunTwoSteps(DenormalizeStep(pvCapacity, ops), next, Series(predictions), Series(actual));
    DenormalizeStepCalls(pvCapacity, ops, predictions, actual, Number(0.0));
  }

  /** Two scalar denormalize steps in a row scale by the product of the capacities. */
  lemma DenormalizeTwice(c1: real, c2: real, ops: SeriesOps, predictions: TimeSeries, actual: TimeSeries)
    ensures Run([DenormalizeStep(Scalar(c1), ops), DenormalizeStep(Scalar(c2), ops)], Series(predictions), Series(actual)).Ok?
    ensures var out := Run([DenormalizeStep(Scalar(c1), ops), DenormalizeStep(Scalar(c2), ops)], Series(predictions), Series(actual)).value;
      && out.Dict?
      && out.entries.Keys == {"predictions", "actual"}
      && ScaledBy(out.entries["predictions"], predictions, c2 * c1)
      && ScaledBy(out.entries["actual"], actual, c2 * c1)
  {
    var d1, d2 := DenormalizeStep(Scalar(c1), ops), DenormalizeStep(Scalar(c2), ops);
    DenormalizeThenKeywords(Scalar(c1), ops, d2, predictions, actual);
    var p1, a1 := Scale(predictions, c1), Scale(actual, c1);
    assert Denormalize(predictions, actual, Scalar(c1), ops) == Ok(Dict(PredictionsAndActual(Series(p1), Series(a1))));
    DenormalizeStepCalls(Scalar(c2), ops, p1, a1, Number(0.0));
    var p2, a2 := Scale(p1, c2), Scale(a1, c2);
    assert Denormalize(p1, a1, Scalar(c2), ops) == Ok(Dict(PredictionsAndActual(Series(p2), Series(a2))));
    ScaleTwice(predictions, c1, c2);
    ScaleTwice(actual, c1, c2);
  }

  /** Scaling by `c1` and then by `c2` scales by `c2 * c1`. */
  lemma ScaleTwice(s: TimeSeries, c1: real, c2: real)
    ensures ScaledBy(Series(Scale(Scale(s, c1), c2)), s, c2 * c1)
  {
  }
}

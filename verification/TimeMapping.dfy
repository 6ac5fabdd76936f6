/**
 alignment/mapping.mjs: collapsing a warping path to a mapping, and reading the mapping forwards
 and backwards as a piecewise-linear function of time.
 */
module TimeMapping {
  import opened AlignmentErrors
  import opened Simplify
  import RealMath

  /** One pair of a piecewise-linear function. */
  datatype Knot = Knot(input: real, output: real)

  // ---- runs of equal inputs ------------------------------------------------------------------

  /** Inputs and outputs never fall. */
  ghost predicate Monotone(knots: seq<Knot>) {
    forall i, j | 0 <= i < j < |knots| ::
      knots[i].input <= knots[j].input && knots[i].output <= knots[j].output
  }

  /** One past the last index of the run of equal inputs that contains `i`. */
  function RunEnd(knots: seq<Knot>, i: nat): (r: nat)
    requires i < |knots|
    ensures i < r <= |knots|
    ensures forall k | i <= k < r :: knots[k].input == knots[i].input
    ensures r < |knots| ==> knots[r].input != knots[i].input
    decreases |knots| - i
  {
    if i + 1 < |knots| && knots[i + 1].input == knots[i].input then RunEnd(knots, i + 1) else i + 1
  }

  function SumOutputs(knots: seq<Knot>, begin: nat, stop: nat): real
    requires begin <= stop <= |knots|
    decreases stop
  {
    if begin == stop then 0.0 else SumOutputs(knots, begin, stop - 1) + knots[stop - 1].output
  }

  function Mean(knots: seq<Knot>, begin: nat, stop: nat): real
    requires begin < stop <= |knots|
  {
    SumOutputs(knots, begin, stop) / (stop - begin) as real
  }

  lemma {:induction false} SumBetween(knots: seq<Knot>, begin: nat, stop: nat, low: real, high: real)
    requires begin <= stop <= |knots|
    requires forall k | begin <= k < stop :: low <= knots[k].output <= high
    ensures (stop - begin) as real * low <= SumOutputs(knots, begin, stop) <= (stop - begin) as real * high
    decreases stop
  {
    if begin < stop {
      SumBetween(knots, begin, stop - 1, low, high);
      var n := (stop - 1 - begin) as real;
      assert (stop - begin) as real == n + 1.0;
      assert (n + 1.0) * low == n * low + low;
      assert (n + 1.0) * high == n * high + high;
    }
  }

  lemma MeanBetween(knots: seq<Knot>, begin: nat, stop: nat, low: real, high: real)
    requires begin < stop <= |knots|
    requires forall k | begin <= k < stop :: low <= knots[k].output <= high
    ensures low <= Mean(knots, begin, stop) <= high
  {
    SumBetween(knots, begin, stop, low, high);
    var n := (stop - begin) as real;
    var sum := SumOutputs(knots, begin, stop);
    var mean := sum / n;
    assert n * mean == sum;
    if mean < low {
      RealMath.MulKeepsLess(mean, low, n);
    }
    if high < mean {
      RealMath.MulKeepsLess(high, mean, n);
    }
  }

  /** The mean, taken once for every output it stands for, makes up for them all. */
  lemma MeanBalances(knots: seq<Knot>, begin: nat, middle: nat, stop: nat)
    requires begin < middle < stop <= |knots|
    ensures Mean(knots, begin, begin + 1) == knots[begin].output
    ensures Mean(knots, begin, stop) * (stop - begin) as real
      == Mean(knots, begin, middle) * (middle - begin) as real + Mean(knots, middle, stop) * (stop - middle) as real
  {
    assert SumOutputs(knots, begin, begin + 1) == SumOutputs(knots, begin, begin) + knots[begin].output;
    SumsAdd(knots, begin, middle, stop);
    MeanTimesCount(knots, begin, stop);
    MeanTimesCount(knots, begin, middle);
    MeanTimesCount(knots, middle, stop);
  }

  lemma MeanTimesCount(knots: seq<Knot>, begin: nat, stop: nat)
    requires begin < stop <= |knots|
    ensures Mean(knots, begin, stop) * (stop - begin) as real == SumOutputs(knots, begin, stop)
  {
    var n, sum := (stop - begin) as real, SumOutputs(knots, begin, stop);
    assert sum / n * n == sum;
  }

  lemma {:induction false} SumsAdd(knots: seq<Knot>, begin: nat, middle: nat, stop: nat)
    requires begin <= middle <= stop <= |knots|
    ensures SumOutputs(knots, begin, stop) == SumOutputs(knots, begin, middle) + SumOutputs(knots, middle, stop)
    decreases stop
  {
    if middle < stop {
      SumsAdd(knots, begin, middle, stop - 1);
    }
  }

  /** One knot for each run of equal inputs from `i` on: the input and the mean of the outputs. */
  function RunMeans(knots: seq<Knot>, i: nat): seq<Knot>
    requires i <= |knots|
    decreases |knots| - i
  {
    if i == |knots| then []
    else
      var end := RunEnd(knots, i);
      [Knot(knots[i].input, Mean(knots, i, end))] + RunMeans(knots, end)
  }

  /** A mean lies between the outputs of its own run, and so does not pass the next run's. */
  lemma {:induction false} RunMeansShape(knots: seq<Knot>, i: nat)
    requires Monotone(knots) && i < |knots|
    ensures var means := RunMeans(knots, i);
      && |means| >= 1 && means[0].input == knots[i].input
      && means[|means| - 1].input == knots[|knots| - 1].input
      && (forall k | 0 <= k < |means| :: means[k].input >= knots[i].input && means[k].output >= knots[i].output)
      && (forall j, k | 0 <= j < k < |means| ::
            means[j].input < means[k].input && means[j].output <= means[k].output)
    decreases |knots| - i
  {
    var end := RunEnd(knots, i);
    MeanBetween(knots, i, end, knots[i].output, knots[end - 1].output);
    if end < |knots| {
      RunMeansShape(knots, end);
      assert knots[i].input < knots[end].input;
    }
  }

  /** Every input keeps its place, with the mean over its whole run as output. */
  lemma {:induction false} RunMeansCover(knots: seq<Knot>, i: nat, at: nat) returns (j: nat, begin: nat, stop: nat)
    requires i <= at < |knots|
    ensures j < |RunMeans(knots, i)| && begin <= at < stop <= |knots|
    ensures RunMeans(knots, i)[j] == Knot(knots[at].input, Mean(knots, begin, stop))
    ensures forall k | begin <= k < stop :: knots[k].input == knots[at].input
    decreases |knots| - i
  {
    var end := RunEnd(knots, i);
    if at < end {
      j, begin, stop := 0, i, end;
    } else {
      j, begin, stop := RunMeansCover(knots, end, at);
      j := j + 1;
    }
  }

  lemma RunOfOne(knots: seq<Knot>, i: nat)
    requires i < |knots| && (i + 1 < |knots| ==> knots[i].input < knots[i + 1].input)
    ensures RunEnd(knots, i) == i + 1 && Mean(knots, i, i + 1) == knots[i].output
  {
    assert SumOutputs(knots, i, i + 1) == SumOutputs(knots, i, i) + knots[i].output;
  }

  /** Without equal inputs there is nothing to average. */
  lemma {:induction false} RunMeansOfStrict(knots: seq<Knot>, i: nat)
    requires i <= |knots|
    requires forall j, k | 0 <= j < k < |knots| :: knots[j].input < knots[k].input
    ensures RunMeans(knots, i) == knots[i..]
    decreases |knots| - i
  {
    if i < |knots| {
      RunMeansOfStrict(knots, i + 1);
      RunOfOne(knots, i);
      assert knots[i..] == [knots[i]] + knots[i + 1..];
    }
  }

  /** The inner loop of both run-collapsing loops. */
  method AverageRun(knots: seq<Knot>, start: nat) returns (mean: real, index: nat)
    requires start < |knots|
    ensures index == RunEnd(knots, start)
    ensures mean == Mean(knots, start, index)
  {
    var input, total, count := knots[start].input, 0.0, 0;
    index := start;
    while index < |knots| && knots[index].input == input
      invariant start <= index <= |knots| && count == index - start
      invariant forall k | start <= k < index :: knots[k].input == input
      invariant total == SumOutputs(knots, start, index)
    {
      total := total + knots[index].output;
      count := count + 1;
      index := index + 1;
    }
    mean := total / count as real;
  }

  lemma RunMeanFits(knots: seq<Knot>, begin: nat, stop: nat)
    requires Monotone(knots) && begin < stop <= |knots|
    ensures knots[begin].output <= Mean(knots, begin, stop)
    ensures stop < |knots| ==> Mean(knots, begin, stop) <= knots[stop].output
  {
    MeanBetween(knots, begin, stop, knots[begin].output, knots[stop - 1].output);
  }

  function Larger(a: real, b: real): real { if a > b then a else b }

  lemma Regrouped<T>(a: seq<T>, b: seq<T>, c: seq<T>)
    ensures a + (b + c) == (a + b) + c
  {
  }

  /**
   The collapsing loop of `buildTimeMapping`. Taking the maximum with the previous point changes
   nothing on a monotone path: the result is the plain mean of every run.
   */
  method Collapse(path: seq<Knot>) returns (collapsed: seq<Knot>)
    requires Monotone(path)
    ensures collapsed == RunMeans(path, 0)
  {
    collapsed := [];
    var index := 0;
    while index < |path|
      invariant 0 <= index <= |path|
      invariant collapsed + RunMeans(path, index) == RunMeans(path, 0)
      invariant collapsed != [] && index < |path| ==> collapsed[|collapsed| - 1].output <= path[index].output
    {
      var mean, next := AverageRun(path, index);
      RunMeanFits(path, index, next);
      var input := path[index].input;
      var output := if collapsed == [] then mean else Larger(collapsed[|collapsed| - 1].output, mean);
      assert RunMeans(path, index) == [Knot(input, mean)] + RunMeans(path, next);
      Regrouped(collapsed, [Knot(input, mean)], RunMeans(path, next));
      collapsed := collapsed + [Knot(input, output)];
      index := next;
    }
  }

  // ---- the piecewise-linear function ---------------------------------------------------------

  datatype Extrapolation = Clamp | Linear | Error

  /** What `normalizePoints` guarantees of either direction. */
  ghost predicate Rising(knots: seq<Knot>) {
    && |knots| >= 2
    && (forall i, j | 0 <= i < j < |knots| ::
          knots[i].input < knots[j].input && knots[i].output <= knots[j].output)
  }

  function LineThrough(a: Knot, b: Knot, at: real): real
    requires a.input != b.input
  {
    a.output + (b.output - a.output) * ((at - a.input) / (b.input - a.input))
  }

  /** The first knot, from `low` on, that is not before `value`; the last knot if none is. */
  function SegmentFrom(knots: seq<Knot>, value: real, low: nat): (r: nat)
    requires 1 <= low < |knots|
    ensures low <= r < |knots|
    ensures r == |knots| - 1 || value <= knots[r].input
    ensures forall k | low <= k < r :: knots[k].input < value
    decreases |knots| - low
  {
    if low == |knots| - 1 || value <= knots[low].input then low else SegmentFrom(knots, value, low + 1)
  }

  /** The line used at `value`; outside the knots it is the first or the last one. */
  function LinearAt(knots: seq<Knot>, value: real): real
    requires Rising(knots)
  {
    var i := SegmentFrom(knots, value, 1);
    LineThrough(knots[i - 1], knots[i], value)
  }

  function Interpolated(knots: seq<Knot>, value: real, extrapolation: Extrapolation): Result<real>
    requires Rising(knots)
  {
    var first, last := knots[0], knots[|knots| - 1];
    if first.input <= value <= last.input || extrapolation.Linear? then Ok(LinearAt(knots, value))
    else if extrapolation.Error? then Err(OutsideMapping)
    else Ok(if value < first.input then first.output else last.output)
  }

  lemma LineEnds(a: Knot, b: Knot)
    requires a.input < b.input
    ensures LineThrough(a, b, a.input) == a.output
    ensures LineThrough(a, b, b.input) == b.output
  {
    assert (b.input - a.input) / (b.input - a.input) == 1.0;
  }

  lemma LineRises(a: Knot, b: Knot, v: real, w: real)
    requires a.input < b.input && a.output <= b.output && v <= w
    ensures LineThrough(a, b, v) <= LineThrough(a, b, w)
  {
    var span := b.input - a.input;
    if v < w {
      RealMath.DivKeepsLess(v - a.input, w - a.input, span);
    }
    RealMath.MulKeepsAtMost((v - a.input) / span, (w - a.input) / span, b.output - a.output);
  }

  /** Every segment that contains `value` gives the same result. */
  lemma OnSegment(knots: seq<Knot>, value: real, i: nat)
    requires Rising(knots) && 1 <= i < |knots|
    requires i == 1 || knots[i - 1].input <= value
    requires i == |knots| - 1 || value <= knots[i].input
    ensures LinearAt(knots, value) == LineThrough(knots[i - 1], knots[i], value)
  {
    var s := SegmentFrom(knots, value, 1);
    if s < i {
      assert s == i - 1 && value == knots[s].input;
      LineEnds(knots[s - 1], knots[s]);
      LineEnds(knots[i - 1], knots[i]);
    }
  }

  lemma AtKnot(knots: seq<Knot>, k: nat)
    requires Rising(knots) && k < |knots|
    ensures LinearAt(knots, knots[k].input) == knots[k].output
  {
    var i := if k == 0 then 1 else k;
    OnSegment(knots, knots[k].input, i);
    LineEnds(knots[i - 1], knots[i]);
  }

  /** The extended piecewise-linear function never falls, on the whole line. */
  lemma LinearAtRises(knots: seq<Knot>, v: real, w: real)
    requires Rising(knots) && v <= w
    ensures LinearAt(knots, v) <= LinearAt(knots, w)
  {
    var i, j := SegmentFrom(knots, v, 1), SegmentFrom(knots, w, 1);
    if i == j {
      LineRises(knots[i - 1], knots[i], v, w);
    } else {
      assert i < j;
      LineRises(knots[i - 1], knots[i], v, knots[i].input);
      LineRises(knots[j - 1], knots[j], knots[j - 1].input, w);
      LineEnds(knots[i - 1], knots[i]);
      LineEnds(knots[j - 1], knots[j]);
    }
  }

  /** Clamping is reading the extended function at the nearest end. */
  lemma ClampReadsEnds(knots: seq<Knot>, value: real)
    requires Rising(knots)
    ensures Interpolated(knots, value, Clamp).Ok?
    ensures var first, last := knots[0].input, knots[|knots| - 1].input;
      Interpolated(knots, value, Clamp).value
        == LinearAt(knots, if value < first then first else if value > last then last else value)
  {
    AtKnot(knots, 0);
    AtKnot(knots, |knots| - 1);
  }

  /** Monotone on the whole line, clamped or extrapolated. */
  lemma InterpolatedRises(knots: seq<Knot>, v: real, w: real, extrapolation: Extrapolation)
    requires Rising(knots) && v <= w && !extrapolation.Error?
    ensures Interpolated(knots, v, extrapolation).Ok? && Interpolated(knots, w, extrapolation).Ok?
    ensures Interpolated(knots, v, extrapolation).value <= Interpolated(knots, w, extrapolation).value
  {
    if extrapolation.Linear? {
      LinearAtRises(knots, v, w);
    } else {
      var first, last := knots[0].input, knots[|knots| - 1].input;
      ClampReadsEnds(knots, v);
      ClampReadsEnds(knots, w);
      LinearAtRises(knots,
        if v < first then first else if v > last then last else v,
        if w < first then first else if w > last then last else w);
    }
  }

  /** The quotient the program forms beyond an end knot, from the two knots of the end segment. */
  function Beyond(end: Knot, a: Knot, b: Knot, at: real): real
    requires a.input != b.input
  {
    end.output + ((at - end.input) * (b.output - a.output)) / (b.input - a.input)
  }

  /** Beyond the first and the last knot, that quotient is the end line. */
  lemma FirstFormula(knots: seq<Knot>, at: real)
    requires Rising(knots) && at <= knots[0].input
    ensures Beyond(knots[0], knots[0], knots[1], at) == LinearAt(knots, at)
  {
    var first, next := knots[0], knots[1];
    OnSegment(knots, at, 1);
    Reassociate(at - first.input, next.output - first.output, next.input - first.input);
  }

  lemma LastFormula(knots: seq<Knot>, at: real)
    requires Rising(knots) && at >= knots[|knots| - 1].input
    ensures Beyond(knots[|knots| - 1], knots[|knots| - 2], knots[|knots| - 1], at) == LinearAt(knots, at)
  {
    var last, previous := knots[|knots| - 1], knots[|knots| - 2];
    OnSegment(knots, at, |knots| - 1);
    var span, rise := last.input - previous.input, last.output - previous.output;
    Reassociate(at - last.input, rise, span);
    assert (at - previous.input) / span == (at - last.input) / span + span / span;
    assert rise * ((at - last.input) / span + 1.0) == rise * ((at - last.input) / span) + rise;
  }

  lemma Reassociate(x: real, y: real, z: real)
    requires z != 0.0
    ensures (x * y) / z == y * (x / z)
  {
  }

  /** `interpolatePoints`: the binary search and the end formulas compute the function above. */
  method InterpolatePoints(points: seq<Knot>, value: real, extrapolation: Extrapolation) returns (r: Result<real>)
    requires Rising(points)
    ensures r == Interpolated(points, value, extrapolation)
  {
    var first, last := points[0], points[|points| - 1];
    AtKnot(points, 0);
    AtKnot(points, |points| - 1);
    if value <= first.input {
      if value == first.input || extrapolation == Clamp {
        return Ok(first.output);
      }
      if extrapolation == Error {
        return Err(OutsideMapping);
      }
      var next := points[1];
      FirstFormula(points, value);
      return Ok(Beyond(first, first, next, value));
    }
    if value >= last.input {
      if value == last.input || extrapolation == Clamp {
        return Ok(last.output);
      }
      if extrapolation == Error {
        return Err(OutsideMapping);
      }
      var previous := points[|points| - 2];
      LastFormula(points, value);
      return Ok(Beyond(last, previous, last, value));
    }
    var low := FindSegment(points, value);
    OnSegment(points, value, low);
    return Ok(LineThrough(points[low - 1], points[low], value));
  }

  /** The binary search of `interpolatePoints`. */
  method FindSegment(points: seq<Knot>, value: real) returns (low: nat)
    requires Rising(points) && points[0].input < value < points[|points| - 1].input
    ensures 1 <= low < |points| && points[low - 1].input < value <= points[low].input
  {
    low := 1;
    var high := |points| - 1;
    while low < high
      invariant 1 <= low <= high < |points|
      invariant points[low - 1].input < value <= points[high].input
    {
      var middle := (low + high) / 2;
      if points[middle].input < value {
        low := middle + 1;
      } else {
        high := middle;
      }
    }
  }

  // ---- mappings ------------------------------------------------------------------------------

  /** REF strictly rising, DUT never falling, checked between neighbours as the program does. */
  predicate MappingValid(points: seq<Point>) {
    && |points| >= 2
    && (forall i | 0 < i < |points| ::
          points[i].refTime > points[i - 1].refTime && points[i].dutTime >= points[i - 1].dutTime)
  }

  lemma {:induction false} MappingOrder(points: seq<Point>, i: nat, j: nat)
    requires MappingValid(points) && i < j < |points|
    ensures points[i].refTime < points[j].refTime && points[i].dutTime <= points[j].dutTime
    decreases j
  {
    if i < j - 1 {
      MappingOrder(points, i, j - 1);
    }
  }

  function ForwardKnots(points: seq<Point>): (r: seq<Knot>)
    ensures |r| == |points|
    ensures forall i | 0 <= i < |points| :: r[i] == Knot(points[i].refTime, points[i].dutTime)
  {
    seq(|points|, i requires 0 <= i < |points| => Knot(points[i].refTime, points[i].dutTime))
  }

  function SwappedKnots(points: seq<Point>): (r: seq<Knot>)
    ensures |r| == |points|
    ensures forall i | 0 <= i < |points| :: r[i] == Knot(points[i].dutTime, points[i].refTime)
  {
    seq(|points|, i requires 0 <= i < |points| => Knot(points[i].dutTime, points[i].refTime))
  }

  function InverseKnots(points: seq<Point>): seq<Knot> {
    RunMeans(SwappedKnots(points), 0)
  }

  lemma ForwardRises(points: seq<Point>)
    requires MappingValid(points)
    ensures Rising(ForwardKnots(points))
  {
    forall i, j | 0 <= i < j < |points|
      ensures points[i].refTime < points[j].refTime && points[i].dutTime <= points[j].dutTime
    {
      MappingOrder(points, i, j);
    }
  }

  lemma SwappedIsMonotone(points: seq<Point>)
    requires MappingValid(points)
    ensures Monotone(SwappedKnots(points))
  {
    ForwardRises(points);
  }

  lemma InverseRises(points: seq<Point>)
    requires MappingValid(points) && |InverseKnots(points)| >= 2
    ensures Rising(InverseKnots(points))
  {
    SwappedIsMonotone(points);
    RunMeansShape(SwappedKnots(points), 0);
  }

  /** The inverse has the DUT ends of the mapping, and two knots or more exactly when they differ. */
  lemma {:induction false} InverseSpansDut(points: seq<Point>)
    requires MappingValid(points)
    ensures var inverse := InverseKnots(points);
      && |inverse| >= 1 && inverse[0].input == points[0].dutTime
      && inverse[|inverse| - 1].input == points[|points| - 1].dutTime
      && (|inverse| >= 2 <==> points[0].dutTime < points[|points| - 1].dutTime)
  {
    SwappedIsMonotone(points);
    RunMeansShape(SwappedKnots(points), 0);
  }

  /** The value of `mapRefToDut`. */
  ghost function RefToDut(points: seq<Point>, time: real, extrapolation: Extrapolation): Result<real> {
    if !MappingValid(points) then Err(InvalidMapping)
    else
      ForwardRises(points);
      Interpolated(ForwardKnots(points), time, extrapolation)
  }

  /** The value of `mapDutToRef`; a mapping with a single DUT time has no inverse. */
  ghost function DutToRef(points: seq<Point>, time: real, extrapolation: Extrapolation): Result<real> {
    if !MappingValid(points) || |InverseKnots(points)| < 2 then Err(InvalidMapping)
    else
      InverseRises(points);
      Interpolated(InverseKnots(points), time, extrapolation)
  }

  lemma LineIsChord(a: Point, b: Point, at: real)
    requires a.refTime < b.refTime
    ensures LineThrough(Knot(a.refTime, a.dutTime), Knot(b.refTime, b.dutTime), at) == Chord(a, b, at)
  {
  }

  /** Outside the REF range: an error, the nearer end, or the line of the nearer segment. */
  lemma OutsideForwards(points: seq<Point>, time: real, extrapolation: Extrapolation)
    requires MappingValid(points)
    requires time < points[0].refTime || time > points[|points| - 1].refTime
    ensures var n := |points|; var r := RefToDut(points, time, extrapolation);
      var b := if time < points[0].refTime then 1 else n - 1;
      && (extrapolation.Error? ==> r == Err(OutsideMapping))
      && (extrapolation.Clamp? ==>
            r == Ok(if time < points[0].refTime then points[0].dutTime else points[n - 1].dutTime))
      && (extrapolation.Linear? ==> r == Ok(Chord(points[b - 1], points[b], time)))
  {
    ForwardRises(points);
    var knots, n := ForwardKnots(points), |points|;
    MappingOrder(points, 0, n - 1);
    var b := if time < points[0].refTime then 1 else n - 1;
    MappingOrder(points, b - 1, b);
    if extrapolation.Linear? {
      assert SegmentFrom(knots, time, 1) == b;
      LineIsChord(points[b - 1], points[b], time);
    }
  }

  method CheckPoints(points: seq<Point>) returns (valid: bool)
    ensures valid <==> MappingValid(points)
  {
    if |points| < 2 {
      return false;
    }
    var i := 1;
    while i < |points|
      invariant 1 <= i <= |points|
      invariant forall k | 0 < k < i ::
        points[k].refTime > points[k - 1].refTime && points[k].dutTime >= points[k - 1].dutTime
    {
      if !(points[i].refTime > points[i - 1].refTime && points[i].dutTime >= points[i - 1].dutTime) {
        return false;
      }
      i := i + 1;
    }
    return true;
  }

  method MapRefToDut(points: seq<Point>, time: real, extrapolation: Extrapolation) returns (r: Result<real>)
    ensures r == RefToDut(points, time, extrapolation)
  {
    var valid := CheckPoints(points);
    if !valid {
      return Err(InvalidMapping);
    }
    ForwardRises(points);
    r := InterpolatePoints(ForwardKnots(points), time, extrapolation);
  }

  /** The run-averaging loop of `normalizePoints`. */
  method AverageRuns(source: seq<Knot>) returns (inverse: seq<Knot>)
    ensures inverse == RunMeans(source, 0)
  {
    inverse := [];
    var index := 0;
    while index < |source|
      invariant 0 <= index <= |source|
      invariant inverse + RunMeans(source, index) == RunMeans(source, 0)
    {
      var mean, next := AverageRun(source, index);
      assert inverse + RunMeans(source, index)
          == inverse + [Knot(source[index].input, mean)] + RunMeans(source, next);
      inverse := inverse + [Knot(source[index].input, mean)];
      index := next;
    }
  }

  method MapDutToRef(points: seq<Point>, time: real, extrapolation: Extrapolation) returns (r: Result<real>)
    ensures r == DutToRef(points, time, extrapolation)
  {
    var valid := CheckPoints(points);
    if !valid {
      return Err(InvalidMapping);
    }
    var inverse := AverageRuns(SwappedKnots(points));
    if |inverse| < 2 {
      return Err(InvalidMapping);
    }
    InverseRises(points);
    r := InterpolatePoints(inverse, time, extrapolation);
  }

  // ---- what the mapping promises -------------------------------------------------------------

  /** Forwards, the mapping is defined everywhere and never runs backwards. */
  lemma RefToDutRises(points: seq<Point>, v: real, w: real, extrapolation: Extrapolation)
    requires MappingValid(points) && v <= w && !extrapolation.Error?
    ensures RefToDut(points, v, extrapolation).Ok? && RefToDut(points, w, extrapolation).Ok?
    ensures RefToDut(points, v, extrapolation).value <= RefToDut(points, w, extrapolation).value
  {
    ForwardRises(points);
    InterpolatedRises(ForwardKnots(points), v, w, extrapolation);
  }

  /** Backwards too, whenever there are two DUT times to distinguish. */
  lemma DutToRefRises(points: seq<Point>, v: real, w: real, extrapolation: Extrapolation)
    requires MappingValid(points) && v <= w && !extrapolation.Error?
    requires points[0].dutTime < points[|points| - 1].dutTime
    ensures DutToRef(points, v, extrapolation).Ok? && DutToRef(points, w, extrapolation).Ok?
    ensures DutToRef(points, v, extrapolation).value <= DutToRef(points, w, extrapolation).value
  {
    SwappedIsMonotone(points);
    RunMeansShape(SwappedKnots(points), 0);
    InverseRises(points);
    InterpolatedRises(InverseKnots(points), v, w, extrapolation);
  }

  function Swap(k: Knot): Knot { Knot(k.output, k.input) }

  lemma LineInverts(a: Knot, b: Knot, at: real)
    requires a.input < b.input && a.output < b.output
    ensures LineThrough(Swap(a), Swap(b), LineThrough(a, b, at)) == at
  {
    var span, rise := b.input - a.input, b.output - a.output;
    var q := (at - a.input) / span;
    assert (rise * q) / rise == q;
    assert span * q == at - a.input;
  }

  /** Swapping the two coordinates of a strictly rising function inverts it, on the whole line. */
  lemma SwapInverts(knots: seq<Knot>, swapped: seq<Knot>, time: real)
    requires Rising(knots) && Rising(swapped) && |knots| == |swapped|
    requires forall i | 0 <= i < |knots| :: swapped[i] == Swap(knots[i])
    ensures LinearAt(swapped, LinearAt(knots, time)) == time
  {
    var i := SegmentFrom(knots, time, 1);
    var a, b, mapped := knots[i - 1], knots[i], LinearAt(knots, time);
    assert swapped[i - 1].input < swapped[i].input;
    LineInverts(a, b, time);
    LineEnds(a, b);
    if i > 1 {
      LineRises(a, b, a.input, time);
    }
    if i < |knots| - 1 {
      LineRises(a, b, time, b.input);
    }
    OnSegment(swapped, mapped, i);
  }

  lemma StaysInRange(knots: seq<Knot>, time: real)
    requires Rising(knots) && knots[0].input <= time <= knots[|knots| - 1].input
    ensures knots[0].output <= LinearAt(knots, time) <= knots[|knots| - 1].output
  {
    AtKnot(knots, 0);
    AtKnot(knots, |knots| - 1);
    LinearAtRises(knots, knots[0].input, time);
    LinearAtRises(knots, time, knots[|knots| - 1].input);
  }

  /** Without plateaus nothing is averaged: the inverse's knots are the swapped points. */
  lemma SteepInverse(points: seq<Point>)
    requires MappingValid(points)
    requires forall i | 0 < i < |points| :: points[i - 1].dutTime < points[i].dutTime
    ensures Rising(SwappedKnots(points)) && InverseKnots(points) == SwappedKnots(points)
  {
    var inverse := SwappedKnots(points);
    ForwardRises(points);
    forall i, j | 0 <= i < j < |points|
      ensures inverse[i].input < inverse[j].input && inverse[i].output <= inverse[j].output
    {
      SteepOrder(points, i, j);
      assert ForwardKnots(points)[i].input < ForwardKnots(points)[j].input;
    }
    RunMeansOfStrict(inverse, 0);
    assert inverse[0..] == inverse;
  }

  /** Without plateaus the inverse undoes the mapping: on its range, and by extrapolation everywhere. */
  lemma InverseUndoes(points: seq<Point>, time: real, extrapolation: Extrapolation)
    requires MappingValid(points)
    requires forall i | 0 < i < |points| :: points[i - 1].dutTime < points[i].dutTime
    requires extrapolation.Linear? || points[0].refTime <= time <= points[|points| - 1].refTime
    ensures RefToDut(points, time, extrapolation).Ok?
    ensures DutToRef(points, RefToDut(points, time, extrapolation).value, extrapolation) == Ok(time)
  {
    ForwardRises(points);
    SteepInverse(points);
    SwappedUndoes(points, time, extrapolation);
  }

  lemma SwappedUndoes(points: seq<Point>, time: real, extrapolation: Extrapolation)
    requires MappingValid(points) && Rising(ForwardKnots(points)) && Rising(SwappedKnots(points))
    requires InverseKnots(points) == SwappedKnots(points)
    requires extrapolation.Linear? || points[0].refTime <= time <= points[|points| - 1].refTime
    ensures RefToDut(points, time, extrapolation).Ok?
    ensures DutToRef(points, RefToDut(points, time, extrapolation).value, extrapolation) == Ok(time)
  {
    var knots, inverse := ForwardKnots(points), SwappedKnots(points);
    SwapInverts(knots, inverse, time);
    ReadsForwardsLinearly(points, time, extrapolation);
    if !extrapolation.Linear? {
      StaysInRange(knots, time);
    }
    ReadsBackwardsLinearly(points, inverse, LinearAt(knots, time), extrapolation);
  }

  lemma ReadsBackwardsLinearly(points: seq<Point>, inverse: seq<Knot>, time: real, extrapolation: Extrapolation)
    requires MappingValid(points) && InverseKnots(points) == inverse && Rising(inverse)
    requires extrapolation.Linear? || inverse[0].input <= time <= inverse[|inverse| - 1].input
    ensures DutToRef(points, time, extrapolation) == Ok(LinearAt(inverse, time))
  {
    ReadsLinearly(inverse, time, extrapolation);
  }

  lemma ReadsForwardsLinearly(points: seq<Point>, time: real, extrapolation: Extrapolation)
    requires MappingValid(points) && Rising(ForwardKnots(points))
    requires extrapolation.Linear? || points[0].refTime <= time <= points[|points| - 1].refTime
    ensures RefToDut(points, time, extrapolation) == Ok(LinearAt(ForwardKnots(points), time))
  {
    ReadsLinearly(ForwardKnots(points), time, extrapolation);
  }

  lemma ReadsLinearly(knots: seq<Knot>, value: real, extrapolation: Extrapolation)
    requires Rising(knots)
    requires extrapolation.Linear? || knots[0].input <= value <= knots[|knots| - 1].input
    ensures Interpolated(knots, value, extrapolation) == Ok(LinearAt(knots, value))
  {
  }

  lemma {:induction false} SteepOrder(points: seq<Point>, i: nat, j: nat)
    requires forall k | 0 < k < |points| :: points[k - 1].dutTime < points[k].dutTime
    requires i < j < |points|
    ensures points[i].dutTime < points[j].dutTime
    decreases j
  {
    if i < j - 1 {
      SteepOrder(points, i, j - 1);
    }
  }

  /** With plateaus, going back and forth is still exact at the DUT time of every mapping point. */
  lemma ForwardAfterInverse(points: seq<Point>, at: nat, extrapolation: Extrapolation)
    requires MappingValid(points) && at < |points|
    requires points[0].dutTime < points[|points| - 1].dutTime
    ensures DutToRef(points, points[at].dutTime, extrapolation).Ok?
    ensures RefToDut(points, DutToRef(points, points[at].dutTime, extrapolation).value, extrapolation)
      == Ok(points[at].dutTime)
  {
    var swapped, knots := SwappedKnots(points), ForwardKnots(points);
    ForwardRises(points);
    var begin, stop := InverseReadsMean(points, at, extrapolation);
    var mean := Mean(swapped, begin, stop);
    MeanOnPlateau(points, begin, stop);
    PlateauReads(knots, begin, stop - 1, mean);
  }

  lemma MeanOnPlateau(points: seq<Point>, begin: nat, stop: nat)
    requires MappingValid(points) && begin < stop <= |points|
    ensures points[begin].refTime <= Mean(SwappedKnots(points), begin, stop) <= points[stop - 1].refTime
  {
    forall k | begin <= k < stop
      ensures points[begin].refTime <= points[k].refTime <= points[stop - 1].refTime
    {
      if begin < k { MappingOrder(points, begin, k); }
      if k < stop - 1 { MappingOrder(points, k, stop - 1); }
    }
    MeanBetween(SwappedKnots(points), begin, stop, points[begin].refTime, points[stop - 1].refTime);
  }

  /** At a mapping point's DUT time the inverse reads the mean REF time of the plateau it lies on. */
  lemma InverseReadsMean(points: seq<Point>, at: nat, extrapolation: Extrapolation) returns (begin: nat, stop: nat)
    requires MappingValid(points) && at < |points|
    requires points[0].dutTime < points[|points| - 1].dutTime
    ensures begin <= at < stop <= |points|
    ensures forall k | begin <= k < stop :: points[k].dutTime == points[at].dutTime
    ensures DutToRef(points, points[at].dutTime, extrapolation) == Ok(Mean(SwappedKnots(points), begin, stop))
  {
    var swapped, inverse := SwappedKnots(points), InverseKnots(points);
    SwappedIsMonotone(points);
    RunMeansShape(swapped, 0);
    InverseRises(points);
    var j;
    j, begin, stop := RunMeansCover(swapped, 0, at);
    AtKnot(inverse, j);
    assert inverse[0].input <= inverse[j].input <= inverse[|inverse| - 1].input;
    forall k | begin <= k < stop ensures points[k].dutTime == points[at].dutTime {
      assert swapped[k].input == swapped[at].input;
    }
  }

  /** Between two knots of equal output the function is constant. */
  lemma PlateauReads(knots: seq<Knot>, i: nat, j: nat, value: real)
    requires Rising(knots) && i <= j < |knots| && knots[i].output == knots[j].output
    requires knots[i].input <= value <= knots[j].input
    ensures LinearAt(knots, value) == knots[i].output
    ensures knots[0].input <= value <= knots[|knots| - 1].input
  {
    AtKnot(knots, i);
    AtKnot(knots, j);
    LinearAtRises(knots, knots[i].input, value);
    LinearAtRises(knots, value, knots[j].input);
  }
}

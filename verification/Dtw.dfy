/**
 `constrainedDtw` of alignment/dtw.mjs: the option checks, the sampling of both series, the band,
 and the solution of the resulting problem.
 */
module Dtw {
  import opened Optional
  import opened AlignmentErrors
  import opened DtwModel
  import opened DtwEngine
  import RealMath
  import Series

  datatype Limits = Limits(maxDtwSamples: nat, maxDtwCells: nat, maxMappingPoints: nat)

  datatype Options = Options(
    bandRatio: real, paddingRatio: real, transitionPenalty: real, endpointPenalty: real)

  datatype Candidate = Candidate(dutStart: real, dutEnd: real)

  datatype Solution = Solution(path: seq<Cell>, cost: real, statistics: Statistics)

  /** No admissible path is cheaper, and ties are broken as the recurrence breaks them. */
  ghost predicate Optimal(p: Problem, s: Solution)
    requires p.Valid()
  {
    && Admissible(p, s.path)
    && s.cost == PathCost(p, s.path)
    && (forall q: seq<Cell> | Admissible(p, q) :: s.cost <= PathCost(p, q))
    && IsBestEnd(p, s.path[|s.path| - 1].column)
    && s.path == Trace(p, p.Rows() - 1, s.path[|s.path| - 1].column)
    && |s.path| <= p.Rows() + |p.dut| - 1
  }

  /** The reported counts explain the cost and span the whole reference. */
  ghost predicate Accounted(p: Problem, s: Solution)
    requires p.Valid() && Admissible(p, s.path)
  {
    var counts := s.statistics;
    && counts.diagonalSteps + counts.upSteps == p.Rows() - 1
    && counts.diagonalSteps + counts.upSteps + counts.leftSteps == |s.path| - 1
    && counts.localCostTotal == LocalSum(p, s.path)
    && counts.boundaryHits == BoundaryHits(p, s.path)
    && s.cost == Bill(p, counts.localCostTotal, counts.upSteps + counts.leftSteps, s.path[0].column)
                 + p.EndPrice(s.path[|s.path| - 1].column)
  }

  lemma TraceIsOptimal(p: Problem, column: int, s: Solution)
    requires p.Valid() && IsBestEnd(p, column)
    requires s.path == Trace(p, p.Rows() - 1, column) && s.cost == EndCost(p, column).value
    ensures Optimal(p, s)
  {
    BestEndIsOptimal(p, column);
    TraceRealisesBest(p, p.Rows() - 1, column);
    assert s.path[|s.path| - 1] == Cell(p.Rows() - 1, column);
    assert p.InBand(p.Rows() - 1, column);
  }

  lemma {:induction false} CountsExplainCost(p: Problem, s: Solution)
    requires p.Valid() && Admissible(p, s.path) && s.cost == PathCost(p, s.path)
    requires Explains(p, s.path, s.statistics)
    ensures Accounted(p, s)
  {
    assert s.cost == OpenCost(p, s.path) + p.EndPrice(s.path[|s.path| - 1].column);
  }

  predicate HasGap(p: Problem) { exists i: nat | i + 1 < p.Rows() :: Gap(p, i) }

  lemma NoEndNoPath(p: Problem)
    requires p.Valid() && Ordered(p)
    requires forall j :: EndCost(p, j).Infinite?
    ensures HasGap(p)
  {
    PathExistsIffNoGap(p);
  }

  lemma OptimalHasNoGap(p: Problem, s: Solution)
    requires p.Valid() && Ordered(p) && Optimal(p, s)
    ensures !HasGap(p)
  {
    PathExistsIffNoGap(p);
  }

  /**
   Solves one posed problem. The returned path is admissible and no admissible path is cheaper;
   failure means a gap between two band rows, and then there is no admissible path at all.
   */
  method Solve(p: Problem) returns (r: Result<Solution>)
    requires p.Valid() && Ordered(p)
    ensures r.Err? ==> r.code == DtwFailed
    ensures r.Err? <==> HasGap(p)
    ensures r.Ok? ==> Optimal(p, r.value) && Accounted(p, r.value)
  {
    var directionRows, last := FillTable(p);
    var endColumn, bestEndCost := SelectEnd(p, last);
    if bestEndCost.Infinite? {
      NoEndNoPath(p);
      return Err(DtwFailed);
    }
    var path := TraceBack(p, directionRows, endColumn);
    TraceRealisesBest(p, p.Rows() - 1, endColumn);
    var statistics := PathStatistics(p, path);
    var solution := Solution(path, bestEndCost.value, statistics);
    TraceIsOptimal(p, endColumn, solution);
    CountsExplainCost(p, solution);
    OptimalHasNoGap(p, solution);
    r := Ok(solution);
  }

  datatype PathPoint = PathPoint(referenceIndex: nat, dutIndex: nat, referenceTime: real, dutTime: real)

  /** A path and its diagnostics, with the problem that was solved and the two series it was posed on. */
  datatype Alignment = Alignment(
    path: seq<PathPoint>,
    normalizedCost: real,
    cellCount: int,
    solution: Solution,
    problem: Problem,
    referenceSampled: Series.Series,
    dutSampled: Series.Series,
    downsampled: bool)

  /** How much longer than the candidate the sampled range is at either end. */
  function Padding(candidate: Candidate, options: Options): real {
    (candidate.dutEnd - candidate.dutStart) * options.paddingRatio
  }

  function PaddedStart(dut: Series.Series, candidate: Candidate, options: Options): real
    requires Series.Valid(dut)
  {
    var padded := candidate.dutStart - Padding(candidate, options);
    if padded < dut.timestamps[0] then dut.timestamps[0] else padded
  }

  function PaddedEnd(dut: Series.Series, candidate: Candidate, options: Options): real
    requires Series.Valid(dut)
  {
    var padded := candidate.dutEnd + Padding(candidate, options);
    var last := dut.timestamps[|dut.timestamps| - 1];
    if padded > last then last else padded
  }

  /** The sampled range: all of the padded candidate that the DUT covers. */
  lemma PaddedRangeIs(dut: Series.Series, candidate: Candidate, options: Options, time: real)
    requires Series.Valid(dut)
    ensures Padding(candidate, options) == options.paddingRatio * (candidate.dutEnd - candidate.dutStart)
    ensures PaddedStart(dut, candidate, options) <= time <= PaddedEnd(dut, candidate, options) <==>
      && dut.timestamps[0] <= time <= dut.timestamps[|dut.timestamps| - 1]
      && candidate.dutStart - Padding(candidate, options) <= time <= candidate.dutEnd + Padding(candidate, options)
  {
    PaddingIs(candidate, options);
    var first, last, pad := dut.timestamps[0], dut.timestamps[|dut.timestamps| - 1], Padding(candidate, options);
    ClippedRange(first, last, candidate.dutStart - pad, candidate.dutEnd + pad, time);
  }

  lemma PaddingIs(candidate: Candidate, options: Options)
    ensures Padding(candidate, options) == options.paddingRatio * (candidate.dutEnd - candidate.dutStart)
  {
  }

  lemma ClippedRange(first: real, last: real, low: real, high: real, time: real)
    ensures (if low < first then first else low) <= time <= (if high > last then last else high) <==>
      first <= time <= last && low <= time <= high
  {
  }

  predicate OptionsValid(options: Options) {
    && 0.0 <= options.bandRatio <= 1.0 && 0.0 <= options.paddingRatio <= 1.0
    && options.transitionPenalty >= 0.0 && options.endpointPenalty >= 0.0
  }

  ghost predicate Nearest(times: seq<real>, target: real, index: nat) {
    && index < |times|
    && (forall k | 0 <= k < |times| :: Abs(times[index] - target) <= Abs(times[k] - target))
    && (forall k | 0 <= k < index :: Abs(times[index] - target) < Abs(times[k] - target))
  }

  /** How many samples each of the two series is given. */
  ghost function ReferenceCount(reference: Series.Series, limits: Limits): nat
    requires Series.Valid(reference)
  {
    Series.SampleCount(reference.timestamps, reference.timestamps[0],
                       reference.timestamps[|reference.timestamps| - 1], limits.maxDtwSamples)
  }

  ghost function DutCount(dut: Series.Series, candidate: Candidate, limits: Limits, options: Options): nat
    requires Series.Valid(dut)
  {
    Series.SampleCount(
      dut.timestamps, PaddedStart(dut, candidate, options), PaddedEnd(dut, candidate, options), limits.maxDtwSamples)
  }

  /** The problem that one call poses, in terms of the call's arguments. */
  ghost predicate Poses(
    reference: Series.Series, dut: Series.Series, candidate: Candidate, limits: Limits, options: Options,
    referenceSampled: Series.Series, dutSampled: Series.Series, p: Problem)
    requires Series.Valid(reference) && Series.Valid(dut)
  {
    && Series.Resampled(reference, reference.timestamps[0],
          reference.timestamps[|reference.timestamps| - 1], referenceSampled)
    && Series.Resampled(dut, PaddedStart(dut, candidate, options), PaddedEnd(dut, candidate, options), dutSampled)
    && |referenceSampled.timestamps| == ReferenceCount(reference, limits)
    && |dutSampled.timestamps| == DutCount(dut, candidate, limits, options)
    && PosedFrom(referenceSampled, dutSampled, candidate, options, p)
  }

  /** The problem of two sampled series: the band follows the samples nearest the candidate's ends. */
  ghost predicate PosedFrom(
    referenceSampled: Series.Series, dutSampled: Series.Series, candidate: Candidate, options: Options, p: Problem)
  {
    && p.Valid() && Ordered(p) && |referenceSampled.values| >= 2
    && p.reference == referenceSampled.values && p.dut == dutSampled.values
    && p.transitionPenalty == options.transitionPenalty && p.endpointPenalty == options.endpointPenalty
    && Nearest(dutSampled.timestamps, candidate.dutStart, p.expectedStart)
    && Nearest(dutSampled.timestamps, candidate.dutEnd, p.expectedEnd)
    && p.bandRadius == BandRadius(Span(p.expectedStart, p.expectedEnd), options.bandRatio)
    && (forall i | 0 <= i < |p.bands| ::
          var center := Center(p.expectedStart, Span(p.expectedStart, p.expectedEnd), |referenceSampled.values|, i);
          && p.bands[i].start == BandStart(center, p.bandRadius)
          && p.bands[i].end == BandEnd(center, p.bandRadius, |p.dut|))
  }

  function BandRadius(expectedSpan: nat, bandRatio: real): (r: nat)
    ensures r >= 3
  {
    var radius := Ceil(expectedSpan as real * bandRatio);
    if radius < 3 then 3 else radius
  }

  /** The smallest radius of at least 3 that covers its share of the expected span, itself at least 1. */
  lemma BandRadiusIs(expectedStart: nat, expectedEnd: nat, bandRatio: real, radius: nat)
    requires bandRatio >= 0.0
    ensures Span(expectedStart, expectedEnd) >= 1
    ensures expectedEnd > expectedStart ==> expectedStart + Span(expectedStart, expectedEnd) == expectedEnd
    ensures expectedEnd <= expectedStart ==> Span(expectedStart, expectedEnd) == 1
    ensures var share := Span(expectedStart, expectedEnd) as real * bandRatio;
      BandRadius(Span(expectedStart, expectedEnd), bandRatio) <= radius <==> radius >= 3 && radius as real >= share
  {
    var share := Span(expectedStart, expectedEnd) as real * bandRatio;
    assert (-share).Floor as real <= -share < (-share).Floor as real + 1.0;
  }

  function PointOf(cell: Cell, referenceTimes: seq<real>, dutTimes: seq<real>): PathPoint
    requires cell.row < |referenceTimes| && 0 <= cell.column < |dutTimes|
  {
    PathPoint(cell.row, cell.column, referenceTimes[cell.row], dutTimes[cell.column])
  }

  /** A path can be read as the input of the time mapping. */
  ghost predicate Timed(points: seq<PathPoint>) {
    && |points| >= 2
    && (forall k | 0 < k < |points| ::
          points[k - 1].referenceTime <= points[k].referenceTime && points[k - 1].dutTime <= points[k].dutTime)
    && points[0].referenceTime < points[|points| - 1].referenceTime
  }

  lemma PathIsTimed(p: Problem, path: seq<Cell>, points: seq<PathPoint>, referenceTimes: seq<real>, dutTimes: seq<real>)
    requires p.Valid() && Admissible(p, path) && p.Rows() >= 2
    requires |referenceTimes| == p.Rows() && |dutTimes| == |p.dut|
    requires Series.Increasing(referenceTimes) && Series.Increasing(dutTimes)
    requires |points| == |path|
    requires forall k | 0 <= k < |path| ::
        p.InBand(path[k].row, path[k].column) && points[k] == PointOf(path[k], referenceTimes, dutTimes)
    ensures Timed(points)
    ensures points[0].referenceTime == referenceTimes[0]
    ensures points[|points| - 1].referenceTime == referenceTimes[|referenceTimes| - 1]
  {
    forall k | 0 < k < |points|
      ensures points[k - 1].referenceTime <= points[k].referenceTime && points[k - 1].dutTime <= points[k].dutTime
    {
      assert Linked(path[k - 1], path[k]);
      assert p.InBand(path[k - 1].row, path[k - 1].column);
    }
  }

  method PosePath(solution: Solution, p: Problem, referenceTimes: seq<real>, dutTimes: seq<real>)
    returns (points: seq<PathPoint>)
    requires p.Valid() && OpenPath(p, solution.path)
    requires |referenceTimes| == p.Rows() && |dutTimes| == |p.dut|
    ensures |points| == |solution.path|
    ensures forall k | 0 <= k < |points| ::
      && p.InBand(solution.path[k].row, solution.path[k].column)
      && points[k] == PointOf(solution.path[k], referenceTimes, dutTimes)
  {
    points := [];
    var k := 0;
    while k < |solution.path|
      invariant 0 <= k <= |solution.path| && |points| == k
      invariant forall i | 0 <= i < k ::
        && p.InBand(solution.path[i].row, solution.path[i].column)
        && points[i] == PointOf(solution.path[i], referenceTimes, dutTimes)
    {
      assert p.InBand(solution.path[k].row, solution.path[k].column);
      points := points + [PointOf(solution.path[k], referenceTimes, dutTimes)];
      k := k + 1;
    }
  }

  method Pose(
    referenceSampled: Series.Series, dutSampled: Series.Series, candidate: Candidate, options: Options)
    returns (p: Problem, cellCount: int)
    requires Series.Valid(referenceSampled) && Series.Valid(dutSampled)
    requires |referenceSampled.timestamps| >= 2
    requires |referenceSampled.values[0]| == |dutSampled.values[0]|
    ensures PosedFrom(referenceSampled, dutSampled, candidate, options, p) && cellCount == CellCount(p.bands)
  {
    var expectedStart := NearestIndex(dutSampled.timestamps, candidate.dutStart);
    var expectedEnd := NearestIndex(dutSampled.timestamps, candidate.dutEnd);
    var bandRadius := BandRadius(Span(expectedStart, expectedEnd), options.bandRatio);
    var bands;
    bands, cellCount := BuildBands(
      |referenceSampled.timestamps|, |dutSampled.timestamps|, expectedStart, expectedEnd, bandRadius);
    p := Problem(
      |referenceSampled.values[0]|, referenceSampled.values, dutSampled.values, bands,
      options.transitionPenalty, options.endpointPenalty, expectedStart, expectedEnd, bandRadius);
  }

  datatype Refusal = Accepted | Refused(code: Code)

  /** The checks before the band is built, in the order the program makes them. */
  function EarlyRefusal(reference: Series.Series, dut: Series.Series, candidate: Candidate, options: Options): Refusal
    requires |reference.timestamps| >= 2 ==> Series.Valid(reference)
    requires |dut.timestamps| >= 2 ==> Series.Valid(dut)
  {
    if |reference.timestamps| < 2 || |dut.timestamps| < 2 then Refused(InvalidSeries)
    else if !OptionsValid(options) then Refused(InvalidOptions)
    else if |reference.values[0]| != |dut.values[0]| then Refused(DimensionMismatch)
    else if !Series.InRange(dut, PaddedStart(dut, candidate, options), PaddedEnd(dut, candidate, options))
    then Refused(InvalidRange)
    else Accepted
  }

  /** The returned points are the cells of the optimal path, with the times they stand for. */
  ghost predicate Timestamped(a: Alignment) {
    && |a.path| == |a.solution.path|
    && (forall k | 0 <= k < |a.path| ::
          var cell := a.solution.path[k];
          && cell.row < |a.referenceSampled.timestamps| && 0 <= cell.column < |a.dutSampled.timestamps|
          && a.path[k] == PointOf(cell, a.referenceSampled.timestamps, a.dutSampled.timestamps))
  }

  /** The optimum of the problem, as points in time. */
  ghost predicate Answers(a: Alignment)
    requires a.problem.Valid()
  {
    && a.cellCount == CellCount(a.problem.bands)
    && Optimal(a.problem, a.solution)
    && Accounted(a.problem, a.solution)
    && Timestamped(a)
    && Timed(a.path)
    && a.normalizedCost == LocalSum(a.problem, a.solution.path) / |a.path| as real
  }

  /** An answer to one problem, over the REF times of its first series. */
  ghost predicate AnswersFor(a: Alignment, p: Problem, rs: Series.Series, ds: Series.Series, downsampled: bool)
    requires p.Valid()
  {
    && a.problem == p && a.referenceSampled == rs && a.dutSampled == ds && a.downsampled == downsampled
    && |rs.timestamps| > 0 && Answers(a)
    && a.path[0].referenceTime == rs.timestamps[0]
    && a.path[|a.path| - 1].referenceTime == rs.timestamps[|rs.timestamps| - 1]
  }

  /** What a successful call returns: the optimum of the problem it poses, as points in time. */
  ghost predicate Aligned(
    reference: Series.Series, dut: Series.Series, candidate: Candidate, limits: Limits, options: Options, a: Alignment)
    requires Series.Valid(reference) && Series.Valid(dut)
  {
    && Poses(reference, dut, candidate, limits, options, a.referenceSampled, a.dutSampled, a.problem)
    && Answers(a)
    && a.cellCount <= limits.maxDtwCells
    && a.path[0].referenceTime == reference.timestamps[0]
    && a.path[|a.path| - 1].referenceTime == reference.timestamps[|reference.timestamps| - 1]
    && (a.downsampled <==> Downsampled(reference, dut, candidate, limits, options))
  }

  /** Either series is given fewer samples than its natural count. */
  ghost predicate Downsampled(
    reference: Series.Series, dut: Series.Series, candidate: Candidate, limits: Limits, options: Options)
    requires Series.Valid(reference) && Series.Valid(dut)
  {
    || ReferenceCount(reference, limits) < Series.NaturalCount(
         reference.timestamps, reference.timestamps[0], reference.timestamps[|reference.timestamps| - 1])
    || DutCount(dut, candidate, limits, options) < Series.NaturalCount(
         dut.timestamps, PaddedStart(dut, candidate, options), PaddedEnd(dut, candidate, options))
  }

  /** Too many cells, a gap in the band, or success: how a call that has posed its problem ends. */
  ghost predicate Outcome(p: Problem, limits: Limits, failure: Option<Code>) {
    && (failure == Some(LimitExceeded) <==> CellCount(p.bands) > limits.maxDtwCells)
    && (failure == Some(DtwFailed) <==> CellCount(p.bands) <= limits.maxDtwCells && HasGap(p))
    && (failure.None? <==> CellCount(p.bands) <= limits.maxDtwCells && !HasGap(p))
  }

  /** A problem is posed, and whatever is posed determines how the call ends. */
  ghost predicate Settled(
    reference: Series.Series, dut: Series.Series, candidate: Candidate, limits: Limits, options: Options,
    failure: Option<Code>)
    requires Series.Valid(reference) && Series.Valid(dut)
  {
    && (exists rs, ds, p :: Poses(reference, dut, candidate, limits, options, rs, ds, p))
    && (forall rs, ds, p | Poses(reference, dut, candidate, limits, options, rs, ds, p) :: Outcome(p, limits, failure))
  }

  lemma {:induction false} NearestOnce(times: seq<real>, target: real, i: nat, j: nat)
    requires Nearest(times, target, i) && Nearest(times, target, j)
    ensures i == j
  {
    assert Abs(times[i] - target) == Abs(times[j] - target);
  }

  /** One call poses one problem. */
  lemma {:induction false} PosesOnce(
    reference: Series.Series, dut: Series.Series, candidate: Candidate, limits: Limits, options: Options,
    rs: Series.Series, ds: Series.Series, p: Problem, rt: Series.Series, dt: Series.Series, q: Problem)
    requires Series.Valid(reference) && Series.Valid(dut)
    requires Poses(reference, dut, candidate, limits, options, rs, ds, p)
    requires Poses(reference, dut, candidate, limits, options, rt, dt, q)
    ensures rs == rt && ds == dt && p == q
  {
    Series.ResampledOnce(
      reference, reference.timestamps[0], reference.timestamps[|reference.timestamps| - 1], rs, rt);
    Series.ResampledOnce(dut, PaddedStart(dut, candidate, options), PaddedEnd(dut, candidate, options), ds, dt);
    NearestOnce(ds.timestamps, candidate.dutStart, p.expectedStart, q.expectedStart);
    NearestOnce(ds.timestamps, candidate.dutEnd, p.expectedEnd, q.expectedEnd);
    assert |p.reference[0]| == p.dimensions && |q.reference[0]| == q.dimensions;
    assert p.bands == q.bands;
  }

  lemma {:induction false} Settles(
    reference: Series.Series, dut: Series.Series, candidate: Candidate, limits: Limits, options: Options,
    rs: Series.Series, ds: Series.Series, p: Problem, failure: Option<Code>)
    requires Series.Valid(reference) && Series.Valid(dut)
    requires Poses(reference, dut, candidate, limits, options, rs, ds, p) && Outcome(p, limits, failure)
    ensures Settled(reference, dut, candidate, limits, options, failure)
  {
    forall rt, dt, q | Poses(reference, dut, candidate, limits, options, rt, dt, q)
      ensures Outcome(q, limits, failure)
    {
      PosesOnce(reference, dut, candidate, limits, options, rs, ds, p, rt, dt, q);
    }
  }

  lemma Aligns(
    reference: Series.Series, dut: Series.Series, candidate: Candidate, limits: Limits, options: Options, a: Alignment)
    requires Series.Valid(reference) && Series.Valid(dut)
    requires Poses(reference, dut, candidate, limits, options, a.referenceSampled, a.dutSampled, a.problem)
    requires AnswersFor(a, a.problem, a.referenceSampled, a.dutSampled, a.downsampled)
    requires a.cellCount <= limits.maxDtwCells
    requires a.downsampled <==> Downsampled(reference, dut, candidate, limits, options)
    ensures Aligned(reference, dut, candidate, limits, options, a)
  {
  }

  method ConstrainedDtw(
    reference: Series.Series, dut: Series.Series, candidate: Candidate, limits: Limits, options: Options)
    returns (r: Result<Alignment>)
    requires |reference.timestamps| >= 2 ==> Series.Valid(reference)
    requires |dut.timestamps| >= 2 ==> Series.Valid(dut)
    ensures EarlyRefusal(reference, dut, candidate, options).Refused? ==>
      r == Err(EarlyRefusal(reference, dut, candidate, options).code)
    ensures EarlyRefusal(reference, dut, candidate, options).Accepted? ==>
      && Settled(reference, dut, candidate, limits, options, r.Failure())
      && (r.Ok? ==> Aligned(reference, dut, candidate, limits, options, r.value))
  {
    if !(|reference.timestamps| >= 2 && |dut.timestamps| >= 2) {
      return Err(InvalidSeries);
    }
    if options.bandRatio < 0.0 || options.paddingRatio < 0.0
        || options.transitionPenalty < 0.0 || options.endpointPenalty < 0.0 {
      return Err(InvalidOptions);
    }
    if options.bandRatio > 1.0 || options.paddingRatio > 1.0 {
      return Err(InvalidOptions);
    }
    if |reference.values[0]| != |dut.values[0]| {
      return Err(DimensionMismatch);
    }
    var sampledReference := Series.SampleSeriesRange(
      reference, reference.timestamps[0], reference.timestamps[|reference.timestamps| - 1], limits.maxDtwSamples);
    var sampledDut := Series.SampleSeriesRange(
      dut, PaddedStart(dut, candidate, options), PaddedEnd(dut, candidate, options), limits.maxDtwSamples);
    if sampledDut.Err? {
      return Err(sampledDut.code);
    }
    r := AlignSampled(reference, dut, candidate, limits, options, sampledReference.value, sampledDut.value);
  }

  /** The rest of `constrainedDtw`, once both series are sampled. */
  method AlignSampled(
    reference: Series.Series, dut: Series.Series, candidate: Candidate, limits: Limits, options: Options,
    referenceSampled: Series.Sampled, dutSampled: Series.Sampled)
    returns (r: Result<Alignment>)
    requires Series.Valid(reference) && Series.Valid(dut)
    requires |reference.values[0]| == |dut.values[0]|
    requires Series.Resampled(reference, reference.timestamps[0],
               reference.timestamps[|reference.timestamps| - 1], referenceSampled.series)
    requires Series.Resampled(dut, PaddedStart(dut, candidate, options),
               PaddedEnd(dut, candidate, options), dutSampled.series)
    requires |referenceSampled.series.timestamps| == ReferenceCount(reference, limits)
    requires |dutSampled.series.timestamps| == DutCount(dut, candidate, limits, options)
    requires referenceSampled.downsampled || dutSampled.downsampled <==>
      Downsampled(reference, dut, candidate, limits, options)
    ensures Settled(reference, dut, candidate, limits, options, r.Failure())
    ensures r.Ok? ==> Aligned(reference, dut, candidate, limits, options, r.value)
  {
    var rs, ds := referenceSampled.series, dutSampled.series;
    var p, cellCount := Pose(rs, ds, candidate, options);
    assert Poses(reference, dut, candidate, limits, options, rs, ds, p);
    r := AlignPosed(p, cellCount, rs, ds, referenceSampled.downsampled || dutSampled.downsampled, limits);
    Settles(reference, dut, candidate, limits, options, rs, ds, p, r.Failure());
    if r.Ok? {
      Aligns(reference, dut, candidate, limits, options, r.value);
    }
  }

  /** The cell limit, the solution and the timed path. */
  method AlignPosed(
    p: Problem, cellCount: int, rs: Series.Series, ds: Series.Series, downsampled: bool, limits: Limits)
    returns (r: Result<Alignment>)
    requires p.Valid() && Ordered(p) && p.Rows() >= 2 && cellCount == CellCount(p.bands)
    requires |rs.timestamps| == p.Rows() && |ds.timestamps| == |p.dut|
    requires Series.Increasing(rs.timestamps) && Series.Increasing(ds.timestamps)
    ensures Outcome(p, limits, r.Failure())
    ensures r.Ok? ==> AnswersFor(r.value, p, rs, ds, downsampled) && r.value.cellCount <= limits.maxDtwCells
  {
    if cellCount > limits.maxDtwCells {
      return Err(LimitExceeded);
    }
    var solved := Solve(p);
    if solved.Err? {
      return Err(solved.code);
    }
    var a := Assemble(p, solved.value, cellCount, rs, ds, downsampled);
    r := Ok(a);
  }

  /** A posed problem, its solution and the timed path make up an alignment. */
  method Assemble(
    p: Problem, solution: Solution, cellCount: int, rs: Series.Series, ds: Series.Series, downsampled: bool)
    returns (a: Alignment)
    requires p.Valid() && p.Rows() >= 2 && cellCount == CellCount(p.bands)
    requires |rs.timestamps| == p.Rows() && |ds.timestamps| == |p.dut|
    requires Series.Increasing(rs.timestamps) && Series.Increasing(ds.timestamps)
    requires Optimal(p, solution) && Accounted(p, solution)
    ensures AnswersFor(a, p, rs, ds, downsampled)
  {
    var points := PosePath(solution, p, rs.timestamps, ds.timestamps);
    PathIsTimed(p, solution.path, points, rs.timestamps, ds.timestamps);
    var normalizedCost := solution.statistics.localCostTotal / |points| as real;
    a := Alignment(points, normalizedCost, cellCount, solution, p, rs, ds, downsampled);
  }

  // ---- a series aligns with itself -----------------------------------------------------------

  function DiagonalPath(n: nat): (r: seq<Cell>)
    ensures |r| == n && forall k | 0 <= k < n :: r[k] == Cell(k, k)
  {
    seq(n, (k: nat) => Cell(k, k))
  }

  lemma {:induction false} DiagonalHasNoBends(n: nat)
    ensures Bends(DiagonalPath(n)) == 0
  {
    if n >= 2 {
      DiagonalHasNoBends(n - 1);
      assert DiagonalPath(n)[..n - 1] == DiagonalPath(n - 1);
    }
  }

  lemma {:induction false} NoBendsIsStraight(path: seq<Cell>, k: nat)
    requires k < |path| && Bends(path) == 0
    ensures path[k] == Cell(path[0].row + k, path[0].column + k)
    decreases |path|
  {
    var n := |path| - 1;
    if n > 0 {
      assert DiagonalStep(path[n - 1], path[n]) && Bends(path[..n]) == 0;
      NoBendsIsStraight(path[..n], if k < n then k else n - 1);
    }
  }

  /** The same samples on both sides, expected to correspond end to end. */
  ghost predicate Mirrored(p: Problem) {
    && p.Valid() && p.reference == p.dut && p.expectedStart == 0 && p.expectedEnd == p.Rows() - 1
    && (forall i | 0 <= i < p.Rows() :: p.InBand(i, i))
    && p.transitionPenalty >= 0.0 && p.endpointPenalty >= 0.0
  }

  lemma DiagonalIsFree(p: Problem)
    requires Mirrored(p)
    ensures Admissible(p, DiagonalPath(p.Rows())) && PathCost(p, DiagonalPath(p.Rows())) == 0.0
  {
    var n, path := p.Rows(), DiagonalPath(p.Rows());
    assert forall k | 0 <= k < n :: p.InBand(k, k);
    LocalSumLaws(p, path);
    DiagonalHasNoBends(n);
    FreeEnds(p);
  }

  lemma FreeEnds(p: Problem)
    requires p.bandRadius >= 1
    ensures p.StartPrice(p.expectedStart) == 0.0 && p.EndPrice(p.expectedEnd) == 0.0
  {
  }

  lemma PricesAreNotNegative(p: Problem, column: int)
    requires p.bandRadius >= 1 && p.endpointPenalty >= 0.0
    ensures p.StartPrice(column) >= 0.0 && p.EndPrice(column) >= 0.0
  {
  }

  /** Terms that are not negative and add up to nothing are all zero. */
  lemma NothingToPay(local: real, penalty: real, bends: nat, start: real, end: real)
    requires local >= 0.0 && penalty >= 0.0 && start >= 0.0 && end >= 0.0
    requires local + penalty * bends as real + start + end <= 0.0
    ensures local == 0.0 && (penalty > 0.0 ==> bends == 0)
  {
    RealMath.MulKeepsAtMost(0.0, bends as real, penalty);
    if penalty > 0.0 && bends > 0 {
      RealMath.MulKeepsLess(0.0, bends as real, penalty);
    }
  }

  lemma FreePath(p: Problem, path: seq<Cell>)
    requires Mirrored(p) && Admissible(p, path) && PathCost(p, path) <= 0.0
    ensures LocalSum(p, path) == 0.0
    ensures p.transitionPenalty > 0.0 ==> path == DiagonalPath(p.Rows())
  {
    LocalSumLaws(p, path);
    PricesAreNotNegative(p, path[0].column);
    PricesAreNotNegative(p, path[|path| - 1].column);
    NothingToPay(LocalSum(p, path), p.transitionPenalty, Bends(path),
                 p.StartPrice(path[0].column), p.EndPrice(path[|path| - 1].column));
    if p.transitionPenalty > 0.0 {
      StraightIsDiagonal(p, path);
    }
  }

  lemma MirroredOptimum(p: Problem, s: Solution)
    requires Mirrored(p) && Optimal(p, s)
    ensures LocalSum(p, s.path) == 0.0
    ensures p.transitionPenalty > 0.0 ==> s.path == DiagonalPath(p.Rows())
  {
    DiagonalIsFree(p);
    FreePath(p, s.path);
  }

  lemma StraightIsDiagonal(p: Problem, path: seq<Cell>)
    requires Mirrored(p) && Admissible(p, path) && Bends(path) == 0
    ensures path == DiagonalPath(p.Rows())
  {
    var last := |path| - 1;
    NoBendsIsStraight(path, last);
    assert p.InBand(path[0].row, path[0].column) && p.InBand(path[last].row, path[last].column);
    forall k | 0 <= k < |path| ensures path[k] == Cell(k, k) {
      NoBendsIsStraight(path, k);
    }
  }

  function WholeRange(series: Series.Series): Candidate
    requires Series.Valid(series)
  {
    Candidate(series.timestamps[0], series.timestamps[|series.timestamps| - 1])
  }

  lemma WholeRangeIsKept(series: Series.Series, options: Options)
    requires Series.Valid(series) && OptionsValid(options)
    ensures PaddedStart(series, WholeRange(series), options) == series.timestamps[0]
    ensures PaddedEnd(series, WholeRange(series), options) == series.timestamps[|series.timestamps| - 1]
  {
    var c := WholeRange(series);
    RealMath.MulKeepsAtMost(0.0, options.paddingRatio, c.dutEnd - c.dutStart);
  }

  lemma NearestToEnds(times: seq<real>)
    requires |times| >= 1 && Series.Increasing(times)
    ensures Nearest(times, times[0], 0) && Nearest(times, times[|times| - 1], |times| - 1)
  {
  }

  lemma PosedOnItself(
    series: Series.Series, limits: Limits, options: Options, rs: Series.Series, ds: Series.Series, p: Problem)
    requires Series.Valid(series) && OptionsValid(options)
    requires Poses(series, series, WholeRange(series), limits, options, rs, ds, p)
    ensures Mirrored(p)
  {
    WholeRangeIsKept(series, options);
    Series.ResampledOnce(
      series, series.timestamps[0], series.timestamps[|series.timestamps| - 1], rs, ds);
    NearestToEnds(ds.timestamps);
    NearestOnce(ds.timestamps, ds.timestamps[0], 0, p.expectedStart);
    NearestOnce(ds.timestamps, ds.timestamps[|ds.timestamps| - 1], |ds.timestamps| - 1, p.expectedEnd);
    DiagonalInBand(rs, ds, WholeRange(series), options, p);
  }

  lemma DiagonalInBand(
    rs: Series.Series, ds: Series.Series, candidate: Candidate, options: Options, p: Problem)
    requires PosedFrom(rs, ds, candidate, options, p) && p.reference == p.dut
    requires p.expectedStart == 0 && p.expectedEnd == p.Rows() - 1
    ensures forall i | 0 <= i < p.Rows() :: p.InBand(i, i)
  {
    var n := p.Rows();
    forall i | 0 <= i < n ensures p.InBand(i, i) {
      OnTheLine(n, i, p.bandRadius);
      assert p.bands[i].start == BandStart(Center(0, n - 1, n, i), p.bandRadius);
    }
  }

  lemma OnTheLine(n: nat, i: nat, radius: nat)
    requires i < n && n >= 2
    ensures var center := Center(0, n - 1, n, i); BandStart(center, radius) <= i <= BandEnd(center, radius, n)
  {
    BandIsTube(0, n - 1, n, i, radius, n, i);
    Commutes(i, n - 1);
    ProductIsPositive(radius + 1, n - 1);
  }

  lemma Commutes(x: int, y: int)
    ensures (x - 0) * y - y * x == 0
  {
  }

  lemma ProductIsPositive(x: int, y: int)
    requires x > 0 && y > 0
    ensures x * y > 0
  {
  }

  /** Aligning a series with itself over its whole range never fails for want of a path. */
  lemma AlignsWithItself(
    series: Series.Series, limits: Limits, options: Options, failure: Option<Code>)
    requires Series.Valid(series) && OptionsValid(options)
    requires Settled(series, series, WholeRange(series), limits, options, failure)
    ensures failure != Some(DtwFailed)
  {
    var rs, ds, p :| Poses(series, series, WholeRange(series), limits, options, rs, ds, p);
    PosedOnItself(series, limits, options, rs, ds, p);
    DiagonalIsFree(p);
    PathExistsIffNoGap(p);
    assert Outcome(p, limits, failure);
  }

  /** It costs nothing, and with a penalty on bends every sample is aligned with itself. */
  lemma AlignmentWithItselfIsFree(
    series: Series.Series, limits: Limits, options: Options, a: Alignment)
    requires Series.Valid(series) && OptionsValid(options)
    requires Aligned(series, series, WholeRange(series), limits, options, a)
    ensures a.normalizedCost == 0.0
    ensures options.transitionPenalty > 0.0 ==>
      forall k | 0 <= k < |a.path| :: a.path[k].referenceIndex == a.path[k].dutIndex == k
  {
    PosedOnItself(series, limits, options, a.referenceSampled, a.dutSampled, a.problem);
    MirroredAnswer(a);
  }

  lemma MirroredAnswer(a: Alignment)
    requires Mirrored(a.problem) && Answers(a)
    ensures a.normalizedCost == 0.0
    ensures a.problem.transitionPenalty > 0.0 ==>
      forall k | 0 <= k < |a.path| :: a.path[k].referenceIndex == a.path[k].dutIndex == k
  {
    MirroredOptimum(a.problem, a.solution);
    Nothing(|a.path|);
    if a.problem.transitionPenalty > 0.0 {
      PointsOfDiagonal(a);
    }
  }

  lemma Nothing(n: nat)
    requires n > 0
    ensures 0.0 / n as real == 0.0
  {
  }

  lemma PointsOfDiagonal(a: Alignment)
    requires Timestamped(a) && a.solution.path == DiagonalPath(a.problem.Rows())
    ensures forall k | 0 <= k < |a.path| :: a.path[k].referenceIndex == a.path[k].dutIndex == k
  {
  }
}

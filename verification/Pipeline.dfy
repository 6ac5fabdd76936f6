/**
 `buildTimeMapping` of alignment/mapping.mjs, and the pipeline of alignment/align.mjs that feeds
 it: a warping path always collapses to a mapping that the readers accept, and a mapping that was
 not capped stays within its tolerance of the path.
 */
module Pipeline {
  import opened Optional
  import opened AlignmentErrors
  import opened DtwModel
  import opened Simplify
  import opened TimeMapping
  import Dtw
  import Series

  datatype Range = Range(start: real, end: real)

  datatype Mapping = Mapping(
    points: seq<Point>,
    refRange: Range,
    dutRange: Range,
    collapsedPoints: nat,
    tolerance: real,
    capped: bool)

  /** `Number.EPSILON` is 2 to the power -52. */
  const EPSILON: real := 1.0 / 4503599627370496.0

  function PathKnots(path: seq<Dtw.PathPoint>): (r: seq<Knot>)
    ensures |r| == |path|
    ensures forall i | 0 <= i < |path| :: r[i] == Knot(path[i].referenceTime, path[i].dutTime)
  {
    seq(|path|, i requires 0 <= i < |path| => Knot(path[i].referenceTime, path[i].dutTime))
  }

  function AsPoints(knots: seq<Knot>): (r: seq<Point>)
    ensures |r| == |knots|
    ensures forall i | 0 <= i < |knots| :: r[i] == Point(knots[i].input, knots[i].output)
  {
    seq(|knots|, i requires 0 <= i < |knots| => Point(knots[i].input, knots[i].output))
  }

  /** One point per REF time of the path: the mean DUT time the path visits there. */
  function Collapsed(path: seq<Dtw.PathPoint>): seq<Point> {
    AsPoints(RunMeans(PathKnots(path), 0))
  }

  predicate StepsForward(path: seq<Dtw.PathPoint>) {
    forall k | 0 < k < |path| ::
      path[k].referenceTime >= path[k - 1].referenceTime && path[k].dutTime >= path[k - 1].dutTime
  }

  /** The paths a mapping can be built from: monotone, over at least two REF times. */
  predicate Mappable(path: seq<Dtw.PathPoint>) {
    && |path| >= 2
    && StepsForward(path)
    && path[0].referenceTime < path[|path| - 1].referenceTime
  }

  lemma {:induction false} StepsAreMonotone(path: seq<Dtw.PathPoint>, i: nat, j: nat)
    requires StepsForward(path) && i <= j < |path|
    ensures path[i].referenceTime <= path[j].referenceTime && path[i].dutTime <= path[j].dutTime
    decreases j
  {
    if i < j {
      StepsAreMonotone(path, i, j - 1);
    }
  }

  lemma PathKnotsMonotone(path: seq<Dtw.PathPoint>)
    requires StepsForward(path)
    ensures Monotone(PathKnots(path))
  {
    forall i, j | 0 <= i < j < |path|
      ensures path[i].referenceTime <= path[j].referenceTime && path[i].dutTime <= path[j].dutTime
    {
      StepsAreMonotone(path, i, j);
    }
  }

  /** Collapsing keeps both REF ends and leaves a valid mapping, of two points or more iff the ends differ. */
  lemma CollapsedShape(path: seq<Dtw.PathPoint>)
    requires |path| >= 1 && StepsForward(path)
    ensures var c := Collapsed(path);
      && |c| >= 1
      && c[0].refTime == path[0].referenceTime
      && c[|c| - 1].refTime == path[|path| - 1].referenceTime
      && (forall i, j | 0 <= i < j < |c| :: c[i].refTime < c[j].refTime && c[i].dutTime <= c[j].dutTime)
      && (|c| >= 2 <==> path[0].referenceTime < path[|path| - 1].referenceTime)
  {
    PathKnotsMonotone(path);
    RunMeansShape(PathKnots(path), 0);
    StepsAreMonotone(path, 0, |path| - 1);
  }

  lemma SelectedIsValid(points: seq<Point>, chosen: seq<nat>, result: seq<Point>)
    requires MappingValid(points) && Selects(points, chosen, result)
    ensures MappingValid(result)
    ensures result[0] == points[0] && result[|result| - 1] == points[|points| - 1]
  {
    forall i | 0 < i < |result|
      ensures result[i].refTime > result[i - 1].refTime && result[i].dutTime >= result[i - 1].dutTime
    {
      MappingOrder(points, chosen[i - 1], chosen[i]);
    }
  }

  /** The mapping reads a collapsed point back to within the tolerance, extrapolation or not. */
  ghost predicate ReadsBack(points: seq<Point>, p: Point, tolerance: real) {
    forall extrapolation ::
      && RefToDut(points, p.refTime, extrapolation).Ok?
      && Abs(RefToDut(points, p.refTime, extrapolation).value - p.dutTime) <= tolerance
  }

  lemma KnotReadsBack(points: seq<Point>, i: nat, tolerance: real)
    requires MappingValid(points) && i < |points| && tolerance >= 0.0
    ensures ReadsBack(points, points[i], tolerance)
  {
    ForwardRises(points);
    AtKnot(ForwardKnots(points), i);
    WithinEnds(points, i);
  }

  lemma ReadsOnSegment(points: seq<Point>, i: nat, time: real)
    requires MappingValid(points) && 0 < i < |points|
    requires points[i - 1].refTime <= time <= points[i].refTime
    ensures forall extrapolation ::
      RefToDut(points, time, extrapolation) == Ok(Chord(points[i - 1], points[i], time))
  {
    ForwardRises(points);
    WithinEnds(points, i - 1);
    WithinEnds(points, i);
    OnSegment(ForwardKnots(points), time, i);
    LineIsChord(points[i - 1], points[i], time);
  }

  lemma SegmentReadsBack(points: seq<Point>, i: nat, p: Point, tolerance: real)
    requires MappingValid(points) && 0 < i < |points|
    requires points[i - 1].refTime <= p.refTime <= points[i].refTime
    requires PerpendicularError(p, points[i - 1], points[i]) <= tolerance
    ensures ReadsBack(points, p, tolerance)
  {
    ReadsOnSegment(points, i, p.refTime);
  }

  /** A simplified mapping reads every collapsed point back to within the tolerance. */
  lemma SimplifiedReadsBack(points: seq<Point>, chosen: seq<nat>, result: seq<Point>, tolerance: real, k: nat)
    requires MappingValid(points) && Selects(points, chosen, result) && Covers(points, chosen, tolerance)
    requires MappingValid(result) && tolerance >= 0.0 && k < |points|
    ensures ReadsBack(result, points[k], tolerance)
  {
    if k in chosen {
      var i :| 0 <= i < |chosen| && chosen[i] == k;
      KnotReadsBack(result, i, tolerance);
    } else {
      var i := CoveringChord(points, chosen, tolerance, k);
      DroppedReadsBack(points, chosen, result, tolerance, k, i);
    }
  }

  lemma CoveringChord(points: seq<Point>, chosen: seq<nat>, tolerance: real, k: nat) returns (i: nat)
    requires forall j | 0 <= j < |chosen| :: chosen[j] < |points|
    requires Covers(points, chosen, tolerance) && k < |points| && k !in chosen
    ensures 0 < i < |chosen| && chosen[i - 1] < k < chosen[i]
    ensures PerpendicularError(points[k], points[chosen[i - 1]], points[chosen[i]]) <= tolerance
  {
    i :| 0 < i < |chosen| && chosen[i - 1] < k < chosen[i]
      && PerpendicularError(points[k], points[chosen[i - 1]], points[chosen[i]]) <= tolerance;
  }

  lemma DroppedReadsBack(points: seq<Point>, chosen: seq<nat>, result: seq<Point>, tolerance: real, k: nat, i: nat)
    requires MappingValid(points) && Selects(points, chosen, result) && MappingValid(result)
    requires k < |points| && 0 < i < |chosen| && chosen[i - 1] < k < chosen[i]
    requires PerpendicularError(points[k], result[i - 1], result[i]) <= tolerance
    ensures ReadsBack(result, points[k], tolerance)
  {
    MappingOrder(points, chosen[i - 1], k);
    MappingOrder(points, k, chosen[i]);
    SegmentReadsBack(result, i, points[k], tolerance);
  }

  lemma WithinEnds(points: seq<Point>, k: nat)
    requires MappingValid(points) && k < |points|
    ensures points[0].refTime <= points[k].refTime <= points[|points| - 1].refTime
  {
    if k > 0 { MappingOrder(points, 0, k); }
    if k < |points| - 1 { MappingOrder(points, k, |points| - 1); }
  }

  function DefaultTolerance(collapsed: seq<Point>): real
    requires |collapsed| >= 1
  {
    Larger(Abs(collapsed[|collapsed| - 1].dutTime - collapsed[0].dutTime) * 0.001, EPSILON * 32.0)
  }

  /** A thousandth of the DUT range, or 32 times 2 to the power -52 if that is more. */
  lemma DefaultToleranceIs(collapsed: seq<Point>, x: real)
    requires |collapsed| >= 1
    requires collapsed[0].dutTime <= collapsed[|collapsed| - 1].dutTime
    ensures x <= DefaultTolerance(collapsed) <==>
      || 1000.0 * x <= collapsed[|collapsed| - 1].dutTime - collapsed[0].dutTime
      || 4503599627370496.0 * x <= 32.0
  {
  }

  /** The cap on the number of points: whole when it fits, and the evenly spread selection when not. */
  ghost predicate Capped(simplified: seq<Point>, maximum: nat, points: seq<Point>) {
    && maximum >= 2
    && (|simplified| <= maximum ==> points == simplified)
    && (|simplified| > maximum ==>
          && |points| == maximum
          && (forall i | 0 <= i < maximum ::
                && 0 <= CapIndex(|simplified|, maximum, i) < |simplified|
                && points[i] == simplified[CapIndex(|simplified|, maximum, i)]))
  }

  /** The points of a mapping are the simplification of the collapsed path, cut down only if `capped`. */
  ghost predicate Shortened(c: seq<Point>, tolerance: real, maximum: nat, points: seq<Point>, capped: bool) {
    exists kept, simplified :: ShortenedFrom(c, tolerance, kept, simplified, maximum, points, capped)
  }

  ghost predicate ShortenedFrom(
    c: seq<Point>, tolerance: real, kept: seq<nat>, simplified: seq<Point>,
    maximum: nat, points: seq<Point>, capped: bool)
  {
    && Reduced(c, tolerance, kept, simplified)
    && Capped(simplified, maximum, points)
    && (capped <==> |simplified| > maximum)
  }

  /** The simplification and the cap leave no choice. */
  lemma {:induction false} ShortenedOnce(
    c: seq<Point>, tolerance: real, maximum: nat, points: seq<Point>, capped: bool, other: seq<Point>, cut: bool)
    requires Shortened(c, tolerance, maximum, points, capped) && Shortened(c, tolerance, maximum, other, cut)
    ensures points == other && capped == cut
  {
    var a, s :| ShortenedFrom(c, tolerance, a, s, maximum, points, capped);
    var b, t :| ShortenedFrom(c, tolerance, b, t, maximum, other, cut);
    ReducedOnce(c, tolerance, a, s, b, t);
  }

  /** What a built mapping is worth, whether or not it was capped. */
  ghost predicate Built(path: seq<Dtw.PathPoint>, maxMappingPoints: nat, tolerance: real, m: Mapping) {
    var c := Collapsed(path);
    && |c| >= 2
    && MappingValid(m.points)
    && Shortened(c, tolerance, maxMappingPoints, m.points, m.capped)
    && m.points[0] == c[0] && m.points[|m.points| - 1] == c[|c| - 1]
    && m.refRange == Range(path[0].referenceTime, path[|path| - 1].referenceTime)
    && m.dutRange == Range(c[0].dutTime, c[|c| - 1].dutTime)
    && m.refRange == Range(m.points[0].refTime, m.points[|m.points| - 1].refTime)
    && |m.points| <= maxMappingPoints
    && m.collapsedPoints == |c|
    && m.tolerance == tolerance
    && (!m.capped ==> forall k | 0 <= k < |c| :: ReadsBack(m.points, c[k], tolerance))
  }

  /** One path, cap and tolerance have one mapping. */
  lemma {:induction false} BuiltOnce(
    path: seq<Dtw.PathPoint>, maxMappingPoints: nat, tolerance: real, m: Mapping, n: Mapping)
    requires Built(path, maxMappingPoints, tolerance, m) && Built(path, maxMappingPoints, tolerance, n)
    ensures m == n
  {
    ShortenedOnce(Collapsed(path), tolerance, maxMappingPoints, m.points, m.capped, n.points, n.capped);
  }

  method CheckPath(path: seq<Dtw.PathPoint>) returns (ok: bool)
    ensures ok <==> StepsForward(path)
  {
    var i := 1;
    while i < |path|
      invariant 1 <= i && (|path| >= 1 ==> i <= |path|)
      invariant forall k | 0 < k < i && k < |path| ::
        path[k].referenceTime >= path[k - 1].referenceTime && path[k].dutTime >= path[k - 1].dutTime
    {
      if !(path[i].referenceTime >= path[i - 1].referenceTime && path[i].dutTime >= path[i - 1].dutTime) {
        return false;
      }
      i := i + 1;
    }
    return true;
  }

  lemma CapIsCapped(simplified: seq<Point>, maximum: nat, points: seq<Point>, chosen: seq<nat>)
    requires maximum >= 2 && Selects(simplified, chosen, points)
    requires |simplified| <= maximum ==> points == simplified
    requires |simplified| > maximum ==>
      |points| == maximum && forall i | 0 <= i < maximum :: chosen[i] == CapIndex(|simplified|, maximum, i)
    ensures Capped(simplified, maximum, points)
  {
    if |simplified| > maximum {
      forall i | 0 <= i < maximum
        ensures 0 <= CapIndex(|simplified|, maximum, i) < |simplified|
        ensures points[i] == simplified[CapIndex(|simplified|, maximum, i)]
      {
        assert chosen[i] == CapIndex(|simplified|, maximum, i);
      }
    }
  }

  lemma AllReadBack(points: seq<Point>, chosen: seq<nat>, result: seq<Point>, tolerance: real)
    requires MappingValid(points) && Selects(points, chosen, result) && Covers(points, chosen, tolerance)
    requires MappingValid(result) && tolerance >= 0.0
    ensures forall k | 0 <= k < |points| :: ReadsBack(result, points[k], tolerance)
  {
    forall k | 0 <= k < |points| ensures ReadsBack(result, points[k], tolerance) {
      SimplifiedReadsBack(points, chosen, result, tolerance, k);
    }
  }

  /** The two reductions of `buildTimeMapping`, simplification and then the cap. */
  method SimplifyAndCap(collapsed: seq<Point>, tolerance: real, maximum: nat)
    returns (points: seq<Point>, capped: bool)
    requires MappingValid(collapsed) && tolerance >= 0.0 && maximum >= 2
    ensures MappingValid(points) && Shortened(collapsed, tolerance, maximum, points, capped)
    ensures points[0] == collapsed[0] && points[|points| - 1] == collapsed[|collapsed| - 1]
    ensures |points| <= maximum
    ensures !capped ==> forall k | 0 <= k < |collapsed| :: ReadsBack(points, collapsed[k], tolerance)
  {
    var simplified, first := SimplifyRdp(collapsed, tolerance);
    ghost var second;
    points, second := CapPoints(simplified, maximum);
    capped := |simplified| > maximum;
    Shortens(collapsed, tolerance, first, simplified, maximum, second, points);
  }

  lemma Shortens(
    collapsed: seq<Point>, tolerance: real, first: seq<nat>, simplified: seq<Point>, maximum: nat,
    second: seq<nat>, points: seq<Point>)
    requires MappingValid(collapsed) && tolerance >= 0.0 && maximum >= 2
    requires Reduced(collapsed, tolerance, first, simplified) && Covers(collapsed, first, tolerance)
    requires Selects(simplified, second, points)
    requires |simplified| <= maximum ==> points == simplified
    requires |simplified| > maximum ==>
      |points| == maximum && forall i | 0 <= i < maximum :: second[i] == CapIndex(|simplified|, maximum, i)
    ensures MappingValid(points) && Shortened(collapsed, tolerance, maximum, points, |simplified| > maximum)
    ensures points[0] == collapsed[0] && points[|points| - 1] == collapsed[|collapsed| - 1]
    ensures |simplified| <= maximum ==>
      forall k | 0 <= k < |collapsed| :: ReadsBack(points, collapsed[k], tolerance)
  {
    SelectedIsValid(collapsed, first, simplified);
    SelectedIsValid(simplified, second, points);
    CapIsCapped(simplified, maximum, points, second);
    assert ShortenedFrom(collapsed, tolerance, first, simplified, maximum, points, |simplified| > maximum);
    AllReadBack(collapsed, first, simplified, tolerance);
  }

  method BuildTimeMapping(path: seq<Dtw.PathPoint>, maxMappingPoints: nat, tolerance: Option<real>)
    returns (r: Result<Mapping>)
    requires maxMappingPoints >= 2
    ensures r == Err(InvalidMapping) <==> !Mappable(path)
    ensures r == Err(InvalidOptions) <==> Mappable(path) && tolerance.Some? && tolerance.value < 0.0
    ensures r.Err? ==> r.code == InvalidMapping || r.code == InvalidOptions
    ensures r.Ok? ==> |Collapsed(path)| >= 2 && Built(path, maxMappingPoints,
              if tolerance.Some? then tolerance.value else DefaultTolerance(Collapsed(path)), r.value)
  {
    if |path| < 2 {
      return Err(InvalidMapping);
    }
    var monotone := CheckPath(path);
    if !monotone {
      return Err(InvalidMapping);
    }
    PathKnotsMonotone(path);
    var runs := Collapse(PathKnots(path));
    var collapsed := AsPoints(runs);
    CollapsedShape(path);
    if |collapsed| < 2 {
      return Err(InvalidMapping);
    }
    var effectiveTolerance := if tolerance.Some? then tolerance.value else DefaultTolerance(collapsed);
    if effectiveTolerance < 0.0 {
      return Err(InvalidOptions);
    }
    var points, capped := SimplifyAndCap(collapsed, effectiveTolerance, maxMappingPoints);
    r := Ok(Mapping(
      points,
      Range(points[0].refTime, points[|points| - 1].refTime),
      Range(points[0].dutTime, points[|points| - 1].dutTime),
      |collapsed|, effectiveTolerance, capped));
  }

  /** Every path the warping returns can be mapped. */
  lemma TimedIsMappable(path: seq<Dtw.PathPoint>)
    requires Dtw.Timed(path)
    ensures Mappable(path)
  {
  }

  /**
   Readable both ways: everywhere without the error policy, and inside its range under any policy.
   Only a mapping to a single DUT time has no inverse.
   */
  ghost predicate Readable(m: Mapping) {
    && (forall t, extrapolation: Extrapolation | !extrapolation.Error? || m.refRange.start <= t <= m.refRange.end ::
          RefToDut(m.points, t, extrapolation).Ok?)
    && (m.dutRange.start < m.dutRange.end ==>
          forall t, extrapolation: Extrapolation | !extrapolation.Error? || m.dutRange.start <= t <= m.dutRange.end ::
            DutToRef(m.points, t, extrapolation).Ok?)
    && (m.dutRange.start >= m.dutRange.end ==>
          forall t, extrapolation: Extrapolation :: DutToRef(m.points, t, extrapolation) == Err(InvalidMapping))
  }

  lemma ReadsForwards(points: seq<Point>, t: real, extrapolation: Extrapolation)
    requires MappingValid(points)
    requires !extrapolation.Error? || points[0].refTime <= t <= points[|points| - 1].refTime
    ensures RefToDut(points, t, extrapolation).Ok?
  {
    ForwardRises(points);
  }

  lemma ReadsBackwards(points: seq<Point>, t: real, extrapolation: Extrapolation)
    requires MappingValid(points)
    ensures points[0].dutTime >= points[|points| - 1].dutTime ==>
      DutToRef(points, t, extrapolation) == Err(InvalidMapping)
    ensures points[0].dutTime < points[|points| - 1].dutTime ==>
      (!extrapolation.Error? || points[0].dutTime <= t <= points[|points| - 1].dutTime ==>
         DutToRef(points, t, extrapolation).Ok?)
  {
    InverseSpansDut(points);
    if points[0].dutTime < points[|points| - 1].dutTime {
      InverseRises(points);
    }
  }

  lemma BuiltRanges(path: seq<Dtw.PathPoint>, maximum: nat, tolerance: real, m: Mapping)
    requires |path| >= 1 && Built(path, maximum, tolerance, m)
    ensures MappingValid(m.points)
    ensures m.refRange == Range(m.points[0].refTime, m.points[|m.points| - 1].refTime)
    ensures m.dutRange == Range(m.points[0].dutTime, m.points[|m.points| - 1].dutTime)
  {
  }

  lemma {:induction false} BuiltIsReadable(path: seq<Dtw.PathPoint>, maximum: nat, tolerance: real, m: Mapping)
    requires |path| >= 1 && Built(path, maximum, tolerance, m)
    ensures Readable(m)
  {
    BuiltRanges(path, maximum, tolerance, m);
    ValidIsReadable(m);
  }

  lemma ValidIsReadable(m: Mapping)
    requires MappingValid(m.points)
    requires m.refRange == Range(m.points[0].refTime, m.points[|m.points| - 1].refTime)
    requires m.dutRange == Range(m.points[0].dutTime, m.points[|m.points| - 1].dutTime)
    ensures Readable(m)
  {
    forall t, extrapolation: Extrapolation | !extrapolation.Error? || m.refRange.start <= t <= m.refRange.end
      ensures RefToDut(m.points, t, extrapolation).Ok?
    {
      ReadsForwards(m.points, t, extrapolation);
    }
    forall t, extrapolation: Extrapolation
      ensures m.dutRange.start >= m.dutRange.end ==> DutToRef(m.points, t, extrapolation) == Err(InvalidMapping)
      ensures m.dutRange.start < m.dutRange.end ==>
        (!extrapolation.Error? || m.dutRange.start <= t <= m.dutRange.end ==>
           DutToRef(m.points, t, extrapolation).Ok?)
    {
      ReadsBackwards(m.points, t, extrapolation);
    }
  }

  /** The mapping of one candidate: built, within the default tolerance, from its optimal alignment. */
  ghost predicate Maps(
    reference: Series.Series, dut: Series.Series, candidate: Dtw.Candidate, limits: Dtw.Limits, options: Dtw.Options,
    a: Dtw.Alignment, m: Mapping)
    requires Series.Valid(reference) && Series.Valid(dut)
  {
    && Dtw.Aligned(reference, dut, candidate, limits, options, a)
    && |Collapsed(a.path)| >= 2
    && Built(a.path, limits.maxMappingPoints, DefaultTolerance(Collapsed(a.path)), m)
  }

  /**
   Warping and mapping for one candidate, as alignment/align.mjs chains them. Once the warping
   succeeds the mapping cannot fail, and it covers exactly the reference's time range.
   */
  method AlignCandidate(
    reference: Series.Series, dut: Series.Series, candidate: Dtw.Candidate, limits: Dtw.Limits, options: Dtw.Options)
    returns (r: Result<Mapping>)
    requires Series.Valid(reference) && Series.Valid(dut) && limits.maxMappingPoints >= 2
    ensures Dtw.EarlyRefusal(reference, dut, candidate, options).Refused? ==>
      r == Err(Dtw.EarlyRefusal(reference, dut, candidate, options).code)
    ensures Dtw.EarlyRefusal(reference, dut, candidate, options).Accepted? ==>
      Dtw.Settled(reference, dut, candidate, limits, options, r.Failure())
    ensures r.Ok? ==> exists a :: Maps(reference, dut, candidate, limits, options, a, r.value)
    ensures r.Ok? ==>
      && r.value.refRange == Range(reference.timestamps[0], reference.timestamps[|reference.timestamps| - 1])
      && Readable(r.value)
  {
    var warped := Dtw.ConstrainedDtw(reference, dut, candidate, limits, options);
    if warped.Err? {
      return Err(warped.code);
    }
    var path := warped.value.path;
    WarpedPath(reference, dut, candidate, limits, options, warped.value);
    r := BuildTimeMapping(path, limits.maxMappingPoints, None);
    assert Maps(reference, dut, candidate, limits, options, warped.value, r.value);
    BuiltIsReadable(path, limits.maxMappingPoints, DefaultTolerance(Collapsed(path)), r.value);
  }

  lemma WarpedPath(
    reference: Series.Series, dut: Series.Series, candidate: Dtw.Candidate, limits: Dtw.Limits, options: Dtw.Options,
    a: Dtw.Alignment)
    requires Series.Valid(reference) && Series.Valid(dut)
    requires Dtw.Aligned(reference, dut, candidate, limits, options, a)
    ensures Mappable(a.path)
    ensures a.path[0].referenceTime == reference.timestamps[0]
    ensures a.path[|a.path| - 1].referenceTime == reference.timestamps[|reference.timestamps| - 1]
  {
    TimedIsMappable(a.path);
  }
}

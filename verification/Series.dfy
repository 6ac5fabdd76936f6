/**
 alignment/series.mjs: resampling a time series on a uniform grid. The binary search, the
 interpolation loop and the sampling loop are kept as loops over arrays.
 */
module Series {
  import opened AlignmentErrors
  import RealMath

  datatype Series = Series(timestamps: seq<real>, values: seq<seq<real>>)

  ghost predicate Increasing(times: seq<real>) {
    forall i, j | 0 <= i < j < |times| :: times[i] < times[j]
  }

  /** What `validateTimeSeries` leaves behind: strict timestamps, vectors of one dimension. */
  ghost predicate Valid(series: Series) {
    && |series.timestamps| == |series.values| >= 1
    && Increasing(series.timestamps)
    && |series.values[0]| >= 1
    && (forall i | 0 <= i < |series.values| :: |series.values[i]| == |series.values[0]|)
  }

  /** The height at `at` of the straight line through two points. */
  function Line(x0: real, y0: real, x1: real, y1: real, at: real): real
    requires x0 != x1
  {
    y0 + (y1 - y0) * ((at - x0) / (x1 - x0))
  }

  /**
   `vector` is the value at `time` of the polyline through the samples, held constant outside
   them: every segment that contains `time`, not only the one a search lands on, agrees with it.
   */
  ghost predicate Interpolates(series: Series, time: real, vector: seq<real>)
    requires Valid(series)
  {
    var times, values := series.timestamps, series.values;
    && |vector| == |values[0]|
    && (time <= times[0] ==> vector == values[0])
    && (time >= times[|times| - 1] ==> vector == values[|values| - 1])
    && (forall k, d | 0 <= k < |times| - 1 && times[k] <= time <= times[k + 1] && 0 <= d < |vector| ::
          vector[d] == Line(times[k], values[k][d], times[k + 1], values[k + 1][d], time))
  }

  /** The first index whose value is not below `target`. */
  method LowerBound(values: seq<real>, target: real) returns (low: nat)
    requires Increasing(values)
    ensures low <= |values|
    ensures forall k | 0 <= k < low :: values[k] < target
    ensures forall k | low <= k < |values| :: target <= values[k]
  {
    low := 0;
    var high := |values|;
    while low < high
      invariant 0 <= low <= high <= |values|
      invariant forall k | 0 <= k < low :: values[k] < target
      invariant forall k | high <= k < |values| :: target <= values[k]
    {
      var middle := (low + high) / 2;
      if values[middle] < target {
        low := middle + 1;
      } else {
        high := middle;
      }
    }
  }

  lemma LineThroughEnds(x0: real, y0: real, x1: real, y1: real)
    requires x0 != x1
    ensures Line(x0, y0, x1, y1, x0) == y0
    ensures Line(x0, y0, x1, y1, x1) == y1
  {
    assert (x1 - x0) / (x1 - x0) == 1.0;
  }

  /** At a sample time the polyline passes through the sample, from either side. */
  lemma SampleInterpolates(series: Series, index: nat)
    requires Valid(series) && index < |series.timestamps|
    ensures Interpolates(series, series.timestamps[index], series.values[index])
  {
    var times, values := series.timestamps, series.values;
    var time := times[index];
    forall k, d | 0 <= k < |times| - 1 && times[k] <= time <= times[k + 1] && 0 <= d < |values[0]|
      ensures values[index][d] == Line(times[k], values[k][d], times[k + 1], values[k + 1][d], time)
    {
      assert k == index || k + 1 == index;
      LineThroughEnds(times[k], values[k][d], times[k + 1], values[k + 1][d]);
    }
  }

  /** Strictly inside one segment, being on that segment is all there is to it. */
  lemma SegmentInterpolates(series: Series, time: real, left: nat, vector: seq<real>)
    requires Valid(series) && left + 1 < |series.timestamps|
    requires series.timestamps[left] < time < series.timestamps[left + 1]
    requires |vector| == |series.values[0]|
    requires forall d | 0 <= d < |vector| ::
        vector[d] == Line(series.timestamps[left], series.values[left][d],
                          series.timestamps[left + 1], series.values[left + 1][d], time)
    ensures Interpolates(series, time, vector)
  {
    var times := series.timestamps;
    forall k | 0 <= k < |times| - 1 && times[k] <= time <= times[k + 1] ensures k == left {}
  }

  /** The dimension loop of `interpolateVectorAt`. */
  method Blend(x0: real, left: seq<real>, x1: real, right: seq<real>, time: real) returns (vector: seq<real>)
    requires x0 < x1 && |left| == |right|
    ensures |vector| == |left|
    ensures forall d | 0 <= d < |vector| :: vector[d] == Line(x0, left[d], x1, right[d], time)
  {
    var ratio := (time - x0) / (x1 - x0);
    var output := new real[|left|];
    var dimension := 0;
    while dimension < output.Length
      invariant 0 <= dimension <= output.Length
      invariant forall d | 0 <= d < dimension :: output[d] == Line(x0, left[d], x1, right[d], time)
    {
      output[dimension] := left[dimension] + (right[dimension] - left[dimension]) * ratio;
      dimension := dimension + 1;
    }
    vector := output[..];
  }

  method InterpolateVectorAt(series: Series, time: real) returns (vector: seq<real>)
    requires Valid(series)
    ensures Interpolates(series, time, vector)
  {
    var times, values := series.timestamps, series.values;
    if time <= times[0] {
      SampleInterpolates(series, 0);
      return values[0];
    }
    var lastIndex := |times| - 1;
    if time >= times[lastIndex] {
      SampleInterpolates(series, lastIndex);
      return values[lastIndex];
    }
    var right := LowerBound(times, time);
    if times[right] == time {
      SampleInterpolates(series, right);
      return values[right];
    }
    var left := right - 1;
    vector := Blend(times[left], values[left], times[right], values[right], time);
    SegmentInterpolates(series, time, left, vector);
  }

  datatype Sampled = Sampled(series: Series, naturalCount: nat, downsampled: bool)

  /** How many of the original samples lie in a closed range. */
  ghost function Inside(times: seq<real>, start: real, end: real): nat {
    |set k | 0 <= k < |times| && start <= times[k] <= end|
  }

  ghost function Interval(low: int, high: int): (r: set<int>)
    requires low <= high
    ensures |r| == high - low
    ensures forall k :: k in r <==> low <= k < high
    decreases high - low
  {
    if low == high then {} else Interval(low, high - 1) + {high - 1}
  }

  function Grid(start: real, end: real, count: nat, index: nat): real
    requires count >= 2
  {
    start + (end - start) * (index as real / (count - 1) as real)
  }

  lemma GridIncreases(start: real, end: real, count: nat, i: nat, j: nat)
    requires count >= 2 && start < end && i < j
    ensures Grid(start, end, count, i) < Grid(start, end, count, j)
  {
    var n := (count - 1) as real;
    RealMath.DivKeepsLess(i as real, j as real, n);
    RealMath.MulKeepsLess(i as real / n, j as real / n, end - start);
  }

  predicate InRange(series: Series, start: real, end: real)
    requires |series.timestamps| >= 1
  {
    start < end && start >= series.timestamps[0] && end <= series.timestamps[|series.timestamps| - 1]
  }

  /** Number of samples a range asks for before the limit: the originals in it, and its two ends. */
  ghost function NaturalCount(times: seq<real>, start: real, end: real): nat {
    var count := Inside(times, start, end)
      + (if start in times then 0 else 1) + (if end in times then 0 else 1);
    if count < 2 then 2 else count
  }

  lemma NaturalCountFromBounds(times: seq<real>, start: real, end: real, first: nat, last: nat)
    requires Increasing(times) && first <= last < |times| && start < end
    requires forall k | 0 <= k < first :: times[k] < start
    requires forall k | first <= k < |times| :: start <= times[k]
    requires forall k | 0 <= k < last :: times[k] < end
    requires forall k | last <= k < |times| :: end <= times[k]
    ensures start in times <==> times[first] == start
    ensures end in times <==> times[last] == end
    ensures Inside(times, start, end) == (if times[last] == end then last + 1 else last) - first
  {
    InsideIs(times, start, end, first, if times[last] == end then last + 1 else last);
  }

  lemma InsideIs(times: seq<real>, start: real, end: real, first: nat, stop: nat)
    requires first <= stop <= |times|
    requires forall k | 0 <= k < |times| :: start <= times[k] <= end <==> first <= k < stop
    ensures Inside(times, start, end) == stop - first
  {
    var inside := set k | 0 <= k < |times| && start <= times[k] <= end;
    forall k ensures k in inside <==> k in Interval(first, stop) {}
    assert inside == Interval(first, stop);
  }

  lemma GridEnds(start: real, end: real, count: nat)
    requires count >= 2
    ensures Grid(start, end, count, 0) == start
    ensures Grid(start, end, count, count - 1) == end
  {
  }

  /** Neighbouring sample times are equally far apart. */
  lemma GridIsUniform(start: real, end: real, count: nat, i: nat)
    requires count >= 2
    ensures (Grid(start, end, count, i + 1) - Grid(start, end, count, i)) * (count - 1) as real == end - start
  {
    var n, d, x := (count - 1) as real, end - start, i as real;
    assert (x + 1.0) / n == x / n + 1.0 / n;
    assert d * (x / n + 1.0 / n) == d * (x / n) + d * (1.0 / n);
    assert d * (1.0 / n) * n == d * (1.0 / n * n) == d;
  }

  lemma GridIsIncreasing(start: real, end: real, times: seq<real>)
    requires |times| >= 2 && start < end
    requires forall i | 0 <= i < |times| :: times[i] == Grid(start, end, |times|, i)
    ensures Increasing(times) && times[0] == start && times[|times| - 1] == end
  {
    GridEnds(start, end, |times|);
    forall i, j | 0 <= i < j < |times| ensures times[i] < times[j] {
      GridIncreases(start, end, |times|, i, j);
    }
  }

  /** The number of samples a range is given: at least two, and no more than the maximum allows. */
  ghost function SampleCount(times: seq<real>, start: real, end: real, maximumSamples: nat): nat {
    var natural := NaturalCount(times, start, end);
    if maximumSamples <= 2 then 2 else if maximumSamples < natural then maximumSamples else natural
  }

  /** `sampled` is the polyline read off on a uniform grid that starts and ends on the range. */
  ghost predicate Resampled(series: Series, start: real, end: real, sampled: Series)
    requires Valid(series)
  {
    var times, values, n := sampled.timestamps, sampled.values, |sampled.timestamps|;
    && Valid(sampled) && |values[0]| == |series.values[0]|
    && n >= 2 && times[0] == start && times[n - 1] == end
    && (forall i | 0 <= i < n :: times[i] == Grid(start, end, n, i))
    && (forall i | 0 <= i < n :: Interpolates(series, times[i], values[i]))
  }

  /** The sampling loop of `sampleSeriesRange`. */
  method SampleGrid(series: Series, start: real, end: real, sampleCount: nat) returns (sampled: Series)
    requires Valid(series) && start < end && sampleCount >= 2
    ensures Resampled(series, start, end, sampled) && |sampled.timestamps| == sampleCount
  {
    var timestamps := new real[sampleCount];
    var values := new seq<real>[sampleCount];
    var index := 0;
    while index < sampleCount
      invariant 0 <= index <= sampleCount
      invariant forall i | 0 <= i < index :: timestamps[i] == Grid(start, end, sampleCount, i)
      invariant forall i | 0 <= i < index :: |values[i]| == |series.values[0]|
      invariant forall i | 0 <= i < index :: Interpolates(series, timestamps[i], values[i])
    {
      var ratio := index as real / (sampleCount - 1) as real;
      var timestamp := start + (end - start) * ratio;
      timestamps[index] := timestamp;
      values[index] := InterpolateVectorAt(series, timestamp);
      index := index + 1;
    }
    GridIsIncreasing(start, end, timestamps[..]);
    sampled := Series(timestamps[..], values[..]);
  }

  method SampleSeriesRange(series: Series, start: real, end: real, maximumSamples: nat)
    returns (r: Result<Sampled>)
    requires Valid(series)
    ensures r.Ok? <==> InRange(series, start, end)
    ensures r.Err? ==> r.code == InvalidRange
    ensures r.Ok? ==>
      && Resampled(series, start, end, r.value.series)
      && r.value.naturalCount == NaturalCount(series.timestamps, start, end)
      && |r.value.series.timestamps| == SampleCount(series.timestamps, start, end, maximumSamples)
      && (r.value.downsampled <==> |r.value.series.timestamps| < r.value.naturalCount)
  {
    var source := series.timestamps;
    if !(start < end) || !(start >= source[0] && end <= source[|source| - 1]) {
      return Err(InvalidRange);
    }
    var first := LowerBound(source, start);
    var last := LowerBound(source, end);
    var exactStart := source[first] == start;
    var exactEnd := source[last] == end;
    var originalEndExclusive := if exactEnd then last + 1 else last;
    var originalPointCount := if originalEndExclusive < first then 0 else originalEndExclusive - first;
    var naturalCount := originalPointCount + (if exactStart then 0 else 1) + (if exactEnd then 0 else 1);
    naturalCount := if naturalCount < 2 then 2 else naturalCount;
    NaturalCountFromBounds(source, start, end, first, last);
    var smaller := if maximumSamples < naturalCount then maximumSamples else naturalCount;
    var sampleCount := if smaller < 2 then 2 else smaller;
    var sampled := SampleGrid(series, start, end, sampleCount);
    return Ok(Sampled(sampled, naturalCount, sampleCount < naturalCount));
  }

  // ---- a range has one resampling ------------------------------------------------------------

  lemma {:induction false} SegmentAround(times: seq<real>, time: real, n: nat) returns (k: nat)
    requires 0 < n < |times| && times[0] <= time <= times[n]
    ensures k < n && times[k] <= time <= times[k + 1]
    decreases n
  {
    if times[n - 1] <= time {
      k := n - 1;
    } else {
      k := SegmentAround(times, time, n - 1);
    }
  }

  lemma {:induction false} InterpolatesOnce(series: Series, time: real, v: seq<real>, w: seq<real>)
    requires Valid(series) && Interpolates(series, time, v) && Interpolates(series, time, w)
    ensures v == w
  {
    var last := |series.timestamps| - 1;
    if series.timestamps[0] < time < series.timestamps[last] {
      var k := SegmentAround(series.timestamps, time, last);
      forall d | 0 <= d < |v| ensures v[d] == w[d] {}
    }
  }

  /** The range and the number of samples determine the resampled series. */
  lemma {:induction false} ResampledOnce(series: Series, start: real, end: real, a: Series, b: Series)
    requires Valid(series) && Resampled(series, start, end, a) && Resampled(series, start, end, b)
    requires |a.timestamps| == |b.timestamps|
    ensures a == b
  {
    forall i | 0 <= i < |a.timestamps| ensures a.timestamps[i] == b.timestamps[i] && a.values[i] == b.values[i] {
      InterpolatesOnce(series, a.timestamps[i], a.values[i], b.values[i]);
    }
  }
}

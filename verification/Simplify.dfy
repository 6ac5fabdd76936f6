/**
 The Ramer-Douglas-Peucker simplification of alignment/mapping.mjs: the explicit-stack loop
 refines the recursive algorithm, and whatever that drops stays within the tolerance of the
 polyline that is left.
 */
module Simplify {
  import opened DtwModel
  import RealMath

  datatype Point = Point(refTime: real, dutTime: real)

  /** The height of the chord from `start` to `end` above `at`. */
  function Chord(start: Point, end: Point, at: real): real {
    var span := end.refTime - start.refTime;
    if span == 0.0 then start.dutTime
    else start.dutTime + (end.dutTime - start.dutTime) * ((at - start.refTime) / span)
  }

  function PerpendicularError(point: Point, start: Point, end: Point): real {
    Abs(point.dutTime - Chord(start, end, point.refTime))
  }

  // ---- the recursive algorithm ---------------------------------------------------------------

  /** The first index strictly between `start` and `upTo` with the largest error; -1 if there is none. */
  function Farthest(points: seq<Point>, start: nat, end: nat, upTo: nat): (r: int)
    requires start < upTo <= end < |points|
    ensures upTo == start + 1 ==> r == -1
    ensures upTo > start + 1 ==> start < r < upTo
    ensures forall k | start < k < upTo ::
      PerpendicularError(points[k], points[start], points[end])
        <= PerpendicularError(points[r], points[start], points[end])
  {
    if upTo == start + 1 then -1
    else
      var m := Farthest(points, start, end, upTo - 1);
      if m == -1
        || PerpendicularError(points[upTo - 1], points[start], points[end])
             > PerpendicularError(points[m], points[start], points[end])
      then upTo - 1 else m
  }

  /** The index at which the interval from `start` to `end` is split, if it needs splitting. */
  function SplitAt(points: seq<Point>, start: nat, end: nat, tolerance: real): (r: int)
    requires start < end < |points|
    ensures r == -1 || start < r < end
    ensures r == -1 ==> forall k | start < k < end ::
      PerpendicularError(points[k], points[start], points[end]) <= tolerance
  {
    var m := Farthest(points, start, end, end);
    if m != -1 && PerpendicularError(points[m], points[start], points[end]) > tolerance then m else -1
  }

  /** The interior indices that the recursion keeps. */
  function Kept(points: seq<Point>, start: nat, end: nat, tolerance: real): (r: set<int>)
    requires start < end < |points|
    ensures forall k | k in r :: start < k < end
    decreases end - start
  {
    var m := SplitAt(points, start, end, tolerance);
    if m == -1 then {}
    else Kept(points, start, m, tolerance) + {m} + Kept(points, m, end, tolerance)
  }

  /** Two kept indices with nothing kept between them. */
  predicate Neighbours(kept: set<int>, a: int, b: int) {
    a < b && a in kept && b in kept && forall k | a < k < b :: k !in kept
  }

  /** Joining two halves at `m` separates no neighbours of either half. */
  lemma NeighboursJoin(left: set<int>, right: set<int>, start: int, m: int, end: int, a: int, b: int)
    requires start < m < end
    requires (forall k | k in left :: start < k < m) && (forall k | k in right :: m < k < end)
    requires Neighbours(left + {start, m}, a, b) || Neighbours(right + {m, end}, a, b)
    ensures Neighbours(left + {m} + right + {start, end}, a, b)
  {
  }

  /** A dropped point lies within the tolerance of the chord between its kept neighbours. */
  lemma {:induction false} DroppedIsClose(points: seq<Point>, start: nat, end: nat, tolerance: real, k: nat)
    returns (a: nat, b: nat)
    requires start < k < end < |points|
    requires k !in Kept(points, start, end, tolerance)
    ensures start <= a < k < b <= end
    ensures Neighbours(Kept(points, start, end, tolerance) + {start, end}, a, b)
    ensures PerpendicularError(points[k], points[a], points[b]) <= tolerance
    decreases end - start
  {
    var m := SplitAt(points, start, end, tolerance);
    if m == -1 {
      a, b := start, end;
    } else if k < m {
      a, b := DroppedIsClose(points, start, m, tolerance, k);
      NeighboursJoin(Kept(points, start, m, tolerance), Kept(points, m, end, tolerance), start, m, end, a, b);
    } else {
      a, b := DroppedIsClose(points, m, end, tolerance, k);
      NeighboursJoin(Kept(points, start, m, tolerance), Kept(points, m, end, tolerance), start, m, end, a, b);
    }
  }

  /** Nothing is kept without need: every kept point was farther than the tolerance from a chord of kept points. */
  lemma {:induction false} KeptIsNeeded(points: seq<Point>, start: nat, end: nat, tolerance: real, k: int)
      returns (a: nat, b: nat)
    requires start < end < |points| && k in Kept(points, start, end, tolerance)
    ensures start <= a < k < b <= end
    ensures {a, b} <= Kept(points, start, end, tolerance) + {start, end}
    ensures PerpendicularError(points[k], points[a], points[b]) > tolerance
    decreases end - start
  {
    var m := SplitAt(points, start, end, tolerance);
    if k == m {
      a, b := start, end;
    } else if k < m {
      a, b := KeptIsNeeded(points, start, m, tolerance, k);
    } else {
      a, b := KeptIsNeeded(points, m, end, tolerance, k);
    }
  }

  // ---- the loop with its own stack -----------------------------------------------------------

  datatype Interval = Interval(start: nat, end: nat)

  ghost predicate StackValid(points: seq<Point>, stack: seq<Interval>) {
    forall i | 0 <= i < |stack| :: stack[i].start < stack[i].end < |points|
  }

  /** What the intervals still on the stack will keep. */
  ghost function Pending(points: seq<Point>, stack: seq<Interval>, tolerance: real): set<int>
    requires StackValid(points, stack)
  {
    if stack == [] then {}
    else
      var top := stack[|stack| - 1];
      Pending(points, stack[..|stack| - 1], tolerance) + Kept(points, top.start, top.end, tolerance)
  }

  /** Every round removes an interval of length n or replaces it by two of total length n. */
  ghost function Work(stack: seq<Interval>): nat
    requires forall i | 0 <= i < |stack| :: stack[i].start < stack[i].end
  {
    if stack == [] then 0
    else
      var top := stack[|stack| - 1];
      Work(stack[..|stack| - 1]) + 2 * (top.end - top.start) - 1
  }

  lemma PushTwo(points: seq<Point>, rest: seq<Interval>, start: nat, m: nat, end: nat, tolerance: real)
    requires StackValid(points, rest) && start < m < end < |points|
    ensures var stack := rest + [Interval(start, m), Interval(m, end)];
      && StackValid(points, stack)
      && Work(stack) == Work(rest) + 2 * (end - start) - 2
      && Pending(points, stack, tolerance)
        == Pending(points, rest, tolerance) + Kept(points, start, m, tolerance) + Kept(points, m, end, tolerance)
  {
    var stack := rest + [Interval(start, m), Interval(m, end)];
    var middle := rest + [Interval(start, m)];
    assert stack[..|stack| - 1] == middle;
    assert middle[..|middle| - 1] == rest;
    assert StackValid(points, middle);
    assert Work(middle) == Work(rest) + 2 * (m - start) - 1;
  }

  method FindFarthest(points: seq<Point>, start: nat, end: nat) returns (maximumError: real, maximumIndex: int)
    requires start < end < |points|
    ensures maximumIndex == Farthest(points, start, end, end)
    ensures maximumIndex == -1 ==> maximumError == -1.0
    ensures maximumIndex != -1 ==>
      maximumError == PerpendicularError(points[maximumIndex], points[start], points[end])
  {
    maximumError, maximumIndex := -1.0, -1;
    var index := start + 1;
    while index < end
      invariant start < index <= end
      invariant maximumIndex == Farthest(points, start, end, index)
      invariant maximumIndex == -1 ==> maximumError == -1.0
      invariant maximumIndex != -1 ==>
        maximumError == PerpendicularError(points[maximumIndex], points[start], points[end])
    {
      var error := PerpendicularError(points[index], points[start], points[end]);
      if error > maximumError {
        maximumError := error;
        maximumIndex := index;
      }
      index := index + 1;
    }
  }

  /** Everything the recursion keeps is flagged already or pending on the stack. */
  ghost predicate Accounts(flags: seq<bool>, pending: set<int>, all: set<int>) {
    && (forall k :: k in pending ==> 0 < k < |flags| - 1)
    && (forall k | 0 <= k < |flags| :: k in all <==> flags[k] || k in pending)
  }

  lemma FlagOne(flags: seq<bool>, pending: set<int>, m: int, all: set<int>)
    requires 0 <= m < |flags| && Accounts(flags, pending + {m}, all)
    ensures Accounts(flags[m := true], pending, all)
  {
    forall k | k in pending ensures 0 < k < |flags| - 1 {
      assert k in pending + {m};
    }
  }

  /** The top interval needs no split: it is dropped. */
  lemma DropTop(points: seq<Point>, stack: seq<Interval>, tolerance: real)
    requires |stack| > 0 && StackValid(points, stack)
    requires SplitAt(points, stack[|stack| - 1].start, stack[|stack| - 1].end, tolerance) == -1
    ensures var rest := stack[..|stack| - 1];
      && StackValid(points, rest) && Work(rest) < Work(stack)
      && Pending(points, rest, tolerance) == Pending(points, stack, tolerance)
  {
  }

  /** The top interval is split: its halves and the index between them are all it keeps. */
  lemma SplitTop(points: seq<Point>, stack: seq<Interval>, tolerance: real)
    requires |stack| > 0 && StackValid(points, stack)
    requires SplitAt(points, stack[|stack| - 1].start, stack[|stack| - 1].end, tolerance) != -1
    ensures var rest, top := stack[..|stack| - 1], stack[|stack| - 1];
      var m := SplitAt(points, top.start, top.end, tolerance);
      var pushed := rest + [Interval(top.start, m), Interval(m, top.end)];
      && StackValid(points, pushed) && Work(pushed) < Work(stack)
      && Pending(points, pushed, tolerance) + {m} == Pending(points, stack, tolerance)
  {
    var rest, top := stack[..|stack| - 1], stack[|stack| - 1];
    var m := SplitAt(points, top.start, top.end, tolerance);
    PushTwo(points, rest, top.start, m, top.end, tolerance);
  }

  /** The `keep` flags after the loop are exactly what the recursion keeps, plus both ends. */
  method MarkKept(points: seq<Point>, tolerance: real) returns (keep: array<bool>)
    requires |points| > 2 && tolerance > 0.0
    ensures keep.Length == |points|
    ensures Accounts(keep[..], {}, Kept(points, 0, |points| - 1, tolerance) + {0, |points| - 1})
  {
    var last := |points| - 1;
    ghost var all := Kept(points, 0, last, tolerance) + {0, last};
    keep := new bool[|points|](_ => false);
    keep[0] := true;
    keep[last] := true;
    var stack: seq<Interval> := [Interval(0, last)];
    assert stack[..0] == [];
    while |stack| > 0
      invariant StackValid(points, stack)
      invariant Accounts(keep[..], Pending(points, stack, tolerance), all)
      decreases Work(stack)
    {
      var Interval(start, end) := stack[|stack| - 1];
      ghost var before, flags := stack, keep[..];
      stack := stack[..|stack| - 1];
      var maximumError, maximumIndex := FindFarthest(points, start, end);
      if maximumError > tolerance {
        SplitTop(points, before, tolerance);
        keep[maximumIndex] := true;
        assert keep[..] == flags[maximumIndex := true];
        stack := stack + [Interval(start, maximumIndex), Interval(maximumIndex, end)];
        FlagOne(flags, Pending(points, stack, tolerance), maximumIndex, all);
      } else {
        DropTop(points, before, tolerance);
      }
    }
  }

  /** Strictly increasing indices that start at the first point and end at the last. */
  ghost predicate Selects(points: seq<Point>, chosen: seq<nat>, result: seq<Point>) {
    && |chosen| == |result| >= 2
    && chosen[0] == 0 && chosen[|chosen| - 1] == |points| - 1
    && (forall i, j | 0 <= i < j < |chosen| :: chosen[i] < chosen[j])
    && (forall i | 0 <= i < |chosen| :: chosen[i] < |points| && result[i] == points[chosen[i]])
  }

  method FilterKept(points: seq<Point>, keep: array<bool>) returns (result: seq<Point>, ghost chosen: seq<nat>)
    requires |points| >= 2 && keep.Length == |points| && keep[0] && keep[|points| - 1]
    ensures Selects(points, chosen, result)
    ensures forall k | 0 <= k < |points| :: keep[k] <==> k in chosen
  {
    result, chosen := [], [];
    var index := 0;
    while index < |points|
      invariant 0 <= index <= |points| && |chosen| == |result|
      invariant index > 0 ==> |chosen| > 0 && chosen[0] == 0
      invariant index == |points| ==> |chosen| >= 2 && chosen[|chosen| - 1] == |points| - 1
      invariant forall i, j | 0 <= i < j < |chosen| :: chosen[i] < chosen[j]
      invariant forall i | 0 <= i < |chosen| :: chosen[i] < index && result[i] == points[chosen[i]]
      invariant forall k | 0 <= k < index :: keep[k] <==> k in chosen
    {
      if keep[index] {
        result := result + [points[index]];
        chosen := chosen + [index];
      }
      index := index + 1;
    }
  }

  /** Every point is within the tolerance of the chord between two consecutive selected points. */
  ghost predicate Covers(points: seq<Point>, chosen: seq<nat>, tolerance: real)
    requires forall i | 0 <= i < |chosen| :: chosen[i] < |points|
  {
    forall k | 0 <= k < |points| :: k in chosen || exists i | 0 < i < |chosen| ::
      chosen[i - 1] < k < chosen[i]
      && PerpendicularError(points[k], points[chosen[i - 1]], points[chosen[i]]) <= tolerance
  }

  lemma NeighboursAreConsecutive(chosen: seq<nat>, kept: set<int>, a: nat, b: nat) returns (i: nat)
    requires forall i, j | 0 <= i < j < |chosen| :: chosen[i] < chosen[j]
    requires forall k: nat :: k in kept <==> k in chosen
    requires Neighbours(kept, a, b)
    ensures 0 < i < |chosen| && chosen[i - 1] == a && chosen[i] == b
  {
    i :| 0 <= i < |chosen| && chosen[i] == b;
    var h: nat :| h < |chosen| && chosen[h] == a;
    assert h < i && chosen[h] <= chosen[i - 1];
    assert chosen[i - 1] in kept;
  }

  lemma KeptCovers(points: seq<Point>, chosen: seq<nat>, tolerance: real)
    requires |points| > 2
    requires forall i | 0 <= i < |chosen| :: chosen[i] < |points|
    requires forall i, j | 0 <= i < j < |chosen| :: chosen[i] < chosen[j]
    requires forall k: nat :: k in chosen <==> k in Kept(points, 0, |points| - 1, tolerance) + {0, |points| - 1}
    ensures Covers(points, chosen, tolerance)
  {
    var kept := Kept(points, 0, |points| - 1, tolerance) + {0, |points| - 1};
    forall k | 0 <= k < |points| && k !in chosen
      ensures exists i | 0 < i < |chosen| ::
        chosen[i - 1] < k < chosen[i]
        && PerpendicularError(points[k], points[chosen[i - 1]], points[chosen[i]]) <= tolerance
    {
      assert k !in kept;
      var a, b := DroppedIsClose(points, 0, |points| - 1, tolerance, k);
      var i := NeighboursAreConsecutive(chosen, kept, a, b);
      assert chosen[i - 1] < k < chosen[i];
    }
  }

  /** What simplification leaves of the points: both ends and what the recursion keeps, in order. */
  ghost predicate Reduced(points: seq<Point>, tolerance: real, chosen: seq<nat>, result: seq<Point>) {
    && |points| >= 2 && Selects(points, chosen, result)
    && (|points| <= 2 || tolerance <= 0.0 ==> result == points)
    && (|points| > 2 && tolerance > 0.0 ==>
          forall k: nat :: k in chosen <==> k in Kept(points, 0, |points| - 1, tolerance) + {0, |points| - 1})
  }

  lemma SomeMember(b: seq<nat>)
    ensures b == [] || exists k: nat :: k in b
  {
    assert b == [] || b[0] in b;
  }

  /** Only one increasing list has given members. */
  lemma {:induction false} IncreasingOnce(a: seq<nat>, b: seq<nat>)
    requires forall i, j | 0 <= i < j < |a| :: a[i] < a[j]
    requires forall i, j | 0 <= i < j < |b| :: b[i] < b[j]
    requires forall k: nat :: k in a <==> k in b
    ensures a == b
  {
    if a == [] {
      SomeMember(b);
    } else {
      assert a[|a| - 1] in b && b[|b| - 1] in a;
      var m, c, d := a[|a| - 1], a[..|a| - 1], b[..|b| - 1];
      assert m == b[|b| - 1];
      forall k: nat ensures k in c <==> k in d {
        assert k in c <==> k in a && k != m;
        assert k in d <==> k in b && k != m;
      }
      IncreasingOnce(c, d);
    }
  }

  /** Simplification has one result. */
  lemma {:induction false} ReducedOnce(
    points: seq<Point>, tolerance: real, a: seq<nat>, result: seq<Point>, b: seq<nat>, other: seq<Point>)
    requires Reduced(points, tolerance, a, result) && Reduced(points, tolerance, b, other)
    ensures result == other
  {
    if |points| > 2 && tolerance > 0.0 {
      IncreasingOnce(a, b);
    }
  }

  /** `simplifyRdp`: both ends stay, the order stays, and every dropped point stays close. */
  method SimplifyRdp(points: seq<Point>, tolerance: real) returns (result: seq<Point>, ghost chosen: seq<nat>)
    requires |points| >= 2
    ensures Reduced(points, tolerance, chosen, result)
    ensures Covers(points, chosen, tolerance)
  {
    if |points| <= 2 || tolerance <= 0.0 {
      result := points;
      chosen := seq(|points|, i => i);
      assert forall k | 0 <= k < |points| :: chosen[k] == k;
      return;
    }
    var keep := MarkKept(points, tolerance);
    result, chosen := FilterKept(points, keep);
    KeptCovers(points, chosen, tolerance);
  }

  // ---- capping -------------------------------------------------------------------------------

  /** `Math.round`: to the nearest integer, halves up. */
  function Round(x: real): int { (x + 0.5).Floor }

  function CapIndex(length: nat, maximum: nat, index: nat): int
    requires maximum >= 2
  {
    Round((index * (length - 1)) as real / (maximum - 1) as real)
  }

  lemma CapIndexEnds(length: nat, maximum: nat)
    requires length > maximum >= 2
    ensures CapIndex(length, maximum, 0) == 0
    ensures CapIndex(length, maximum, maximum - 1) == length - 1
  {
    var m := (maximum - 1) as real;
    assert ((maximum - 1) * (length - 1)) as real == m * (length - 1) as real;
    assert m * (length - 1) as real / m == (length - 1) as real;
  }

  lemma CapIndexIncreases(length: nat, maximum: nat, index: nat)
    requires length > maximum >= 2
    ensures CapIndex(length, maximum, index) < CapIndex(length, maximum, index + 1)
  {
    var m, step := (maximum - 1) as real, (length - 1) as real;
    var x, y := (index * (length - 1)) as real, ((index + 1) * (length - 1)) as real;
    assert (index + 1) * (length - 1) == index * (length - 1) + (length - 1);
    SharesApart(x, y, step, m);
  }

  /** Shares a whole step of the divisor or more apart round to different integers. */
  lemma SharesApart(x: real, y: real, step: real, m: real)
    requires m > 0.0 && step >= m && y == x + step
    ensures Round(x / m) < Round(y / m)
  {
    assert y / m == x / m + step / m;
    assert step / m * m == step;
    assert step / m >= 1.0;
  }

  lemma {:induction false} CapIndexOrder(length: nat, maximum: nat, i: nat, j: nat)
    requires length > maximum >= 2 && i < j
    ensures CapIndex(length, maximum, i) < CapIndex(length, maximum, j)
    decreases j
  {
    CapIndexIncreases(length, maximum, j - 1);
    if i < j - 1 {
      CapIndexOrder(length, maximum, i, j - 1);
    }
  }

  lemma CapIndexInside(length: nat, maximum: nat, index: nat)
    requires length > maximum >= 2 && index < maximum
    ensures 0 <= CapIndex(length, maximum, index) < length
  {
    CapIndexEnds(length, maximum);
    if index > 0 {
      CapIndexOrder(length, maximum, 0, index);
    }
    if index < maximum - 1 {
      CapIndexOrder(length, maximum, index, maximum - 1);
    }
  }

  /** Each index is the integer nearest to its even share of the whole length. */
  lemma CapIndexIsNearest(length: nat, maximum: nat, index: nat)
    requires maximum >= 2 && length >= 1
    ensures var miss := 2 * (CapIndex(length, maximum, index) * (maximum - 1) - index * (length - 1));
      -(maximum - 1) < miss <= maximum - 1
  {
    RoundedShare(index * (length - 1), maximum - 1, CapIndex(length, maximum, index));
  }

  lemma RoundedShare(share: int, n: int, x: int)
    requires n > 0 && x == Round(share as real / n as real)
    ensures -n < 2 * (x * n - share) <= n
  {
    var miss, m := x as real - share as real / n as real, n as real;
    var y := miss * m;
    HalfScaled(miss, m, y);
    ScaledMiss(share, n, x);
    WholeBounds(n, m, x * n - share, y);
  }

  lemma ScaledMiss(share: int, n: int, x: int)
    requires n > 0
    ensures (x as real - share as real / n as real) * n as real == (x * n - share) as real
  {
    var exact, m := share as real / n as real, n as real;
    assert exact * m == share as real;
    assert (x as real - exact) * m == x as real * m - exact * m;
    assert (x * n) as real == x as real * m;
  }

  lemma WholeBounds(n: int, m: real, miss: int, y: real)
    requires m == n as real && y == miss as real && 0.0 < 2.0 * y + m && 2.0 * y <= m
    ensures -n < 2 * miss <= n
  {
  }

  lemma HalfScaled(miss: real, n: real, y: real)
    requires n > 0.0 && -0.5 < miss <= 0.5 && y == miss * n
    ensures 0.0 < 2.0 * y + n && 2.0 * y <= n
  {
    RealMath.MulKeepsLess(-0.5, miss, n);
    RealMath.MulKeepsAtMost(miss, 0.5, n);
  }

  /** At most `maximum` points, still in order and still with both ends. */
  method CapPoints(points: seq<Point>, maximum: nat) returns (selected: seq<Point>, ghost chosen: seq<nat>)
    requires |points| >= 2 && maximum >= 2
    ensures Selects(points, chosen, selected)
    ensures |points| <= maximum ==> selected == points
    ensures |points| > maximum ==>
      |selected| == maximum && forall i | 0 <= i < maximum :: chosen[i] == CapIndex(|points|, maximum, i)
  {
    if |points| <= maximum {
      selected := points;
      chosen := seq(|points|, i => i);
      return;
    }
    var buffer := new Point[maximum](_ => points[0]);
    chosen := [];
    var index := 0;
    while index < maximum
      invariant 0 <= index <= maximum && |chosen| == index
      invariant forall i | 0 <= i < index :: chosen[i] == CapIndex(|points|, maximum, i) < |points|
      invariant forall i | 0 <= i < index :: buffer[i] == points[chosen[i]]
    {
      CapIndexInside(|points|, maximum, index);
      var at := Round((index * (|points| - 1)) as real / (maximum - 1) as real);
      buffer[index] := points[at];
      chosen := chosen + [at];
      index := index + 1;
    }
    CapIndexEnds(|points|, maximum);
    forall i, j | 0 <= i < j < maximum ensures chosen[i] < chosen[j] {
      CapIndexOrder(|points|, maximum, i, j);
    }
    selected := buffer[..];
  }
}

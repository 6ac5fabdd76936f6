/**
 alignment/dtw.mjs as it runs: band construction, the rolling cost row and the direction rows
 filled in place, the choice of the end column and the traceback. Each part is proved against
 the recurrence and the paths of DtwModel.
 */
module DtwEngine {
  import opened DtwModel
  import RealMath
  import Series

  // ---- band ----------------------------------------------------------------------------------

  function Floor(x: real): int { x.Floor }

  function Ceil(x: real): int { -((-x).Floor) }

  /** The row's centre moves linearly from the expected start over the expected span. */
  function Center(expectedStart: nat, expectedSpan: nat, rows: nat, i: nat): real
    requires rows >= 2
  {
    expectedStart as real + expectedSpan as real * (i as real / (rows - 1) as real)
  }

  function BandStart(center: real, radius: nat): nat {
    var low := Floor(center - radius as real);
    if low < 0 then 0 else low
  }

  function BandEnd(center: real, radius: nat, dutCount: nat): int {
    var high := Ceil(center + radius as real);
    if high > dutCount - 1 then dutCount - 1 else high
  }

  lemma CenterMoves(expectedStart: nat, expectedSpan: nat, rows: nat, i: nat)
    requires rows >= 2 && i < rows
    ensures expectedStart as real <= Center(expectedStart, expectedSpan, rows, i)
    ensures Center(expectedStart, expectedSpan, rows, i) <= (expectedStart + expectedSpan) as real
    ensures i + 1 < rows ==>
      Center(expectedStart, expectedSpan, rows, i) <= Center(expectedStart, expectedSpan, rows, i + 1)
  {
    var last := (rows - 1) as real;
    RealMath.QuotientBounds(i as real, last);
    RealMath.MulKeepsAtMost(0.0, i as real / last, expectedSpan as real);
    RealMath.MulKeepsAtMost(i as real / last, 1.0, expectedSpan as real);
    if i + 1 < rows {
      RealMath.DivKeepsLess(i as real, (i + 1) as real, last);
      RealMath.MulKeepsAtMost(i as real / last, (i + 1) as real / last, expectedSpan as real);
    }
  }

  function Width(band: Band): int { band.end - band.start + 1 }

  function CellCount(bands: seq<Band>): int {
    if bands == [] then 0 else CellCount(bands[..|bands| - 1]) + Width(bands[|bands| - 1])
  }

  ghost function CellsOf(bands: seq<Band>): set<Cell> {
    set i: nat, j: int | 0 <= i < |bands| && bands[i].start <= j <= bands[i].end :: Cell(i, j)
  }

  /** The cell count is the number of cells. */
  lemma {:induction false} CellCountIsExact(bands: seq<Band>)
    requires forall i | 0 <= i < |bands| :: bands[i].start <= bands[i].end
    ensures CellCount(bands) == |CellsOf(bands)|
  {
    if bands != [] {
      var k := |bands| - 1;
      CellCountIsExact(bands[..k]);
      var row := RowCells(k, bands[k].start, bands[k].end + 1);
      LastRow(bands, row);
      assert CellsOf(bands[..k]) !! row;
    }
  }

  lemma LastRow(bands: seq<Band>, row: set<Cell>)
    requires |bands| > 0
    requires var k := |bands| - 1; forall c :: c in row <==> c.row == k && bands[k].start <= c.column <= bands[k].end
    ensures CellsOf(bands) == CellsOf(bands[..|bands| - 1]) + row
  {
  }

  ghost function RowCells(row: nat, low: int, high: int): (r: set<Cell>)
    requires low <= high
    ensures |r| == high - low
    ensures forall c :: c in r <==> c.row == row && low <= c.column < high
    decreases high - low
  {
    if low == high then {} else RowCells(row, low, high - 1) + {Cell(row, high - 1)}
  }

  /** The band rows are non-empty, inside the DUT samples, and neither edge ever moves back. */
  method BuildBands(rows: nat, dutCount: nat, expectedStart: nat, expectedEnd: nat, radius: nat)
    returns (bands: seq<Band>, cellCount: int)
    requires rows >= 2 && expectedStart < dutCount && expectedEnd < dutCount && radius >= 3
    ensures |bands| == rows && cellCount == CellCount(bands)
    ensures forall i | 0 <= i < rows ::
      var center := Center(expectedStart, Span(expectedStart, expectedEnd), rows, i);
      && bands[i].start == BandStart(center, radius)
      && bands[i].end == BandEnd(center, radius, dutCount)
      && bands[i].start <= bands[i].end < dutCount
    ensures forall i | 0 <= i < rows - 1 ::
      bands[i].start <= bands[i + 1].start && bands[i].end <= bands[i + 1].end
  {
    var expectedSpan := Span(expectedStart, expectedEnd);
    bands, cellCount := [], 0;
    var i := 0;
    while i < rows
      invariant 0 <= i <= rows && |bands| == i && cellCount == CellCount(bands)
      invariant forall k | 0 <= k < i ::
        var center := Center(expectedStart, expectedSpan, rows, k);
        && bands[k].start == BandStart(center, radius)
        && bands[k].end == BandEnd(center, radius, dutCount)
        && bands[k].start <= bands[k].end < dutCount
    {
      CenterMoves(expectedStart, expectedSpan, rows, i);
      var center := Center(expectedStart, expectedSpan, rows, i);
      var start := BandStart(center, radius);
      var end := BandEnd(center, radius, dutCount);
      assert (bands + [Band(start, end)])[..|bands|] == bands;
      bands := bands + [Band(start, end)];
      cellCount := cellCount + (end - start + 1);
      i := i + 1;
    }
    forall k | 0 <= k < rows - 1
      ensures bands[k].start <= bands[k + 1].start && bands[k].end <= bands[k + 1].end
    {
      CenterMoves(expectedStart, expectedSpan, rows, k);
    }
  }

  function Span(expectedStart: nat, expectedEnd: nat): nat {
    if expectedEnd - expectedStart < 1 then 1 else expectedEnd - expectedStart
  }

  /**
   The band is a tube around the straight line from the expected start over the expected span: a column
   is in it exactly if it lies less than one column beyond the radius, to either side.
   */
  lemma BandIsTube(expectedStart: nat, span: nat, rows: nat, i: nat, radius: nat, dutCount: nat, column: int)
    requires rows >= 2 && i < rows && 0 <= column < dutCount
    ensures var center := Center(expectedStart, span, rows, i);
            var offset := (column - expectedStart) * (rows - 1) - span * i;
            var far := (radius + 1) * (rows - 1);
      BandStart(center, radius) <= column <= BandEnd(center, radius, dutCount) <==> -far < offset < far
  {
    var center, n := Center(expectedStart, span, rows, i), rows - 1;
    var offset := (column - expectedStart) * n - span * i;
    OffsetScaled(expectedStart, span, rows, i, column);
    ScaledTest(column as real - center, radius + 1, n, offset);
    ScaledTest(center - column as real, radius + 1, n, -offset);
    TubeEdges(center, radius, dutCount, column);
  }

  lemma ScaledTest(x: real, size: nat, n: nat, offset: int)
    requires n > 0 && x * n as real == offset as real
    ensures x < size as real <==> offset < size * n
  {
    ScaledOrder(x, size as real, n as real);
    assert (size * n) as real == size as real * n as real;
  }

  lemma OffsetScaled(expectedStart: nat, span: nat, rows: nat, i: nat, column: int)
    requires rows >= 2
    ensures var center, n := Center(expectedStart, span, rows, i), rows - 1;
            var offset := (column - expectedStart) * n - span * i;
      && (column as real - center) * n as real == offset as real
      && (center - column as real) * n as real == (-offset) as real
  {
    var center, n := Center(expectedStart, span, rows, i), (rows - 1) as real;
    CenterScaled(expectedStart, span, rows, i);
    Distributes(column as real, center, n);
    Distributes(center, column as real, n);
    Distributes(column as real, expectedStart as real, n);
    assert ((column - expectedStart) * (rows - 1)) as real == (column - expectedStart) as real * n;
  }

  lemma Distributes(x: real, y: real, n: real)
    ensures (x - y) * n == x * n - y * n
  {
  }

  lemma CenterScaled(expectedStart: nat, span: nat, rows: nat, i: nat)
    requires rows >= 2
    ensures Center(expectedStart, span, rows, i) * (rows - 1) as real
      == expectedStart as real * (rows - 1) as real + (span * i) as real
  {
    var n, x := (rows - 1) as real, i as real;
    assert x / n * n == x;
    assert span as real * (x / n) * n == span as real * (x / n * n) == span as real * x;
    assert (span * i) as real == span as real * x;
  }

  lemma ScaledOrder(x: real, y: real, n: real)
    requires n > 0.0
    ensures x < y <==> x * n < y * n
  {
    if x < y {
      RealMath.MulKeepsLess(x, y, n);
    } else {
      RealMath.MulKeepsAtMost(y, x, n);
    }
  }

  lemma TubeEdges(center: real, radius: nat, dutCount: nat, column: int)
    requires 0 <= column < dutCount
    ensures BandStart(center, radius) <= column <= BandEnd(center, radius, dutCount) <==>
      column as real - center < (radius + 1) as real && center - column as real < (radius + 1) as real
  {
    var low, high := center - radius as real, -(center + radius as real);
    assert low.Floor as real <= low < low.Floor as real + 1.0;
    assert high.Floor as real <= high < high.Floor as real + 1.0;
  }

  /** A sample closest in time; of two equally close ones the earlier. */
  method NearestIndex(timestamps: seq<real>, target: real) returns (r: nat)
    requires |timestamps| >= 1 && Series.Increasing(timestamps)
    ensures r < |timestamps|
    ensures forall k | 0 <= k < |timestamps| :: Abs(timestamps[r] - target) <= Abs(timestamps[k] - target)
    ensures forall k | 0 <= k < r :: Abs(timestamps[r] - target) < Abs(timestamps[k] - target)
  {
    var low, high := 0, |timestamps| - 1;
    while low < high
      invariant 0 <= low <= high < |timestamps|
      invariant forall k | 0 <= k < low :: timestamps[k] < target
      invariant high == |timestamps| - 1 || target <= timestamps[high]
    {
      var middle := (low + high) / 2;
      if timestamps[middle] < target {
        low := middle + 1;
      } else {
        high := middle;
      }
    }
    if low == 0 {
      return 0;
    }
    if Abs(timestamps[low] - target) < Abs(timestamps[low - 1] - target) {
      return low;
    }
    return low - 1;
  }

  // ---- the table -----------------------------------------------------------------------------

  method MeasureDistance(reference: seq<real>, dut: seq<real>) returns (r: real)
    requires |reference| == |dut| > 0
    ensures r == LocalDistance(reference, dut)
  {
    var total := 0.0;
    var dimension := 0;
    while dimension < |reference|
      invariant 0 <= dimension <= |reference|
      invariant total == SquaredSum(reference[..dimension], dut[..dimension])
    {
      var raw := reference[dimension] - dut[dimension];
      var low := if raw < 8.0 then raw else 8.0;
      var difference := if low > -8.0 then low else -8.0;
      assert reference[..dimension + 1][..dimension] == reference[..dimension];
      assert dut[..dimension + 1][..dimension] == dut[..dimension];
      total := total + difference * difference;
      dimension := dimension + 1;
    }
    assert reference[..dimension] == reference && dut[..dimension] == dut;
    r := total / |reference| as real;
  }

  /** The row of costs that the row below it reads. */
  datatype Row = NoRow | Row(band: Band, costs: array<Cost>)

  function ValueAt(row: Row, index: int): Cost
    requires row.Row? ==> row.band.start <= row.band.end && row.costs.Length == Width(row.band)
    reads if row.Row? then {row.costs} else {}
  {
    if row.NoRow? || index < row.band.start || index > row.band.end then Infinite
    else row.costs[index - row.band.start]
  }

  /** The row holds the recurrence's values for row `i`. */
  ghost predicate Tabulated(p: Problem, i: nat, row: Row)
    requires p.Valid() && i < p.Rows()
    reads if row.Row? then {row.costs} else {}
  {
    && row.Row? && row.band == p.bands[i] && row.costs.Length == Width(row.band)
    && (forall k | 0 <= k < row.costs.Length :: row.costs[k] == Best(p, i, row.band.start + k))
  }

  /** The direction to record for a cell. */
  function MoveInto(p: Problem, i: nat, column: int): Direction
    requires p.Valid() && i < p.Rows()
  {
    if i == 0 then Start else Chosen(p, i, column)
  }

  /** The directions recorded for row `i` are the recurrence's choices. */
  ghost predicate Recorded(p: Problem, i: nat, directions: seq<Direction>)
    requires p.Valid() && i < p.Rows()
  {
    && |directions| == Width(p.bands[i])
    && (forall k | 0 <= k < |directions| ::
          directions[k] == MoveInto(p, i, p.bands[i].start + k))
  }

  /** One cell: its cost and the move that reached it. `left` is the cell to its left in this row. */
  method FillCell(p: Problem, i: nat, column: int, previous: Row, left: Cost)
    returns (cost: Cost, direction: Direction)
    requires p.Valid() && p.InBand(i, column)
    requires i > 0 ==> Tabulated(p, i - 1, previous) && left == Best(p, i, column - 1).Plus(p.transitionPenalty)
    ensures cost == Best(p, i, column)
    ensures direction == MoveInto(p, i, column)
  {
    var distance := MeasureDistance(p.reference[i], p.dut[column]);
    if i == 0 {
      return Finite(distance + p.StartPrice(column)), Start;
    }
    var diagonal := ValueAt(previous, column - 1);
    var up := ValueAt(previous, column).Plus(p.transitionPenalty);
    assert diagonal == Best(p, i - 1, column - 1);
    assert up == Best(p, i - 1, column).Plus(p.transitionPenalty);
    var best := diagonal;
    direction := Diagonal;
    if up.Less(best) {
      best, direction := up, Up;
    }
    if left.Less(best) {
      best, direction := left, Left;
    }
    cost := best.Plus(distance);
  }

  /** Fills in the cell of a column, when the one to its left is there. */
  method StoreCell(
    p: Problem, i: nat, column: int, previous: Row, costs: array<Cost>, directions: array<Direction>)
    requires p.Valid() && p.InBand(i, column)
    requires i > 0 ==> Tabulated(p, i - 1, previous) && previous.costs != costs
    requires costs.Length == directions.Length == Width(p.bands[i])
    requires column > p.bands[i].start ==> costs[column - 1 - p.bands[i].start] == Best(p, i, column - 1)
    modifies costs, directions
    ensures costs[..] == old(costs[..])[column - p.bands[i].start := Best(p, i, column)]
    ensures directions[..] == old(directions[..])[column - p.bands[i].start := MoveInto(p, i, column)]
  {
    var offset := column - p.bands[i].start;
    var left := Infinite;
    if column > p.bands[i].start {
      left := costs[offset - 1].Plus(p.transitionPenalty);
    }
    var cost, direction := FillCell(p, i, column, previous, left);
    costs[offset], directions[offset] := cost, direction;
  }

  method FillRow(p: Problem, i: nat, previous: Row) returns (current: Row, directions: array<Direction>)
    requires p.Valid() && i < p.Rows()
    requires i > 0 ==> Tabulated(p, i - 1, previous)
    ensures Tabulated(p, i, current) && fresh(current.costs)
    ensures Recorded(p, i, directions[..])
  {
    var band := p.bands[i];
    var width := Width(band);
    var costs := new Cost[width](_ => Infinite);
    directions := new Direction[width](_ => Start);
    var column := band.start;
    while column <= band.end
      invariant band.start <= column <= band.end + 1
      invariant i > 0 ==> Tabulated(p, i - 1, previous)
      invariant forall k | 0 <= k < column - band.start :: costs[..][k] == Best(p, i, band.start + k)
      invariant forall k | 0 <= k < column - band.start :: directions[..][k] == MoveInto(p, i, band.start + k)
    {
      assert column > band.start ==> costs[..][column - 1 - band.start] == Best(p, i, column - 1);
      StoreCell(p, i, column, previous, costs, directions);
      column := column + 1;
    }
    current := Row(band, costs);
    assert forall k | 0 <= k < width :: costs[k] == costs[..][k];
  }

  method FillTable(p: Problem) returns (directionRows: seq<seq<Direction>>, last: Row)
    requires p.Valid()
    ensures |directionRows| == p.Rows()
    ensures forall i | 0 <= i < p.Rows() :: Recorded(p, i, directionRows[i])
    ensures Tabulated(p, p.Rows() - 1, last)
  {
    directionRows := [];
    last := NoRow;
    var i := 0;
    while i < p.Rows()
      invariant 0 <= i <= p.Rows() && |directionRows| == i
      invariant forall k | 0 <= k < i :: Recorded(p, k, directionRows[k])
      invariant i > 0 ==> Tabulated(p, i - 1, last)
    {
      var current, directions := FillRow(p, i, last);
      directionRows := directionRows + [directions[..]];
      last := current;
      i := i + 1;
    }
  }

  /** The first cheapest end column; an infinite cost when the last row cannot be reached. */
  method SelectEnd(p: Problem, last: Row) returns (endColumn: int, bestEndCost: Cost)
    requires p.Valid() && Tabulated(p, p.Rows() - 1, last)
    ensures bestEndCost.Finite? ==> IsBestEnd(p, endColumn) && bestEndCost == EndCost(p, endColumn)
    ensures bestEndCost.Infinite? ==> forall j :: EndCost(p, j).Infinite?
  {
    endColumn, bestEndCost := last.band.start, Infinite;
    var column := last.band.start;
    while column <= last.band.end
      invariant last.band.start <= column <= last.band.end + 1
      invariant bestEndCost.Finite? ==>
        && last.band.start <= endColumn < column && bestEndCost == EndCost(p, endColumn)
        && (forall j | last.band.start <= j < column && EndCost(p, j).Finite? ::
              EndCost(p, endColumn).value <= EndCost(p, j).value)
        && (forall j | last.band.start <= j < endColumn && EndCost(p, j).Finite? ::
              EndCost(p, endColumn).value < EndCost(p, j).value)
      invariant bestEndCost.Infinite? ==> forall j | last.band.start <= j < column :: EndCost(p, j).Infinite?
    {
      var cost := ValueAt(last, column).Plus(p.EndPrice(column));
      assert cost == EndCost(p, column);
      if cost.Less(bestEndCost) {
        bestEndCost, endColumn := cost, column;
      }
      column := column + 1;
    }
  }

  // ---- the traceback -------------------------------------------------------------------------

  function Reversed<T>(s: seq<T>): (r: seq<T>)
    ensures |r| == |s|
  {
    if s == [] then [] else Reversed(s[1..]) + [s[0]]
  }

  lemma {:induction false} ReversedAppend<T>(s: seq<T>, x: T)
    ensures Reversed(s + [x]) == [x] + Reversed(s)
  {
    if s != [] {
      ReversedAppend(s[1..], x);
      assert (s + [x])[1..] == s[1..] + [x];
    }
  }

  /** What is left to trace, in front of what has been collected, is always the whole trace. */
  lemma TraceStep(p: Problem, row: nat, column: int, collected: seq<Cell>)
    requires p.Valid() && row < p.Rows() && Best(p, row, column).Finite?
    ensures row == 0 ==>
      Trace(p, row, column) + Reversed(collected) == Reversed(collected + [Cell(row, column)])
    ensures row > 0 ==>
      var from := Before(Cell(row, column), Chosen(p, row, column));
      && p.InBand(row, column) && p.InBand(from.row, from.column)
      && from.row + from.column < row + column && Best(p, from.row, from.column).Finite?
      && Trace(p, row, column) + Reversed(collected)
        == Trace(p, from.row, from.column) + Reversed(collected + [Cell(row, column)])
  {
    ReversedAppend(collected, Cell(row, column));
    if row > 0 {
      ChosenArrives(p, row, column);
      var from := Before(Cell(row, column), Chosen(p, row, column));
      assert Trace(p, from.row, from.column) + [Cell(row, column)] + Reversed(collected)
          == Trace(p, from.row, from.column) + ([Cell(row, column)] + Reversed(collected));
    }
  }

  lemma RecordedAt(p: Problem, i: nat, directions: seq<Direction>, column: int)
    requires p.Valid() && p.InBand(i, column) && Recorded(p, i, directions)
    ensures 0 <= column - p.bands[i].start < |directions|
    ensures directions[column - p.bands[i].start] == if i == 0 then Start else Chosen(p, i, column)
  {
  }

  lemma TraceCoversReference(p: Problem, endColumn: int)
    requires p.Valid() && Best(p, p.Rows() - 1, endColumn).Finite?
    ensures var path := Trace(p, p.Rows() - 1, endColumn);
      |path| > 0 && path[0].row == 0 && path[|path| - 1].row == p.Rows() - 1
  {
    TraceRealisesBest(p, p.Rows() - 1, endColumn);
  }

  /**
   Follows the recorded directions back from the end column. Its three defensive exits are dead:
   the walk never leaves the band, never grows past row + column + 1 cells, and covers row 0.
   */
  method TraceBack(p: Problem, directionRows: seq<seq<Direction>>, endColumn: int) returns (path: seq<Cell>)
    requires p.Valid() && |directionRows| == p.Rows()
    requires forall i | 0 <= i < p.Rows() :: Recorded(p, i, directionRows[i])
    requires Best(p, p.Rows() - 1, endColumn).Finite?
    ensures path == Trace(p, p.Rows() - 1, endColumn)
  {
    var reversedPath: seq<Cell> := [];
    var row, column := p.Rows() - 1, endColumn;
    assert Reversed(reversedPath) == [];
    while row >= 0
      invariant 0 <= row < p.Rows() && Best(p, row, column).Finite?
      invariant Trace(p, p.Rows() - 1, endColumn) == Trace(p, row, column) + Reversed(reversedPath)
      invariant |reversedPath| + row + column <= p.Rows() - 1 + endColumn
      decreases row + column
    {
      var band := p.bands[row];
      if column < band.start || column > band.end {
        assert false;
      }
      TraceStep(p, row, column, reversedPath);
      reversedPath := reversedPath + [Cell(row, column)];
      var direction := directionRows[row][column - band.start];
      RecordedAt(p, row, directionRows[row], column);
      if row == 0 || direction == Start {
        break;
      }
      ghost var from := Before(Cell(row, column), Chosen(p, row, column));
      if direction == Diagonal {
        row, column := row - 1, column - 1;
      } else if direction == Up {
        row := row - 1;
      } else {
        column := column - 1;
      }
      assert from == Cell(row, column);
      if |reversedPath| > p.Rows() + |p.dut| + 2 {
        assert false;
      }
    }
    path := Reversed(reversedPath);
    TraceCoversReference(p, endColumn);
    if path[0].row != 0 || path[|path| - 1].row != p.Rows() - 1 {
      assert false;
    }
  }

  // ---- statistics ----------------------------------------------------------------------------

  datatype Statistics = Statistics(
    localCostTotal: real, diagonalSteps: nat, upSteps: nat, leftSteps: nat, boundaryHits: nat)

  predicate OnBoundary(p: Problem, cell: Cell) {
    p.InBand(cell.row, cell.column)
    && (cell.column == p.bands[cell.row].start || cell.column == p.bands[cell.row].end)
  }

  function BoundaryHits(p: Problem, path: seq<Cell>): nat {
    if path == [] then 0
    else BoundaryHits(p, path[..|path| - 1]) + if OnBoundary(p, path[|path| - 1]) then 1 else 0
  }

  ghost function EdgesOf(p: Problem, path: seq<Cell>): set<nat> {
    set k | 0 <= k < |path| && path[k].row < |p.bands| &&
      (path[k].column == p.bands[path[k].row].start || path[k].column == p.bands[path[k].row].end)
  }

  /** The boundary hits are the cells of the path that lie on either edge of their row's band. */
  lemma {:induction false} BoundaryHitsAreExact(p: Problem, path: seq<Cell>)
    requires forall k | 0 <= k < |path| :: p.InBand(path[k].row, path[k].column)
    ensures BoundaryHits(p, path) == |EdgesOf(p, path)|
  {
    if path != [] {
      var n := |path| - 1;
      BoundaryHitsAreExact(p, path[..n]);
      assert p.InBand(path[n].row, path[n].column);
      assert EdgesOf(p, path) == EdgesOf(p, path[..n]) + if OnBoundary(p, path[n]) then {n} else {};
    }
  }

  lemma CountsGrow(p: Problem, path: seq<Cell>, index: nat)
    requires p.Valid() && OpenPath(p, path) && index < |path|
    ensures LocalSum(p, path[..index + 1])
      == LocalSum(p, path[..index]) + p.Local(path[index].row, path[index].column)
    ensures BoundaryHits(p, path[..index + 1])
      == BoundaryHits(p, path[..index]) + if OnBoundary(p, path[index]) then 1 else 0
    ensures index > 0 ==> Linked(path[index - 1], path[index])
    ensures index > 0 ==>
      Bends(path[..index + 1]) == Bends(path[..index]) + if DiagonalStep(path[index - 1], path[index]) then 0 else 1
    ensures Bends(path[..1]) == 0
  {
    assert path[..index + 1][..index] == path[..index];
  }

  /** How the moves counted so far account for the path up to a position. */
  ghost predicate MovesCounted(path: seq<Cell>, index: nat, diagonalSteps: nat, upSteps: nat, leftSteps: nat)
    requires index < |path|
  {
    && upSteps + leftSteps == Bends(path[..index + 1])
    && diagonalSteps + upSteps + leftSteps == index
    && diagonalSteps + upSteps == path[index].row
    && diagonalSteps + leftSteps == path[index].column - path[0].column
  }

  method CountMove(p: Problem, path: seq<Cell>, index: nat, diagonal: nat, up: nat, left: nat)
    returns (diagonalSteps: nat, upSteps: nat, leftSteps: nat)
    requires p.Valid() && OpenPath(p, path) && 0 < index < |path|
    requires MovesCounted(path, index - 1, diagonal, up, left)
    ensures MovesCounted(path, index, diagonalSteps, upSteps, leftSteps)
  {
    CountsGrow(p, path, index);
    diagonalSteps, upSteps, leftSteps := diagonal, up, left;
    var previous, point := path[index - 1], path[index];
    var referenceDelta := point.row - previous.row;
    var dutDelta := point.column - previous.column;
    if referenceDelta == 1 && dutDelta == 1 {
      diagonalSteps := diagonalSteps + 1;
    } else if referenceDelta == 1 {
      upSteps := upSteps + 1;
    } else {
      leftSteps := leftSteps + 1;
    }
  }

  /** What the statistics say of the first cells of the path. */
  ghost predicate Counted(p: Problem, path: seq<Cell>, n: nat, s: Statistics)
    requires p.Valid() && OpenPath(p, path) && n <= |path|
  {
    && s.localCostTotal == LocalSum(p, path[..n]) && s.boundaryHits == BoundaryHits(p, path[..n])
    && if n == 0 then s.diagonalSteps == s.upSteps == s.leftSteps == 0
       else MovesCounted(path, n - 1, s.diagonalSteps, s.upSteps, s.leftSteps)
  }

  method CountCell(p: Problem, path: seq<Cell>, index: nat, before: Statistics) returns (s: Statistics)
    requires p.Valid() && OpenPath(p, path) && index < |path| && Counted(p, path, index, before)
    ensures Counted(p, path, index + 1, s)
  {
    var point := path[index];
    CountsGrow(p, path, index);
    assert p.InBand(path[index].row, path[index].column);
    var distance := MeasureDistance(p.reference[point.row], p.dut[point.column]);
    var boundaryHits := before.boundaryHits;
    var band := p.bands[point.row];
    if point.column == band.start || point.column == band.end {
      boundaryHits := boundaryHits + 1;
    }
    var diagonalSteps, upSteps, leftSteps := before.diagonalSteps, before.upSteps, before.leftSteps;
    if index > 0 {
      diagonalSteps, upSteps, leftSteps := CountMove(p, path, index, diagonalSteps, upSteps, leftSteps);
    }
    s := Statistics(before.localCostTotal + distance, diagonalSteps, upSteps, leftSteps, boundaryHits);
  }

  /** What the statistics of a whole path say. */
  ghost predicate Explains(p: Problem, path: seq<Cell>, s: Statistics)
    requires p.Valid() && OpenPath(p, path)
  {
    && s.localCostTotal == LocalSum(p, path)
    && s.upSteps + s.leftSteps == Bends(path)
    && s.diagonalSteps + s.upSteps + s.leftSteps == |path| - 1
    && s.diagonalSteps + s.upSteps == path[|path| - 1].row
    && s.diagonalSteps + s.leftSteps == path[|path| - 1].column - path[0].column
    && s.boundaryHits == BoundaryHits(p, path)
  }

  /**
   One pass over the path. The counts are tied to the path's ends: every row transition is a
   diagonal or an up step, every column transition a diagonal or a left step.
   */
  method PathStatistics(p: Problem, path: seq<Cell>) returns (s: Statistics)
    requires p.Valid() && OpenPath(p, path)
    ensures Explains(p, path, s)
  {
    s := Statistics(0.0, 0, 0, 0, 0);
    var index := 0;
    while index < |path|
      invariant 0 <= index <= |path|
      invariant Counted(p, path, index, s)
    {
      s := CountCell(p, path, index, s);
      index := index + 1;
    }
    assert path[..index] == path;
  }
}

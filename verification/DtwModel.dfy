/**
 The problem that the banded, open-ended dynamic time warping of alignment/dtw.mjs solves:
 admissible paths through a band, what a path costs, and the recurrence whose value the
 program tabulates. Float64 arithmetic is taken as exact real arithmetic.
 */
module DtwModel {

  /** A cell of the cost table: a finite real, or the POSITIVE_INFINITY of an unreachable cell. */
  datatype Cost = Finite(value: real) | Infinite {
    predicate Less(other: Cost) {
      Finite? && (other.Finite? ==> value < other.value)
    }

    function Plus(amount: real): Cost {
      if Finite? then Finite(value + amount) else Infinite
    }
  }

  datatype Direction = Diagonal | Up | Left | Start

  /** The columns `start..end`, both included, that one row may use. */
  datatype Band = Band(start: nat, end: nat)

  datatype Cell = Cell(row: nat, column: int)

  function Abs(x: real): (r: real)
    ensures r >= 0.0
  {
    if x < 0.0 then -x else x
  }

  /** A difference of one dimension, limited to -8..8 so that no outlier dominates. */
  function Clamped(x: real): real {
    if x < -8.0 then -8.0 else if x > 8.0 then 8.0 else x
  }

  function SquaredSum(a: seq<real>, b: seq<real>): real
    requires |a| == |b|
  {
    if a == [] then 0.0
    else
      var k := |a| - 1;
      SquaredSum(a[..k], b[..k]) + Clamped(a[k] - b[k]) * Clamped(a[k] - b[k])
  }

  function LocalDistance(a: seq<real>, b: seq<real>): real
    requires |a| == |b| > 0
  {
    SquaredSum(a, b) / |a| as real
  }

  // ---- the local distance is one -------------------------------------------------------------

  /** In one dimension: the square of the difference, and never more than 64. */
  lemma DistanceOfOne(x: real, y: real)
    ensures LocalDistance([x], [y]) == if -8.0 <= x - y <= 8.0 then (x - y) * (x - y) else 64.0
  {
    assert [x][..0] == [] && [y][..0] == [];
    assert SquaredSum([x], [y]) == SquaredSum([], []) + Clamped(x - y) * Clamped(x - y);
  }

  lemma {:induction false} SquaredSumAdds(a: seq<real>, b: seq<real>, c: seq<real>, d: seq<real>)
    requires |a| == |b| && |c| == |d|
    ensures SquaredSum(a + c, b + d) == SquaredSum(a, b) + SquaredSum(c, d)
    decreases |c|
  {
    if c == [] {
      assert a + c == a && b + d == b;
    } else {
      var k := |c| - 1;
      SquaredSumAdds(a, b, c[..k], d[..k]);
      assert (a + c)[..|a| + k] == a + c[..k] && (b + d)[..|b| + k] == b + d[..k];
    }
  }

  /** Over more dimensions it is the mean: weighted by the number of dimensions, it adds up. */
  lemma DistanceAdds(a: seq<real>, b: seq<real>, c: seq<real>, d: seq<real>)
    requires |a| == |b| > 0 && |c| == |d| > 0
    ensures LocalDistance(a + c, b + d) * (|a| + |c|) as real
      == LocalDistance(a, b) * |a| as real + LocalDistance(c, d) * |c| as real
  {
    SquaredSumAdds(a, b, c, d);
    TimesSize(a, b);
    TimesSize(c, d);
    TimesSize(a + c, b + d);
  }

  lemma TimesSize(a: seq<real>, b: seq<real>)
    requires |a| == |b| > 0
    ensures LocalDistance(a, b) * |a| as real == SquaredSum(a, b)
  {
    var n, sum := |a| as real, SquaredSum(a, b);
    assert sum / n * n == sum;
  }

  lemma {:induction false} SquaredSumLaws(a: seq<real>, b: seq<real>)
    requires |a| == |b|
    ensures 0.0 <= SquaredSum(a, b) == SquaredSum(b, a)
    ensures SquaredSum(a, b) == 0.0 <==> a == b
  {
    if a != [] {
      var k := |a| - 1;
      SquaredSumLaws(a[..k], b[..k]);
      ClampedSquares(a[k] - b[k]);
      assert b[k] - a[k] == -(a[k] - b[k]);
      LastDecides(a, b);
    }
  }

  lemma LastDecides(a: seq<real>, b: seq<real>)
    requires |a| == |b| > 0
    ensures a == b <==> a[..|a| - 1] == b[..|a| - 1] && a[|a| - 1] == b[|a| - 1]
  {
    var k := |a| - 1;
    assert a == a[..k] + [a[k]] && b == b[..k] + [b[k]];
  }

  lemma ClampedSquares(x: real)
    ensures 0.0 <= Clamped(x) * Clamped(x) == Clamped(-x) * Clamped(-x)
    ensures Clamped(x) * Clamped(x) == 0.0 <==> x == 0.0
  {
    Squares(Clamped(x), Clamped(-x));
  }

  lemma Squares(c: real, d: real)
    requires d == -c
    ensures 0.0 <= c * c == d * d
    ensures c * c == 0.0 <==> c == 0.0
  {
    if c > 0.0 {
      assert c * c > 0.0;
    } else if c < 0.0 {
      assert d * d > 0.0;
      assert c * (c + d) == 0.0 && (c + d) * d == 0.0;
    } else {
      assert 0.0 * 0.0 == 0.0;
    }
  }

  /** Never negative, zero exactly between equal vectors, and the same both ways. */
  lemma DistanceLaws(a: seq<real>, b: seq<real>)
    requires |a| == |b| > 0
    ensures 0.0 <= LocalDistance(a, b) == LocalDistance(b, a)
    ensures LocalDistance(a, b) == 0.0 <==> a == b
  {
    SquaredSumLaws(a, b);
    TimesSize(a, b);
    var n, q := |a| as real, LocalDistance(a, b);
    assert q < 0.0 ==> q * n < 0.0;
    assert q > 0.0 ==> q * n > 0.0;
  }

  datatype Problem = Problem(
    dimensions: nat,
    reference: seq<seq<real>>,
    dut: seq<seq<real>>,
    bands: seq<Band>,
    transitionPenalty: real,
    endpointPenalty: real,
    expectedStart: nat,
    expectedEnd: nat,
    bandRadius: nat)
  {
    ghost predicate Valid() {
      && |reference| == |bands| > 0
      && bandRadius >= 1
      && dimensions >= 1
      && (forall i | 0 <= i < |reference| :: |reference[i]| == dimensions)
      && (forall j | 0 <= j < |dut| :: |dut[j]| == dimensions)
      && (forall i | 0 <= i < |bands| :: bands[i].start <= bands[i].end < |dut|)
    }

    function Rows(): nat { |bands| }

    predicate InBand(row: int, column: int) {
      0 <= row < |bands| && bands[row].start <= column <= bands[row].end
    }

    function Local(row: nat, column: int): real
      requires Valid() && InBand(row, column)
    {
      LocalDistance(reference[row], dut[column])
    }

    /** How far a path's first column lies from the expected one, in band radii, priced. */
    function StartPrice(column: int): real
      requires bandRadius >= 1
    {
      endpointPenalty * (Abs((column - expectedStart) as real) / bandRadius as real)
    }

    function EndPrice(column: int): real
      requires bandRadius >= 1
    {
      endpointPenalty * (Abs((column - expectedEnd) as real) / bandRadius as real)
    }
  }

  /** A column `k` places from the expected one costs `k` shares of the penalty, whichever side it is on. */
  lemma EndpointPrices(p: Problem, k: nat)
    requires p.bandRadius >= 1
    ensures p.StartPrice(p.expectedStart + k) * p.bandRadius as real == p.endpointPenalty * k as real
    ensures p.StartPrice(p.expectedStart - k) * p.bandRadius as real == p.endpointPenalty * k as real
    ensures p.EndPrice(p.expectedEnd + k) * p.bandRadius as real == p.endpointPenalty * k as real
    ensures p.EndPrice(p.expectedEnd - k) * p.bandRadius as real == p.endpointPenalty * k as real
  {
    Shares(p.endpointPenalty, k as real, p.bandRadius as real);
  }

  lemma Shares(penalty: real, k: real, radius: real)
    requires radius > 0.0
    ensures penalty * (k / radius) * radius == penalty * k
  {
    assert k / radius * radius == k;
    assert penalty * (k / radius) * radius == penalty * (k / radius * radius);
  }

  // ---- paths -------------------------------------------------------------------------------

  predicate DiagonalStep(a: Cell, b: Cell) {
    b.row == a.row + 1 && b.column == a.column + 1
  }

  /** The three moves; a move inside a row is allowed only below row 0. */
  predicate Linked(a: Cell, b: Cell) {
    || DiagonalStep(a, b)
    || (b.row == a.row + 1 && b.column == a.column)
    || (b.row == a.row && a.row >= 1 && b.column == a.column + 1)
  }

  /** A path that starts in row 0 and keeps to the band, wherever it ends. */
  ghost predicate OpenPath(p: Problem, path: seq<Cell>) {
    && |path| > 0
    && path[0].row == 0
    && (forall k | 0 <= k < |path| :: p.InBand(path[k].row, path[k].column))
    && (forall k | 0 < k < |path| :: Linked(path[k - 1], path[k]))
  }

  /** An admissible path also reaches the last row. */
  ghost predicate Admissible(p: Problem, path: seq<Cell>) {
    OpenPath(p, path) && path[|path| - 1].row == p.Rows() - 1
  }

  function LocalSum(p: Problem, path: seq<Cell>): real
    requires p.Valid()
    requires forall k | 0 <= k < |path| :: p.InBand(path[k].row, path[k].column)
  {
    if path == [] then 0.0
    else
      var k := |path| - 1;
      LocalSum(p, path[..k]) + p.Local(path[k].row, path[k].column)
  }

  /** A path whose cells pair equal vectors costs nothing but its bends and ends; no path costs less. */
  lemma {:induction false} LocalSumLaws(p: Problem, path: seq<Cell>)
    requires p.Valid()
    requires forall k | 0 <= k < |path| :: p.InBand(path[k].row, path[k].column)
    ensures LocalSum(p, path) >= 0.0
    ensures LocalSum(p, path) == 0.0 <==>
      forall k | 0 <= k < |path| :: p.reference[path[k].row] == p.dut[path[k].column]
  {
    if path != [] {
      var k := |path| - 1;
      LocalSumLaws(p, path[..k]);
      DistanceLaws(p.reference[path[k].row], p.dut[path[k].column]);
      assert forall i | 0 <= i < k :: path[..k][i] == path[i];
    }
  }

  /** The number of moves that are not diagonal. */
  function Bends(path: seq<Cell>): nat {
    if |path| < 2 then 0
    else
      var k := |path| - 1;
      Bends(path[..k]) + if DiagonalStep(path[k - 1], path[k]) then 0 else 1
  }

  /** Local distances, bends and a first column, priced. */
  ghost function Bill(p: Problem, local: real, bends: nat, first: int): real
    requires p.Valid()
  {
    local + p.transitionPenalty * bends as real + p.StartPrice(first)
  }

  ghost function OpenCost(p: Problem, path: seq<Cell>): real
    requires p.Valid() && OpenPath(p, path)
  {
    Bill(p, LocalSum(p, path), Bends(path), path[0].column)
  }

  /** What one path costs: its local distances, its bends and its two endpoints. */
  ghost function PathCost(p: Problem, path: seq<Cell>): real
    requires p.Valid() && OpenPath(p, path)
  {
    OpenCost(p, path) + p.EndPrice(path[|path| - 1].column)
  }

  // ---- the recurrence ------------------------------------------------------------------------

  /** The cheapest of the three moves; ties prefer the diagonal, then the move from the row above. */
  function Choose(diagonal: Cost, up: Cost, left: Cost): Direction {
    if left.Less(up) && left.Less(diagonal) then Left
    else if up.Less(diagonal) then Up
    else Diagonal
  }

  function Cheapest(diagonal: Cost, up: Cost, left: Cost): Cost {
    match Choose(diagonal, up, left)
    case Left => left
    case Up => up
    case _ => diagonal
  }

  /** The diagonal wins every tie, and the move from the row above wins against the move within the row. */
  lemma TiesAreBroken(diagonal: Cost, up: Cost, left: Cost)
    ensures Choose(diagonal, up, left).Diagonal? <==> !up.Less(diagonal) && !left.Less(diagonal)
    ensures Choose(diagonal, up, left).Up? <==> up.Less(diagonal) && !left.Less(up)
    ensures Choose(diagonal, up, left).Left? <==> left.Less(diagonal) && left.Less(up)
  {
  }

  /** The cheapest way into a cell, the cell itself included. */
  function Best(p: Problem, row: nat, column: int): Cost
    requires p.Valid() && row < p.Rows()
    decreases row, column, 1
  {
    if !p.InBand(row, column) then Infinite
    else if row == 0 then Finite(p.Local(0, column) + p.StartPrice(column))
    else CheapestMove(p, row, column).Plus(p.Local(row, column))
  }

  /** The cheapest of the three moves into a cell below row 0. */
  function CheapestMove(p: Problem, row: nat, column: int): Cost
    requires p.Valid() && 0 < row < p.Rows() && column >= 0
    decreases row, column, 0
  {
    Cheapest(
      Best(p, row - 1, column - 1),
      Best(p, row - 1, column).Plus(p.transitionPenalty),
      Best(p, row, column - 1).Plus(p.transitionPenalty))
  }

  /** The move by which a cell below row 0 is reached most cheaply. */
  function Chosen(p: Problem, row: nat, column: int): Direction
    requires p.Valid() && 0 < row < p.Rows()
  {
    Choose(
      Best(p, row - 1, column - 1),
      Best(p, row - 1, column).Plus(p.transitionPenalty),
      Best(p, row, column - 1).Plus(p.transitionPenalty))
  }

  function Before(cell: Cell, direction: Direction): Cell
    requires cell.row > 0
  {
    match direction
    case Up => Cell(cell.row - 1, cell.column)
    case Left => Cell(cell.row, cell.column - 1)
    case _ => Cell(cell.row - 1, cell.column - 1)
  }

  lemma ChosenIsReachable(p: Problem, row: nat, column: int)
    requires p.Valid() && 0 < row < p.Rows() && Best(p, row, column).Finite?
    ensures var from := Before(Cell(row, column), Chosen(p, row, column));
      Best(p, from.row, from.column).Finite?
  {
  }

  lemma ReachableIsInBand(p: Problem, row: nat, column: int)
    requires p.Valid() && row < p.Rows() && Best(p, row, column).Finite?
    ensures p.InBand(row, column)
  {
  }

  function MovedOn(from: Cost, direction: Direction, penalty: real, local: real): Cost {
    (if direction.Diagonal? then from else from.Plus(penalty)).Plus(local)
  }

  lemma MovedOnAdds(from: Cost, direction: Direction, penalty: real, local: real)
    requires from.Finite?
    ensures MovedOn(from, direction, penalty, local)
      == Finite(from.value + local + if direction.Diagonal? then 0.0 else penalty)
  {
  }

  lemma CheapestIsMovedOn(diagonal: Cost, up: Cost, left: Cost, penalty: real, local: real, from: Cost)
    requires from == match Choose(diagonal, up.Plus(penalty), left.Plus(penalty))
                     case Up => up
                     case Left => left
                     case _ => diagonal
    ensures Cheapest(diagonal, up.Plus(penalty), left.Plus(penalty)).Plus(local)
      == MovedOn(from, Choose(diagonal, up.Plus(penalty), left.Plus(penalty)), penalty, local)
  {
  }

  /** The cost of a cell is that of the cell it is reached from, plus what the move adds. */
  lemma ChosenCost(p: Problem, row: nat, column: int)
    requires p.Valid() && 0 < row < p.Rows() && p.InBand(row, column)
    ensures var from := Before(Cell(row, column), Chosen(p, row, column));
      Best(p, row, column) == MovedOn(
        Best(p, from.row, from.column), Chosen(p, row, column), p.transitionPenalty, p.Local(row, column))
  {
    var diagonal, up, left := Best(p, row - 1, column - 1), Best(p, row - 1, column), Best(p, row, column - 1);
    var cost, direction := Best(p, row, column), Chosen(p, row, column);
    assert CheapestMove(p, row, column) ==
      Cheapest(diagonal, up.Plus(p.transitionPenalty), left.Plus(p.transitionPenalty));
    assert cost == CheapestMove(p, row, column).Plus(p.Local(row, column));
    CheapestIsMovedOn(
      diagonal, up, left, p.transitionPenalty, p.Local(row, column), BestBefore(p, row, column, direction));
    assert cost == MovedOn(
      BestBefore(p, row, column, direction), direction, p.transitionPenalty, p.Local(row, column));
  }

  /** The cost of the cell before a move. */
  function BestBefore(p: Problem, row: nat, column: int, direction: Direction): (r: Cost)
    requires p.Valid() && 0 < row < p.Rows()
    ensures var from := Before(Cell(row, column), direction); r == Best(p, from.row, from.column)
  {
    match direction
    case Up => Best(p, row - 1, column)
    case Left => Best(p, row, column - 1)
    case _ => Best(p, row - 1, column - 1)
  }

  /** The recorded direction leads to a reachable cell, one move away, that accounts for the cost. */
  lemma ChosenArrives(p: Problem, row: nat, column: int)
    requires p.Valid() && 0 < row < p.Rows() && Best(p, row, column).Finite?
    ensures p.InBand(row, column)
    ensures var from := Before(Cell(row, column), Chosen(p, row, column));
      && p.InBand(from.row, from.column)
      && Linked(from, Cell(row, column))
      && Best(p, from.row, from.column).Finite?
      && Best(p, row, column).value
        == Best(p, from.row, from.column).value + p.Local(row, column)
          + if DiagonalStep(from, Cell(row, column)) then 0.0 else p.transitionPenalty
  {
    var direction := Chosen(p, row, column);
    var from := Before(Cell(row, column), direction);
    ReachableIsInBand(p, row, column);
    ChosenIsReachable(p, row, column);
    ReachableIsInBand(p, from.row, from.column);
    ChosenCost(p, row, column);
    MovedOnAdds(Best(p, from.row, from.column), direction, p.transitionPenalty, p.Local(row, column));
    assert direction != Start;
  }

  /** The path that the recorded directions lead back along, from row 0 to the given cell. */
  function Trace(p: Problem, row: nat, column: int): seq<Cell>
    requires p.Valid() && row < p.Rows() && Best(p, row, column).Finite?
    decreases row, column
  {
    if row == 0 then [Cell(0, column)]
    else
      ChosenIsReachable(p, row, column);
      var previous := Before(Cell(row, column), Chosen(p, row, column));
      Trace(p, previous.row, previous.column) + [Cell(row, column)]
  }

  // ---- optimality ----------------------------------------------------------------------------

  lemma OpenCostOfOneCell(p: Problem, cell: Cell)
    requires p.Valid() && OpenPath(p, [cell])
    ensures OpenCost(p, [cell]) == p.Local(0, cell.column) + p.StartPrice(cell.column)
  {
    assert [cell][..0] == [];
    assert LocalSum(p, [cell]) == p.Local(0, cell.column);
    assert Bends([cell]) == 0;
  }

  lemma OpenCostExtends(p: Problem, prefix: seq<Cell>, cell: Cell)
    requires p.Valid() && OpenPath(p, prefix) && p.InBand(cell.row, cell.column)
    requires Linked(prefix[|prefix| - 1], cell)
    ensures OpenPath(p, prefix + [cell])
    ensures OpenCost(p, prefix + [cell])
      == OpenCost(p, prefix) + p.Local(cell.row, cell.column)
        + if DiagonalStep(prefix[|prefix| - 1], cell) then 0.0 else p.transitionPenalty
  {
    var path := prefix + [cell];
    assert path[..|path| - 1] == prefix;
    var t, n := p.transitionPenalty, Bends(prefix) as real;
    assert t * (n + 1.0) == t * n + t;
    assert path[|path| - 1] == cell;
    assert LocalSum(p, path) == LocalSum(p, prefix) + p.Local(cell.row, cell.column);
  }

  /** No path into a cell is cheaper than the recurrence says. */
  lemma {:induction false} BestIsLowerBound(p: Problem, path: seq<Cell>)
    requires p.Valid() && OpenPath(p, path)
    ensures var last := path[|path| - 1];
      Best(p, last.row, last.column).Finite? && Best(p, last.row, last.column).value <= OpenCost(p, path)
    decreases |path|
  {
    var k := |path| - 1;
    var last := path[k];
    if k == 0 {
      assert path == [last];
      OpenCostOfOneCell(p, last);
    } else {
      assert Linked(path[k - 1], path[k]);
      assert path == path[..k] + [last];
      OpenCostExtends(p, path[..k], last);
      BestIsLowerBound(p, path[..k]);
    }
  }

  /** The traced path is a path to its cell, is short, and costs exactly what the recurrence says. */
  lemma {:induction false} TraceRealisesBest(p: Problem, row: nat, column: int)
    requires p.Valid() && row < p.Rows() && Best(p, row, column).Finite?
    ensures var path := Trace(p, row, column);
      && OpenPath(p, path)
      && path[|path| - 1] == Cell(row, column)
      && |path| <= row + column + 1
      && OpenCost(p, path) == Best(p, row, column).value
    decreases row, column
  {
    if row == 0 {
      OpenCostOfOneCell(p, Cell(0, column));
    } else {
      ChosenArrives(p, row, column);
      var previous := Before(Cell(row, column), Chosen(p, row, column));
      TraceRealisesBest(p, previous.row, previous.column);
      var prefix := Trace(p, previous.row, previous.column);
      OpenCostExtends(p, prefix, Cell(row, column));
    }
  }

  /** The cost of ending in one cell of the last row. */
  function EndCost(p: Problem, column: int): Cost
    requires p.Valid()
  {
    Best(p, p.Rows() - 1, column).Plus(p.EndPrice(column))
  }

  /** A column that ends cheapest, the first one when several do. */
  ghost predicate IsBestEnd(p: Problem, column: int)
    requires p.Valid()
  {
    && EndCost(p, column).Finite?
    && (forall j :: EndCost(p, j).Finite? ==> EndCost(p, column).value <= EndCost(p, j).value)
    && (forall j :: EndCost(p, j).Finite? && j < column ==> EndCost(p, column).value < EndCost(p, j).value)
  }

  /** The minimum over the last row is the minimum over all admissible paths, and is attained. */
  lemma BestEndIsOptimal(p: Problem, column: int)
    requires p.Valid() && IsBestEnd(p, column)
    ensures var path := Trace(p, p.Rows() - 1, column);
      && Admissible(p, path)
      && PathCost(p, path) == EndCost(p, column).value
      && (forall q: seq<Cell> | Admissible(p, q) :: PathCost(p, path) <= PathCost(p, q))
  {
    TraceRealisesBest(p, p.Rows() - 1, column);
    forall q: seq<Cell> | Admissible(p, q)
      ensures EndCost(p, column).value <= PathCost(p, q)
    {
      BestIsLowerBound(p, q);
      assert EndCost(p, q[|q| - 1].column).Finite?;
    }
  }

  // ---- reachability of the band --------------------------------------------------------------

  /** Both edges of the band never move back. */
  ghost predicate Ordered(p: Problem) {
    forall i | 0 <= i && i + 1 < p.Rows() ::
      p.bands[i].start <= p.bands[i + 1].start && p.bands[i].end <= p.bands[i + 1].end
  }

  /** Row i + 1 starts beyond every column that row i can hand over. */
  predicate Gap(p: Problem, i: nat)
    requires i + 1 < p.Rows()
  {
    p.bands[i + 1].start > p.bands[i].end + 1
  }

  lemma {:induction false} NoGapReachesAll(p: Problem, row: nat, column: int)
    requires p.Valid() && Ordered(p) && p.InBand(row, column)
    requires forall i: nat | i < row :: !Gap(p, i)
    ensures Best(p, row, column).Finite?
    decreases row, column
  {
    if row > 0 {
      assert !Gap(p, row - 1);
      var above := p.bands[row - 1];
      if column > p.bands[row].start {
        NoGapReachesAll(p, row, column - 1);
      } else if column <= above.end {
        NoGapReachesAll(p, row - 1, column);
      } else {
        NoGapReachesAll(p, row - 1, column - 1);
      }
    }
  }

  lemma {:induction false} GapBlocks(p: Problem, gap: nat, row: nat, column: int)
    requires p.Valid() && gap < row < p.Rows() && Gap(p, gap)
    ensures Best(p, row, column).Infinite?
    decreases row, column
  {
    if p.InBand(row, column) {
      GapBlocks(p, gap, row, column - 1);
      if row > gap + 1 {
        GapBlocks(p, gap, row - 1, column);
        GapBlocks(p, gap, row - 1, column - 1);
      }
      assert Best(p, row - 1, column).Infinite? && Best(p, row - 1, column - 1).Infinite?;
      assert CheapestMove(p, row, column).Infinite?;
    }
  }

  /** An admissible path exists exactly when no row starts beyond the reach of the row above it. */
  lemma PathExistsIffNoGap(p: Problem)
    requires p.Valid() && Ordered(p)
    ensures (exists path: seq<Cell> :: Admissible(p, path)) <==> (forall i: nat | i + 1 < p.Rows() :: !Gap(p, i))
    ensures (exists column :: EndCost(p, column).Finite?) <==> (forall i: nat | i + 1 < p.Rows() :: !Gap(p, i))
  {
    var last := p.Rows() - 1;
    if i: nat :| i < last && Gap(p, i) {
      forall column ensures EndCost(p, column).Infinite? {
        GapBlocks(p, i, last, column);
      }
      forall path: seq<Cell> | Admissible(p, path) ensures false {
        BestIsLowerBound(p, path);
        GapBlocks(p, i, last, path[|path| - 1].column);
      }
    } else {
      NoGapReachesAll(p, last, p.bands[last].start);
      TraceRealisesBest(p, last, p.bands[last].start);
      assert EndCost(p, p.bands[last].start).Finite?;
      assert Admissible(p, Trace(p, last, p.bands[last].start));
    }
  }
}

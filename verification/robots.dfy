/**
 * The slide resolver `Robot.move` (Robot.py) and the move generator
 * `Robot.available_moves` that the search calls.
 *
 * A robot moving by (dx, dy) keeps stepping while the next cell is on the
 * board, holds no other robot, and no wall sits on the edge between; it stops
 * on the first step that fails one of these.
 */
module Robots {
  import opened Walls
  import opened Boards

  function Abs(n: int): nat {
    if n < 0 then -n else n
  }

  function Max(a: int, b: int): int {
    if a < b then b else a
  }

  /** The cell one step of (dx, dy) away from `c`. */
  function Advance(c: Cell, dx: int, dy: int): Cell {
    Cell(c.x + dx, c.y + dy)
  }

  /** The cell `k` steps of (dx, dy) away from `c`. */
  function Offset(c: Cell, dx: int, dy: int, k: int): Cell {
    Cell(c.x + k * dx, c.y + k * dy)
  }

  /** Manhattan distance between two cells. */
  function Dist(a: Cell, c: Cell): nat {
    Abs(c.x - a.x) + Abs(c.y - a.y)
  }

  /** `c` is reached from `a` by a non-negative number of (dx, dy) steps. */
  predicate OnRay(a: Cell, dx: int, dy: int, c: Cell) {
    c == Offset(a, dx, dy, Dist(a, c))
  }

  /** One more iteration of the loop in `move` would advance the robot from `c`. */
  predicate CanStep(size: Size, board: Board, c: Cell, dx: int, dy: int, others: seq<Cell>) {
    var next := Advance(c, dx, dy);
    InBounds(size, next) && next !in others && !IsWall(board, c, next)
  }

  /** How far the board edge lies ahead of `c`; it shrinks with every step taken. */
  function Room(size: Size, c: Cell, dx: int, dy: int): int {
    if dx > 0 then size.width - c.x
    else if dx < 0 then c.x + 1
    else if dy > 0 then size.height - c.y
    else c.y + 1
  }

  lemma OffsetZero(c: Cell, dx: int, dy: int)
    ensures Offset(c, dx, dy, 0) == c
  {
  }

  lemma OffsetSucc(c: Cell, dx: int, dy: int, k: int)
    ensures Offset(Advance(c, dx, dy), dx, dy, k) == Offset(c, dx, dy, k + 1)
    ensures Advance(Offset(c, dx, dy, k), dx, dy) == Offset(c, dx, dy, k + 1)
  {
    assert (k + 1) * dx == k * dx + dx;
    assert (k + 1) * dy == k * dy + dy;
  }

  lemma DistOffset(c: Cell, dx: int, dy: int, k: int)
    requires IsUnit(dx, dy) && 0 <= k
    ensures Dist(c, Offset(c, dx, dy, k)) == k
  {
    if dx == 1 {
      assert Offset(c, dx, dy, k) == Cell(c.x + k, c.y);
    } else if dx == -1 {
      assert Offset(c, dx, dy, k) == Cell(c.x - k, c.y);
    } else if dy == 1 {
      assert Offset(c, dx, dy, k) == Cell(c.x, c.y + k);
    } else {
      assert Offset(c, dx, dy, k) == Cell(c.x, c.y - k);
    }
  }

  /**
   * A step allowed from `pos`, followed by a run of allowed steps from the
   * next cell to `r`, is a run of allowed steps from `pos` to `r`.
   */
  lemma RayExtend(pos: Cell, dx: int, dy: int, size: Size, others: seq<Cell>, board: Board, r: Cell)
    requires IsUnit(dx, dy)
    requires CanStep(size, board, pos, dx, dy, others)
    requires OnRay(Advance(pos, dx, dy), dx, dy, r)
    requires forall k :: 0 <= k < Dist(Advance(pos, dx, dy), r) ==>
      CanStep(size, board, Offset(Advance(pos, dx, dy), dx, dy, k), dx, dy, others)
    ensures OnRay(pos, dx, dy, r) && Dist(pos, r) == Dist(Advance(pos, dx, dy), r) + 1
    ensures forall k :: 0 <= k < Dist(pos, r) ==> CanStep(size, board, Offset(pos, dx, dy, k), dx, dy, others)
  {
    var next := Advance(pos, dx, dy);
    var m := Dist(next, r);
    OffsetSucc(pos, dx, dy, m);
    DistOffset(pos, dx, dy, m + 1);
    OffsetZero(pos, dx, dy);
    forall k | 1 <= k < m + 1
      ensures Offset(pos, dx, dy, k) == Offset(next, dx, dy, k - 1)
    {
      OffsetSucc(pos, dx, dy, k - 1);
    }
  }

  /**
   * `Robot.move`: the cell where a robot at `pos` stops when pushed by the
   * unit vector (dx, dy). The result lies on the ray from `pos`, every step
   * taken on the way was allowed, and no further step is.
   */
  function Move(pos: Cell, dx: int, dy: int, size: Size, others: seq<Cell>, board: Board): (r: Cell)
    requires IsUnit(dx, dy)
    ensures OnRay(pos, dx, dy, r)
    ensures forall k :: 0 <= k < Dist(pos, r) ==> CanStep(size, board, Offset(pos, dx, dy, k), dx, dy, others)
    ensures !CanStep(size, board, r, dx, dy, others)
    decreases Room(size, pos, dx, dy)
  {
    var next := Advance(pos, dx, dy);
    if InBounds(size, next) && next !in others && !IsWall(board, pos, next) then
      var r := Move(next, dx, dy, size, others, board);
      RayExtend(pos, dx, dy, size, others, board, r);
      r
    else
      OffsetZero(pos, dx, dy);
      pos
  }

  /** Three properties single out the result: no other cell is on the ray, reached by allowed steps, and stuck. */
  lemma MoveUnique(pos: Cell, dx: int, dy: int, size: Size, others: seq<Cell>, board: Board, c: Cell)
    requires IsUnit(dx, dy)
    requires OnRay(pos, dx, dy, c)
    requires forall k :: 0 <= k < Dist(pos, c) ==> CanStep(size, board, Offset(pos, dx, dy, k), dx, dy, others)
    requires !CanStep(size, board, c, dx, dy, others)
    ensures c == Move(pos, dx, dy, size, others, board)
  {
    var r := Move(pos, dx, dy, size, others, board);
    var n, m := Dist(pos, c), Dist(pos, r);
    if n < m {
      assert false;
    } else if m < n {
      assert false;
    }
  }

  /**
   * Every cell the robot enters is on the board and free of other robots,
   * and no step crosses a wall.
   */
  lemma MovePathClear(pos: Cell, dx: int, dy: int, size: Size, others: seq<Cell>, board: Board, k: int)
    requires IsUnit(dx, dy)
    requires 0 <= k < Dist(pos, Move(pos, dx, dy, size, others, board))
    ensures InBounds(size, Offset(pos, dx, dy, k + 1))
    ensures Offset(pos, dx, dy, k + 1) !in others
    ensures !IsWall(board, Offset(pos, dx, dy, k), Offset(pos, dx, dy, k + 1))
  {
    OffsetSucc(pos, dx, dy, k);
  }

  /** The robot either stays put or ends on the board off every other robot; a start on the board ends on it. */
  lemma MoveStaysInBounds(pos: Cell, dx: int, dy: int, size: Size, others: seq<Cell>, board: Board)
    requires IsUnit(dx, dy)
    ensures var r := Move(pos, dx, dy, size, others, board);
      r == pos || (InBounds(size, r) && r !in others)
    ensures InBounds(size, pos) ==> InBounds(size, Move(pos, dx, dy, size, others, board))
  {
    var r := Move(pos, dx, dy, size, others, board);
    var m := Dist(pos, r);
    if m == 0 {
      OffsetZero(pos, dx, dy);
    } else {
      MovePathClear(pos, dx, dy, size, others, board, m - 1);
    }
  }

  /** The perpendicular coordinate is unchanged and the robot only moves the way it was pushed. */
  lemma MoveAlongLine(pos: Cell, dx: int, dy: int, size: Size, others: seq<Cell>, board: Board)
    requires IsUnit(dx, dy)
    ensures var r := Move(pos, dx, dy, size, others, board);
      && (dx == 0 ==> r.x == pos.x)
      && (dy == 0 ==> r.y == pos.y)
      && (r.x - pos.x) * dx >= 0
      && (r.y - pos.y) * dy >= 0
  {
    var r := Move(pos, dx, dy, size, others, board);
    var m := Dist(pos, r);
    assert r == Cell(pos.x + m * dx, pos.y + m * dy);
    assert (r.x - pos.x) * dx == m * (dx * dx);
    assert (r.y - pos.y) * dy == m * (dy * dy);
  }

  /** When the first step is off the board, onto a robot or through a wall, the robot does not move. */
  lemma MoveBlockedStart(pos: Cell, dx: int, dy: int, size: Size, others: seq<Cell>, board: Board)
    requires IsUnit(dx, dy)
    requires !CanStep(size, board, pos, dx, dy, others)
    ensures Move(pos, dx, dy, size, others, board) == pos
  {
    OffsetZero(pos, dx, dy);
    MoveUnique(pos, dx, dy, size, others, board, pos);
  }

  /** Sliding again the same way from where the robot stopped leaves it there. */
  lemma MoveIdempotent(pos: Cell, dx: int, dy: int, size: Size, others: seq<Cell>, board: Board)
    requires IsUnit(dx, dy)
    ensures var r := Move(pos, dx, dy, size, others, board);
      Move(r, dx, dy, size, others, board) == r
  {
    var r := Move(pos, dx, dy, size, others, board);
    MoveBlockedStart(r, dx, dy, size, others, board);
  }

  /**
   * From a cell on the board the loop of `move` runs Dist + 1 times (the
   * steps taken plus the final test), at most max(width, height) times.
   */
  lemma MoveIterationBound(pos: Cell, dx: int, dy: int, size: Size, others: seq<Cell>, board: Board)
    requires IsUnit(dx, dy)
    requires InBounds(size, pos)
    ensures Dist(pos, Move(pos, dx, dy, size, others, board)) + 1 <= Max(size.width, size.height)
  {
    MoveStaysInBounds(pos, dx, dy, size, others, board);
    MoveAlongLine(pos, dx, dy, size, others, board);
  }

  /** The slide of a robot in direction `d`, with the board's own size as the bound. */
  function Slide(pos: Cell, d: Direction, others: seq<Cell>, board: Board): Cell {
    Move(pos, Vector(d).0, Vector(d).1, board.size, others, board)
  }

  /** An `AvailableMove` record: where the slide ends and which way it went. */
  datatype AvailableMove = AvailableMove(finalPosition: Cell, direction: Direction)

  /**
   * `Robot.available_moves`: one slide per direction, in the enum's declaration
   * order, each paired with its direction.
   */
  function AvailableMoves(pos: Cell, board: Board, others: seq<Cell>): (r: seq<AvailableMove>)
    ensures |r| == |Order|
    ensures forall i :: 0 <= i < |r| ==> r[i].direction == Order[i]
    ensures forall m :: m in r <==> m == AvailableMove(Slide(pos, m.direction, others, board), m.direction)
  {
    var r := seq(|Order|, i requires 0 <= i < |Order| => AvailableMove(Slide(pos, Order[i], others, board), Order[i]));
    assert forall d :: r[Code(d) - 1] == AvailableMove(Slide(pos, d, others, board), d);
    r
  }
}

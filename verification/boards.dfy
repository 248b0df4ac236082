/**
 * The board: its size, its wall list, its goals, and the wall oracle
 * `is_wall` (Board.py, with the Goal record of Goal.py).
 */
module Boards {
  import opened Walls

  /** A grid cell (x, y); x grows eastwards and y southwards. */
  datatype Cell = Cell(x: int, y: int)

  /** The board size (width, height). */
  datatype Size = Size(width: int, height: int)

  /** A goal cell owned by one robot; its drawing colour is not modelled. */
  datatype Goal = Goal(x: int, y: int, robotNumber: int)

  datatype Board = Board(size: Size, walls: seq<Wall>, goals: seq<Goal>)

  predicate InBounds(size: Size, c: Cell) {
    0 <= c.x < size.width && 0 <= c.y < size.height
  }

  /** The cell next to `c` on side `d`. */
  function Neighbour(c: Cell, d: Direction): Cell {
    Cell(c.x + Vector(d).0, c.y + Vector(d).1)
  }

  /** `add_wall`: appends one wall and keeps the earlier walls, in order. */
  function AddWall(b: Board, x: int, y: int, d: Direction): (r: Board)
    ensures r.size == b.size && r.goals == b.goals
    ensures |r.walls| == |b.walls| + 1
    ensures r.walls[..|b.walls|] == b.walls
    ensures r.walls[|b.walls|] == Wall(x, y, d)
  {
    b.(walls := b.walls + [Wall(x, y, d)])
  }

  /** One `add_wall` call per element of `ws`, in order. */
  function AddWalls(b: Board, ws: seq<Wall>): (r: Board)
    ensures r.size == b.size && r.goals == b.goals
    ensures r.walls == b.walls + ws
    decreases |ws|
  {
    if |ws| == 0 then b
    else
      assert b.walls + ws == (b.walls + [ws[0]]) + ws[1..];
      AddWalls(AddWall(b, ws[0].x, ws[0].y, ws[0].direction), ws[1..])
  }

  /** The fixed wall list that `create_walls` installs. */
  const FixtureWalls: seq<Wall> := [
    Wall(2, 2, North), Wall(6, 7, East), Wall(3, 5, West), Wall(8, 3, South),
    Wall(10, 10, North), Wall(12, 12, West), Wall(8, 6, East), Wall(4, 10, South),
    Wall(5, 14, West), Wall(11, 8, North), Wall(13, 5, East), Wall(9, 12, West),
    Wall(6, 3, South), Wall(14, 14, North), Wall(2, 8, West), Wall(4, 4, East),
    Wall(12, 2, South), Wall(7, 11, North), Wall(15, 7, West), Wall(13, 9, East),
    Wall(0, 5, South), Wall(16, 10, West), Wall(8, 0, South), Wall(5, 15, North)
  ]

  /**
   * The constructor: an empty wall list filled by `create_walls`.
   * `Board.__init__` (Board.py:8-11) does not set goals; they are a
   * parameter here.
   */
  function NewBoard(size: Size, goals: seq<Goal>): (b: Board)
    ensures b.size == size && b.goals == goals
    ensures b.walls == FixtureWalls
  {
    AddWalls(Board(size, [], goals), FixtureWalls)
  }

  /**
   * The direction of travel from `from` to `to`, classified from the delta.
   * A one-cell step gets its own direction; a zero delta counts as North.
   */
  function TravelDirection(from: Cell, to: Cell): (r: Direction)
    ensures forall e :: to == Neighbour(from, e) ==> r == e
    ensures from == to ==> r == North
  {
    var dx := to.x - from.x;
    var dy := to.y - from.y;
    if dx > 0 then East
    else if dx < 0 then West
    else if dy > 0 then South
    else North
  }

  /** For a single step the classification recovers the step's direction. */
  lemma TravelDirectionOfNeighbour(c: Cell, d: Direction)
    ensures TravelDirection(c, Neighbour(c, d)) == d
  {
  }

  /** The local table of opposite facings used by `is_wall`. */
  const OppositeDirection: map<Direction, Direction> :=
    map[East := West, West := East, South := North, North := South]

  /** The local table is total and agrees with `~`. */
  lemma OppositeTableIsInverse(d: Direction)
    ensures d in OppositeDirection && OppositeDirection[d] == Inverse(d)
  {
  }

  /** The wall is attached to cell `c`. */
  predicate WallAt(w: Wall, c: Cell) {
    w.x == c.x && w.y == c.y
  }

  /**
   * The reference meaning of a wall blocking travel `move` from `from` to `to`:
   * it sits at `from` on the side we leave by, or at `to` on the side we enter by.
   */
  predicate Blocks(w: Wall, from: Cell, to: Cell, move: Direction) {
    || (w.x == from.x && w.y == from.y && w.direction == move)
    || (w.x == to.x && w.y == to.y && w.direction == Inverse(move))
  }

  /** The loop of `is_wall` over the wall list, returning at the first hit. */
  function WallsBlock(walls: seq<Wall>, from: Cell, to: Cell, move: Direction): (r: bool)
    ensures r <==> exists w :: w in walls && Blocks(w, from, to, move)
    decreases |walls|
  {
    if |walls| == 0 then false
    else
      var w := walls[0];
      OppositeTableIsInverse(w.direction);
      InverseInvolution(w.direction);
      InverseInvolution(move);
      if w.x == from.x && w.y == from.y && w.direction == move then
        assert Blocks(w, from, to, move);
        true
      else if w.x == to.x && w.y == to.y && OppositeDirection[w.direction] == move then
        assert Blocks(w, from, to, move);
        true
      else
        assert forall v :: v in walls <==> v == w || v in walls[1..];
        WallsBlock(walls[1..], from, to, move)
  }

  /** `is_wall`: does a wall block the move from `from` to `to`? */
  function IsWall(b: Board, from: Cell, to: Cell): (r: bool)
    ensures r <==> exists w :: w in b.walls && Blocks(w, from, to, TravelDirection(from, to))
  {
    WallsBlock(b.walls, from, to, TravelDirection(from, to))
  }

  /** A step crosses a wall exactly when a wall at either end faces the shared edge. */
  lemma IsWallStep(b: Board, c: Cell, d: Direction)
    ensures IsWall(b, c, Neighbour(c, d)) <==>
      || Wall(c.x, c.y, d) in b.walls
      || Wall(c.x + Vector(d).0, c.y + Vector(d).1, Inverse(d)) in b.walls
  {
    TravelDirectionOfNeighbour(c, d);
    var n := Neighbour(c, d);
    if IsWall(b, c, n) {
      var w :| w in b.walls && Blocks(w, c, n, d);
      assert w == Wall(c.x, c.y, d) || w == Wall(n.x, n.y, Inverse(d));
    }
    if Wall(c.x, c.y, d) in b.walls {
      assert Blocks(Wall(c.x, c.y, d), c, n, d);
    }
    if Wall(n.x, n.y, Inverse(d)) in b.walls {
      assert Blocks(Wall(n.x, n.y, Inverse(d)), c, n, d);
    }
  }

  /** Walls block from both sides of an edge: `is_wall` is symmetric on neighbouring cells. */
  lemma {:induction false} IsWallSymmetric(b: Board, c: Cell, d: Direction)
    ensures IsWall(b, c, Neighbour(c, d)) == IsWall(b, Neighbour(c, d), c)
  {
    var n := Neighbour(c, d);
    IsWallStep(b, c, d);
    IsWallStep(b, n, Inverse(d));
    InverseInvolution(d);
    assert Neighbour(n, Inverse(d)) == c;
  }

  /** Only walls located at one of the two cells can influence `is_wall`. */
  lemma IsWallLocal(b1: Board, b2: Board, from: Cell, to: Cell)
    requires forall w: Wall :: w in b1.walls && (WallAt(w, from) || WallAt(w, to)) ==> w in b2.walls
    requires forall w: Wall :: w in b2.walls && (WallAt(w, from) || WallAt(w, to)) ==> w in b1.walls
    ensures IsWall(b1, from, to) == IsWall(b2, from, to)
  {
    var move := TravelDirection(from, to);
    if IsWall(b1, from, to) {
      var w :| w in b1.walls && Blocks(w, from, to, move);
      assert w in b2.walls;
    }
    if IsWall(b2, from, to) {
      var w :| w in b2.walls && Blocks(w, from, to, move);
      assert w in b1.walls;
    }
  }

  /** A board without walls blocks nothing. */
  lemma NoWallsNoBlock(b: Board, from: Cell, to: Cell)
    requires b.walls == []
    ensures !IsWall(b, from, to)
  {
  }

  /**
   * A new wall blocks the edge it sits on, from both sides, and adding a wall
   * never unblocks a move that was blocked before.
   */
  lemma AddWallBlocks(b: Board, x: int, y: int, d: Direction, from: Cell, to: Cell)
    ensures IsWall(AddWall(b, x, y, d), Cell(x, y), Neighbour(Cell(x, y), d))
    ensures IsWall(AddWall(b, x, y, d), Neighbour(Cell(x, y), d), Cell(x, y))
    ensures IsWall(b, from, to) ==> IsWall(AddWall(b, x, y, d), from, to)
  {
    var r := AddWall(b, x, y, d);
    assert Wall(x, y, d) in r.walls;
    IsWallStep(r, Cell(x, y), d);
    IsWallSymmetric(r, Cell(x, y), d);
    if IsWall(b, from, to) {
      var w :| w in b.walls && Blocks(w, from, to, TravelDirection(from, to));
      assert w in r.walls;
    }
  }

  /**
   * On a board carrying the fixture walls, as `NewBoard` builds, the NORTH
   * wall of (2, 2) blocks the edge between (2, 2) and (2, 1) in both directions.
   */
  lemma FixtureNorthWallOfCell22(b: Board)
    requires b.walls == FixtureWalls
    ensures IsWall(b, Cell(2, 2), Cell(2, 1))
    ensures IsWall(b, Cell(2, 1), Cell(2, 2))
  {
    assert b.walls[0] == Wall(2, 2, North);
    IsWallStep(b, Cell(2, 2), North);
    IsWallSymmetric(b, Cell(2, 2), North);
  }

  /** The fixture has no wall on the edge between (2, 3) and (2, 2), from either side. */
  lemma FixtureLacksEdge23To22()
    ensures Wall(2, 3, North) !in FixtureWalls && Wall(2, 2, South) !in FixtureWalls
  {
  }

  /**
   * On a board carrying the fixture walls the same wall does not block the
   * edge between (2, 3) and (2, 2), the other side of the cell.
   */
  lemma FixtureSouthEdgeOfCell22Open(b: Board)
    requires b.walls == FixtureWalls
    ensures !IsWall(b, Cell(2, 3), Cell(2, 2))
  {
    FixtureLacksEdge23To22();
    StepOpenWithoutWalls(b, Cell(2, 3), North);
  }

  /** A step with no wall on either side of its edge is not blocked. */
  lemma StepOpenWithoutWalls(b: Board, c: Cell, d: Direction)
    requires Wall(c.x, c.y, d) !in b.walls
    requires Wall(c.x + Vector(d).0, c.y + Vector(d).1, Inverse(d)) !in b.walls
    ensures !IsWall(b, c, Neighbour(c, d))
  {
    IsWallStep(b, c, d);
  }

  /** `is_on_goal(pos, i)`: some goal record has this cell and robot number `i`. */
  predicate IsOnGoal(b: Board, pos: Cell, i: int): (r: bool)
    ensures r <==> Goal(pos.x, pos.y, i) in b.goals
  {
    exists g :: g in b.goals && g.x == pos.x && g.y == pos.y && g.robotNumber == i
  }
}

/**
 * Directions of travel and wall records (Wall.py).
 *
 * The board's y axis grows southwards, so NORTH is (0, -1).
 */
module Walls {
  import opened Wrappers

  /** The four sides of a cell, in the order Wall.py's `Direction` enum declares them. */
  datatype Direction = North | South | East | West

  /** The enum's members in declaration order; `from_int` indexes this list. */
  const Order: seq<Direction> := [North, South, East, West]

  /** True when (dx, dy) has exactly one non-zero component and that component is 1 or -1. */
  predicate IsUnit(dx: int, dy: int) {
    (dx == 0 && (dy == 1 || dy == -1)) || (dy == 0 && (dx == 1 || dx == -1))
  }

  /** The unit vector (dx, dy) that each direction carries as its enum value. */
  function Vector(d: Direction): (v: (int, int))
    ensures IsUnit(v.0, v.1)
    ensures d == North ==> v.1 < 0
    ensures d == South ==> v.1 > 0
    ensures d == East ==> v.0 > 0
    ensures d == West ==> v.0 < 0
  {
    match d
    case North => (0, -1)
    case South => (0, 1)
    case East => (1, 0)
    case West => (-1, 0)
  }

  /** The `~` operator: the facing on the other side of the same edge. */
  function Inverse(d: Direction): (r: Direction)
    ensures r != d
    ensures Vector(r) == (-Vector(d).0, -Vector(d).1)
  {
    match d
    case North => South
    case South => North
    case East => West
    case West => East
  }

  /** `~` undoes itself. */
  lemma InverseInvolution(d: Direction)
    ensures Inverse(Inverse(d)) == d
  {
  }

  /** Two directions with the same vector are the same direction. */
  lemma VectorInjective(d: Direction, e: Direction)
    requires Vector(d) == Vector(e)
    ensures d == e
  {
  }

  /**
   * `from_int` as written: the code indexes the four-element list at i - 1
   * with Python's indexing, so an index in -4..-1 counts from the end of the
   * list and anything else raises IndexError (modelled as None).
   */
  function FromInt(i: int): (r: Option<Direction>)
    ensures r.Some? <==> -3 <= i <= 4
    ensures 1 <= i <= 4 ==> r == Some(Order[i - 1])
  {
    var k := i - 1;
    if -|Order| <= k < |Order| then Some(Order[k % |Order|]) else None
  }

  /** Code 0 is not a direction code, yet `from_int` silently answers WEST. */
  lemma FromIntZeroIsWest()
    ensures FromInt(0) == Some(West)
    ensures FromInt(-1) == Some(East)
    ensures forall d :: Decode(0) != Some(d)
  {
  }

  /** The map-format code of a direction: 1 = NORTH, 2 = SOUTH, 3 = EAST, 4 = WEST. */
  function Code(d: Direction): (c: int)
    ensures 1 <= c <= 4
    ensures Order[c - 1] == d
  {
    match d
    case North => 1
    case South => 2
    case East => 3
    case West => 4
  }

  /** `from_int` as intended: a code outside 1..4 is rejected instead of wrapping. */
  function Decode(i: int): (r: Option<Direction>)
    ensures r.Some? <==> 1 <= i <= 4
  {
    if 1 <= i <= 4 then Some(Order[i - 1]) else None
  }

  /** Decode inverts Code, in both directions, so it is injective on 1..4. */
  lemma DecodeCodeRoundTrip(d: Direction, i: int)
    ensures Decode(Code(d)) == Some(d)
    ensures Decode(i) == Some(d) ==> Code(d) == i
  {
  }

  /** On the valid codes the corrected decoder and `from_int` agree, yielding NORTH, SOUTH, EAST, WEST. */
  lemma FromIntAgreesOnCodes(i: int)
    requires 1 <= i <= 4
    ensures FromInt(i) == Decode(i)
    ensures i == 1 ==> FromInt(i) == Some(North)
    ensures i == 2 ==> FromInt(i) == Some(South)
    ensures i == 3 ==> FromInt(i) == Some(East)
    ensures i == 4 ==> FromInt(i) == Some(West)
  {
  }

  /** A wall segment on side `direction` of cell (x, y); the constructor stores its arguments as given. */
  datatype Wall = Wall(x: int, y: int, direction: Direction)
}

/**
 * The search problem of GraphSearchAI.py: joint robot states, the actions
 * available in a state, the successor function `results`, the goal test and
 * the A* heuristic, plus the replay of a move path from a start state.
 */
module SearchProblem {
  import opened Wrappers
  import opened Walls
  import opened Boards
  import opened Robots

  /** The positions of all robots, indexed by robot id. */
  type State = seq<Cell>

  /** A `RobotMove`: which robot moves, and the slide it makes. */
  datatype RobotMove = RobotMove(robotId: int, move: AvailableMove)

  type Path = seq<RobotMove>

  /** The positions of every robot except robot `id`, in id order. */
  function Others(s: State, id: int): (r: seq<Cell>)
    requires 0 <= id < |s|
    ensures |r| == |s| - 1
    ensures forall c :: c in r <==> exists j :: 0 <= j < |s| && j != id && s[j] == c
  {
    var r := s[..id] + s[id + 1..];
    assert forall j :: 0 <= j < |s| && j != id ==> s[j] == r[if j < id then j else j - 1];
    r
  }

  /** The action that slides robot `id` in direction `d`, the other robots standing still. */
  function SlideAction(b: Board, s: State, id: int, d: Direction): RobotMove
    requires 0 <= id < |s|
  {
    RobotMove(id, AvailableMove(Slide(s[id], d, Others(s, id), b), d))
  }

  /** The actions the loop of `actions` produces for robots `i`, `i + 1`, ... */
  function ActionsFrom(b: Board, s: State, i: int): (r: seq<RobotMove>)
    requires 0 <= i <= |s|
    ensures |r| == |Order| * (|s| - i)
    ensures forall a :: a in r ==> i <= a.robotId < |s|
    decreases |s| - i
  {
    if i == |s| then []
    else
      var moves := AvailableMoves(s[i], b, Others(s, i));
      seq(|moves|, k requires 0 <= k < |moves| => RobotMove(i, moves[k])) + ActionsFrom(b, s, i + 1)
  }

  /** The actions for robots from `i` on are exactly their slides, one per direction. */
  lemma {:induction false} ActionsFromAreSlides(b: Board, s: State, i: int, a: RobotMove)
    requires 0 <= i <= |s|
    ensures a in ActionsFrom(b, s, i) <==>
      i <= a.robotId < |s| && a == SlideAction(b, s, a.robotId, a.move.direction)
    decreases |s| - i
  {
    if i < |s| {
      var moves := AvailableMoves(s[i], b, Others(s, i));
      var own := seq(|moves|, k requires 0 <= k < |moves| => RobotMove(i, moves[k]));
      assert ActionsFrom(b, s, i) == own + ActionsFrom(b, s, i + 1);
      ActionsFromAreSlides(b, s, i + 1, a);
      if a.robotId == i && a == SlideAction(b, s, i, a.move.direction) {
        assert a.move in moves;
        var k :| 0 <= k < |moves| && moves[k] == a.move;
        assert own[k] == a;
      }
    }
  }

  /**
   * `actions`: for every robot in id order, one slide per direction. Which
   * actions these are is stated by `ActionsAreSlides`.
   */
  function Actions(b: Board, s: State): (r: seq<RobotMove>)
    ensures |r| == |Order| * |s|
    ensures forall a :: a in r ==> 0 <= a.robotId < |s|
  {
    ActionsFrom(b, s, 0)
  }

  /**
   * The actions of a state are exactly the slides of each robot in each
   * direction, each computed against the positions of the other robots only.
   */
  lemma ActionsAreSlides(b: Board, s: State, a: RobotMove)
    ensures a in Actions(b, s) <==>
      0 <= a.robotId < |s| && a == SlideAction(b, s, a.robotId, a.move.direction)
  {
    ActionsFromAreSlides(b, s, 0, a);
  }

  /** `results`: a copy of the state with the moving robot at its final position. */
  function Results(s: State, a: RobotMove): (r: State)
    requires 0 <= a.robotId < |s|
    ensures |r| == |s|
    ensures r[a.robotId] == a.move.finalPosition
    ensures forall j :: 0 <= j < |s| && j != a.robotId ==> r[j] == s[j]
  {
    s[a.robotId := a.move.finalPosition]
  }

  /** A slide that leaves the robot where it was leaves the whole state unchanged. */
  lemma NoOpActionKeepsState(s: State, a: RobotMove)
    requires 0 <= a.robotId < |s|
    requires a.move.finalPosition == s[a.robotId]
    ensures Results(s, a) == s
  {
  }

  /**
   * After robot `id` slides in direction `d`, sliding it the same way again
   * is available and changes nothing.
   */
  lemma RepeatActionIsNoOp(b: Board, s: State, id: int, d: Direction)
    requires 0 <= id < |s|
    ensures var t := Results(s, SlideAction(b, s, id, d));
      SlideAction(b, t, id, d) in Actions(b, t) && Results(t, SlideAction(b, t, id, d)) == t
  {
    var t := Results(s, SlideAction(b, s, id, d));
    assert Others(t, id) == Others(s, id) by {
      assert t[..id] == s[..id];
      assert t[id + 1..] == s[id + 1..];
    }
    MoveIdempotent(s[id], Vector(d).0, Vector(d).1, b.size, Others(s, id), b);
    ActionsAreSlides(b, t, SlideAction(b, t, id, d));
  }

  /** How many of the robots 0 .. n - 1 stand on a goal of their own. */
  function OnGoalCount(b: Board, s: State, n: int): (r: nat)
    requires 0 <= n <= |s|
    ensures r <= n
  {
    if n == 0 then 0
    else OnGoalCount(b, s, n - 1) + (if IsOnGoal(b, s[n - 1], n - 1) then 1 else 0)
  }

  /** `goal_test`: the number of robots on their own goal equals the number of goals. */
  predicate GoalTest(b: Board, s: State) {
    OnGoalCount(b, s, |s|) == |b.goals|
  }

  /** The count is full exactly when every counted robot is on its own goal. */
  lemma {:induction false} OnGoalCountFull(b: Board, s: State, n: int)
    requires 0 <= n <= |s|
    ensures OnGoalCount(b, s, n) == n <==> forall i :: 0 <= i < n ==> IsOnGoal(b, s[i], i)
  {
    if n > 0 {
      OnGoalCountFull(b, s, n - 1);
    }
  }

  /** With no goals nobody is on a goal, so the count is zero. */
  lemma {:induction false} OnGoalCountNoGoals(b: Board, s: State, n: int)
    requires 0 <= n <= |s|
    requires |b.goals| == 0
    ensures OnGoalCount(b, s, n) == 0
  {
    if n > 0 {
      OnGoalCountNoGoals(b, s, n - 1);
    }
  }

  /** With one goal per robot, `goal_test` holds exactly when every robot is on its own goal. */
  lemma GoalTestOneGoalPerRobot(b: Board, s: State)
    requires |b.goals| == |s|
    ensures GoalTest(b, s) <==> forall i :: 0 <= i < |s| ==> IsOnGoal(b, s[i], i)
  {
    OnGoalCountFull(b, s, |s|);
  }

  /** A board without goals passes every state. */
  lemma GoalTestNoGoals(b: Board, s: State)
    requires |b.goals| == 0
    ensures GoalTest(b, s)
  {
    OnGoalCountNoGoals(b, s, |s|);
  }

  /** Goals belong to distinct robots that all exist in the state. */
  predicate GoalsWellFormed(b: Board, s: State) {
    && (forall g :: g in b.goals ==> 0 <= g.robotNumber < |s|)
    && (forall i, j :: 0 <= i < j < |b.goals| ==> b.goals[i].robotNumber != b.goals[j].robotNumber)
  }

  /** The robots among 0 .. n - 1 that stand on a goal of their own. */
  function OnGoalSet(b: Board, s: State, n: int): set<int>
    requires 0 <= n <= |s|
  {
    set i | 0 <= i < n && IsOnGoal(b, s[i], i)
  }

  /** The robots that own a goal among the first n goals. */
  function Owners(goals: seq<Goal>, n: int): set<int>
    requires 0 <= n <= |goals|
  {
    set k | 0 <= k < n :: goals[k].robotNumber
  }

  lemma {:induction false} OnGoalCountIsSetSize(b: Board, s: State, n: int)
    requires 0 <= n <= |s|
    ensures OnGoalCount(b, s, n) == |OnGoalSet(b, s, n)|
  {
    if n > 0 {
      OnGoalCountIsSetSize(b, s, n - 1);
      if IsOnGoal(b, s[n - 1], n - 1) {
        assert OnGoalSet(b, s, n) == OnGoalSet(b, s, n - 1) + {n - 1};
      } else {
        assert OnGoalSet(b, s, n) == OnGoalSet(b, s, n - 1);
      }
    }
  }

  lemma {:induction false} OwnersSize(goals: seq<Goal>, n: int)
    requires 0 <= n <= |goals|
    requires forall i, j :: 0 <= i < j < |goals| ==> goals[i].robotNumber != goals[j].robotNumber
    ensures |Owners(goals, n)| == n
  {
    if n > 0 {
      OwnersSize(goals, n - 1);
      assert Owners(goals, n) == Owners(goals, n - 1) + {goals[n - 1].robotNumber};
      assert goals[n - 1].robotNumber !in Owners(goals, n - 1);
    }
  }

  /** Only robots that own a goal can stand on one. */
  lemma OnGoalSetWithinOwners(b: Board, s: State)
    ensures OnGoalSet(b, s, |s|) <= Owners(b.goals, |b.goals|)
  {
    forall i | i in OnGoalSet(b, s, |s|)
      ensures i in Owners(b.goals, |b.goals|)
    {
      var g :| g in b.goals && g.x == s[i].x && g.y == s[i].y && g.robotNumber == i;
      var k :| 0 <= k < |b.goals| && b.goals[k] == g;
    }
  }

  /** A subset as large as its superset is the whole superset. */
  lemma SubsetOfSameSize(small: set<int>, big: set<int>)
    requires small <= big && |small| == |big|
    ensures small == big
  {
    assert big == small + (big - small);
    assert |big| == |small| + |big - small|;
  }

  /** With distinct owners, robot `g.robotNumber` stands on a goal of its own exactly when it is on `g`. */
  lemma OwnGoalIsThisGoal(b: Board, s: State, k: int)
    requires GoalsWellFormed(b, s)
    requires 0 <= k < |b.goals|
    ensures var g := b.goals[k];
      IsOnGoal(b, s[g.robotNumber], g.robotNumber) <==> s[g.robotNumber] == Cell(g.x, g.y)
  {
    var g := b.goals[k];
    if IsOnGoal(b, s[g.robotNumber], g.robotNumber) {
      var h :| h in b.goals && h.x == s[g.robotNumber].x && h.y == s[g.robotNumber].y
        && h.robotNumber == g.robotNumber;
      var l :| 0 <= l < |b.goals| && b.goals[l] == h;
      assert k == l;
    }
  }

  /**
   * With goals of distinct robots, `goal_test` holds exactly when every goal
   * is occupied by the robot it belongs to.
   */
  lemma GoalTestMeaning(b: Board, s: State)
    requires GoalsWellFormed(b, s)
    ensures GoalTest(b, s) <==>
      forall g :: g in b.goals ==> s[g.robotNumber] == Cell(g.x, g.y)
  {
    var on := OnGoalSet(b, s, |s|);
    var owners := Owners(b.goals, |b.goals|);
    OnGoalCountIsSetSize(b, s, |s|);
    OwnersSize(b.goals, |b.goals|);
    OnGoalSetWithinOwners(b, s);
    if GoalTest(b, s) {
      SubsetOfSameSize(on, owners);
      forall g | g in b.goals
        ensures s[g.robotNumber] == Cell(g.x, g.y)
      {
        var k :| 0 <= k < |b.goals| && b.goals[k] == g;
        assert g.robotNumber in owners;
        OwnGoalIsThisGoal(b, s, k);
      }
    }
    if forall g :: g in b.goals ==> s[g.robotNumber] == Cell(g.x, g.y) {
      assert owners <= on by {
        forall i | i in owners
          ensures i in on
        {
          var k :| 0 <= k < |b.goals| && b.goals[k].robotNumber == i;
          OwnGoalIsThisGoal(b, s, k);
        }
      }
      assert on == owners;
    }
  }

  /** Manhattan distance from a robot cell to a goal cell. */
  function GoalDistance(c: Cell, g: Goal): nat {
    Dist(c, Cell(g.x, g.y))
  }

  /** A goal cell of any robot sits at `c`. */
  predicate OnSomeGoalCell(b: Board, c: Cell) {
    exists g :: g in b.goals && g.x == c.x && g.y == c.y
  }

  /** `min(distances)`: the distance from `c` to the nearest goal of any robot. */
  function NearestGoal(c: Cell, goals: seq<Goal>): (r: nat)
    requires |goals| > 0
    ensures forall g :: g in goals ==> r <= GoalDistance(c, g)
    ensures exists g :: g in goals && r == GoalDistance(c, g)
    decreases |goals|
  {
    if |goals| == 1 then GoalDistance(c, goals[0])
    else
      var rest := NearestGoal(c, goals[1..]);
      assert forall g :: g in goals <==> g == goals[0] || g in goals[1..];
      if GoalDistance(c, goals[0]) <= rest then GoalDistance(c, goals[0]) else rest
  }

  /**
   * `heuristic` over the robots of `s`: the sum of their nearest-goal
   * distances. With no robots the loop body never runs and the sum is 0,
   * whatever the goal list holds.
   */
  function Heuristic(b: Board, s: State): (r: nat)
    requires |b.goals| > 0 || |s| == 0
    ensures r == 0 <==> forall i :: 0 <= i < |s| ==> OnSomeGoalCell(b, s[i])
    decreases |s|
  {
    if |s| == 0 then 0
    else
      var c := s[|s| - 1];
      var h := NearestGoal(c, b.goals);
      assert h == 0 <==> OnSomeGoalCell(b, c) by {
        if h == 0 {
          var g :| g in b.goals && h == GoalDistance(c, g);
          assert g.x == c.x && g.y == c.y;
        }
        if OnSomeGoalCell(b, c) {
          var g :| g in b.goals && g.x == c.x && g.y == c.y;
          assert GoalDistance(c, g) == 0;
        }
      }
      Heuristic(b, s[..|s| - 1]) + h
  }

  /** A state that passes the goal test with one goal per robot has heuristic 0. */
  lemma GoalStateHasZeroHeuristic(b: Board, s: State)
    requires |b.goals| == |s| > 0
    requires GoalTest(b, s)
    ensures Heuristic(b, s) == 0
  {
    GoalTestOneGoalPerRobot(b, s);
    forall i | 0 <= i < |s|
      ensures OnSomeGoalCell(b, s[i])
    {
      assert IsOnGoal(b, s[i], i);
    }
  }

  /**
   * Replaying a move path from `s`: each move must be one that `actions`
   * offers in the state reached so far, and is applied with `results`.
   * None means some move was not on offer.
   */
  function Replay(b: Board, s: State, p: Path): (r: Option<State>)
    ensures r.Some? ==> |r.value| == |s|
    decreases |p|
  {
    if |p| == 0 then Some(s)
    else
      match Replay(b, s, p[..|p| - 1])
      case None => None
      case Some(u) =>
        var a := p[|p| - 1];
        if a in Actions(b, u) then Some(Results(u, a)) else None
  }

  /** Extending a replayable path by an action on offer at its end replays to the action's result. */
  lemma ReplayAppend(b: Board, s: State, p: Path, u: State, a: RobotMove)
    requires Replay(b, s, p) == Some(u)
    requires a in Actions(b, u)
    ensures Replay(b, s, p + [a]) == Some(Results(u, a))
  {
    assert (p + [a])[..|p|] == p;
  }

  /** The last move of a replayable path was on offer in the state before it. */
  lemma ReplayLast(b: Board, s: State, p: Path, t: State)
    requires |p| > 0
    requires Replay(b, s, p) == Some(t)
    ensures Replay(b, s, p[..|p| - 1]).Some?
    ensures var u := Replay(b, s, p[..|p| - 1]).value;
      p[|p| - 1] in Actions(b, u) && t == Results(u, p[|p| - 1])
  {
  }
}

# Ricochet Robots search engine, modelled in Dafny

This project models the solver of a Ricochet-Robots-style puzzle. Robots sit
on a rectangular grid of cells with walls on some cell edges. A robot moves
in one of four directions. It slides until the board edge, another robot or
a wall stops it. The solver searches the space of joint robot positions for
a sequence of slides after which every robot stands on its goal.

The model follows the Python source layer by layer:

- `Walls` (Wall.py's `Direction` enum and `Wall` record): the four unit
  vectors, the `~` inverse and the `from_int` decoder.
- `Boards` (`Board.add_wall`, `Board.is_wall`, the `create_walls` fixture):
  the wall list and the collision test between two cells.
- `Robots` (`Robot.move`): the slide, written as a recursive function on
  the distance to the board edge. `available_moves` gives one slide per
  direction.
- `SearchProblem` (`GraphSearchAI.actions`, `results`, `goal_test`,
  `heuristic`): the state space. `Replay` is an added reference definition.
  It re-applies a path from the start state and checks each move is one
  `actions` offers. Soundness and minimality are stated against it.
- `SearchDrivers` (`solve_bfs`, `solve_dfs`, `solve_a_star`, `solve`):
  - The three drivers are imperative loops over a sequence frontier and a
    visited set.
  - All three share `Expand`, the inner loop that pushes every successor
    not yet visited.
  - A* takes entries in the heap's order, `(priority, state)`.

Proved about the drivers:

- A returned path replays to a goal state.
- None is returned only when no path of offered moves reaches a goal state.
- A start state that already passes the goal test yields the empty path.
- The path returned by breadth-first search is no longer than any solving
  path.
- No state is pushed twice.

Termination is proved with a finite universe of states: each robot is either
inside the board or still at its starting cell. The measure is the number of
universe states not yet visited, then the frontier length.

Robot.py and Board.py do not define three operations the search calls.
They are modelled as follows:

- `Robot.available_moves(pos, board, others)` is one `Robot.move` slide per
  direction, in enum order NORTH, SOUTH, EAST, WEST. Each yields
  `(final_position, direction)`. No-op slides are kept; dropping them would
  not change any search result, since a no-op leads back to an
  already-visited state.
- `board.is_on_goal(pos, i)` holds when some goal record has position `pos`
  and robot number `i`.
- `board.goals` is a sequence of goal records. It is a field of the
  modelled `Board`.

`goal_test` reads `self.board` and `actions` reads
`game_interface.game_instance.board`. These are the same object (AI.py:21),
so the model passes a single `Board` to both.

Python's `Robot.move` updates `self.position` in place. The model returns
the final cell instead.

`is_wall` consults only walls at the origin cell facing the move and walls
at the destination facing back. A North wall at (2,2) therefore guards only
the (2,2)–(2,1) edge, and the step (2,3)→(2,2) stays open.
`Boards.FixtureNorthWallOfCell22` proves the edge it does block, and
`Boards.FixtureSouthEdgeOfCell22Open` proves (2,3)→(2,2) is open on the
fixture board.

A* breaks ties by Python tuple comparison of `(priority, (state, path))`.
Frontier states are pairwise distinct, so the path is never compared.

## Model

| member | source | states |
|---|---|---|
| `Walls.Vector` | Wall.py:4-8 | each direction's vector has exactly one non-zero component, which is ±1; NORTH points to smaller y, SOUTH to larger y, EAST to larger x, WEST to smaller x |
| `Walls.Inverse` | Wall.py:11-19 | `~d` is never `d`, and its vector is the negation of `d`'s |
| `Walls.InverseInvolution` | Wall.py:11-19 | `~~d == d` for every direction |
| `Walls.VectorInjective` | Wall.py:4-8 | two directions with the same vector are the same direction |
| `Walls.FromInt` | Wall.py:21-23 | `from_int` as written returns a direction exactly for -3..4 (Python list indexing); for 1..4 it returns NORTH, SOUTH, EAST, WEST in that order |
| `Walls.FromIntZeroIsWest` | Wall.py:21-23 | code 0, which names no direction, decodes to WEST, and code -1 decodes to EAST; the intended decoder rejects 0 |
| `Walls.Code` | Wall.py:21-23 | every direction has a code in 1..4, namely its position in the decoding list |
| `Walls.Decode` | Wall.py:21-23 | the intended decoder yields a direction exactly for codes 1..4 |
| `Walls.DecodeCodeRoundTrip` | Wall.py:21-23 | decoding a direction's code gives the direction back, and that code is the only one that does (injective on 1..4) |
| `Walls.FromIntAgreesOnCodes` | Wall.py:21-23 | on 1..4 `from_int` and the intended decoder agree: 1 NORTH, 2 SOUTH, 3 EAST, 4 WEST |
| `Boards.AddWall` | Board.py:39-41 | exactly one wall is appended, carrying the given x, y and direction unchanged; earlier walls keep their order; size and goals are untouched |
| `Boards.AddWalls` | Board.py:13-41 | adding walls one by one appends them in order to the wall list |
| `Boards.NewBoard` | Board.py:5-37 | a fresh board carries exactly the 24 fixture walls of `create_walls`, in order |
| `Boards.TravelDirection` | Board.py:49-57 | a one-cell step is classified as the direction it is taken in; a zero delta is classified as North |
| `Boards.TravelDirectionOfNeighbour` | Board.py:49-57 | the direction classified from the delta of a one-cell step is the direction stepped in |
| `Boards.OppositeTableIsInverse` | Board.py:59-65 | the local opposite-direction table covers every direction and agrees with `~` |
| `Boards.IsWall` | Board.py:43-77 | `is_wall(from, to)` holds iff some wall in the list sits at `from` facing the travel direction or at `to` facing its opposite |
| `Boards.WallsBlock` | Board.py:67-77 | the wall loop reports a block iff some wall sits at the origin facing the move, or at the destination facing the opposite way |
| `Boards.IsWallStep` | Board.py:43-77 | a one-cell step in direction d is blocked iff the wall list holds a wall at the origin facing d or a wall at the destination facing `~d` |
| `Boards.IsWallSymmetric` | Board.py:67-77 | between orthogonally adjacent cells, `is_wall(a, b) == is_wall(b, a)` |
| `Boards.IsWallLocal` | Board.py:67-77 | only walls located at the origin or destination cell affect `is_wall` |
| `Boards.NoWallsNoBlock` | Board.py:67-77 | with an empty wall list nothing is blocked |
| `Boards.AddWallBlocks` | Board.py:39-77 | an added wall blocks its edge from both sides, and adding a wall never unblocks a pair |
| `Boards.StepOpenWithoutWalls` | Board.py:67-77 | a step is open when neither of the two walls that could guard its edge is present |
| `Boards.FixtureNorthWallOfCell22` | Board.py:14 | on a board carrying the fixture walls, as a fresh board does, the North wall at (2,2) blocks (2,2)→(2,1) and (2,1)→(2,2) |
| `Boards.FixtureLacksEdge23To22` | Board.py:13-37 | the fixture holds neither a North wall at (2,3) nor a South wall at (2,2) |
| `Boards.FixtureSouthEdgeOfCell22Open` | Board.py:13-37 | on a board carrying the fixture walls the step (2,3)→(2,2) is not blocked |
| `Boards.IsOnGoal` | GraphSearchAI.py:59-63 | the `is_on_goal(pos, i)` the goal test calls holds iff the goal list holds a record for cell `pos` and robot `i` |
| `Robots.Move` | Robot.py:6-20 | the final cell lies on the ray from the start; every step taken was in bounds, onto a free cell and not walled; from the final cell the next step is out of bounds, occupied or walled |
| `Robots.MoveUnique` | Robot.py:6-20 | any cell with those three properties is the slide's result, so the contract characterises the slide |
| `Robots.MovePathClear` | Robot.py:13-16 | each cell passed through is in bounds and not another robot's, and each step is not walled |
| `Robots.MoveStaysInBounds` | Robot.py:13-20 | the robot either stays put or ends inside the board on a cell no other robot holds; a start inside the board ends inside |
| `Robots.MoveAlongLine` | Robot.py:10-16 | the perpendicular coordinate is unchanged and the displacement is a non-negative multiple of `(dx, dy)` |
| `Robots.MoveBlockedStart` | Robot.py:13-20 | if the first step is out of bounds, occupied or walled, the robot does not move |
| `Robots.MoveIdempotent` | Robot.py:7-20 | repeating the same slide from its final cell does not move the robot |
| `Robots.MoveIterationBound` | Robot.py:7-20 | from inside the board the loop runs at most max(width, height) times |
| `Robots.AvailableMoves` | GraphSearchAI.py:36-40 | four moves, one per direction in enum order; a move is offered iff its final cell is that direction's slide |
| `SearchProblem.Others` | GraphSearchAI.py:31-33 | the other robots' positions: one fewer than the state, and exactly the cells at indices other than the moving robot's |
| `SearchProblem.ActionsFrom` | GraphSearchAI.py:30-43 | the loop from robot `i` onwards yields four actions per remaining robot, each for one of those robots; `ActionsFromAreSlides` states they are exactly its slides |
| `SearchProblem.Actions` | GraphSearchAI.py:21-43 | four actions per robot, each naming a valid robot index |
| `SearchProblem.ActionsFromAreSlides` | GraphSearchAI.py:30-41 | the actions generated from robot i onward are exactly the slides of robots i.. computed against the other robots' positions |
| `SearchProblem.ActionsAreSlides` | GraphSearchAI.py:30-41 | an action is offered iff its robot index is valid and its move is that robot's slide in its direction against all other robots |
| `SearchProblem.Results` | GraphSearchAI.py:45-57 | the new state has the same length, the acting robot stands at the move's final cell, and every other robot is unchanged |
| `SearchProblem.NoOpActionKeepsState` | GraphSearchAI.py:55-57 | a move whose final cell is the robot's current cell leaves the state equal to the input |
| `SearchProblem.RepeatActionIsNoOp` | GraphSearchAI.py:30-57 | repeating a robot's slide in the same direction from the resulting state is offered and changes nothing |
| `SearchProblem.OnGoalCount` | GraphSearchAI.py:59-63 | the `count(True)` over the first n robots is at most n; `OnGoalCountFull` states it equals n iff each of them is on its own goal |
| `SearchProblem.GoalTest` | GraphSearchAI.py:59-63 | the goal test compares the count of robots on their own goal with the number of goals; its partners `GoalTestOneGoalPerRobot`, `GoalTestMeaning` and `GoalTestNoGoals` state when it passes |
| `SearchProblem.OnGoalCountFull` | GraphSearchAI.py:59-63 | the count of robots on their goals reaches the number of robots iff every robot is on one of its goals |
| `SearchProblem.GoalTestOneGoalPerRobot` | GraphSearchAI.py:59-63 | with as many goals as robots, the goal test holds iff every robot is on a goal of its own |
| `SearchProblem.GoalTestNoGoals` | GraphSearchAI.py:59-63 | with no goals, every state passes the goal test |
| `SearchProblem.GoalTestMeaning` | GraphSearchAI.py:59-63 | with one goal per robot number, each number a valid index, the goal test holds iff every goal is occupied by its own robot |
| `SearchProblem.NearestGoal` | GraphSearchAI.py:80-83 | the minimum over all goals of the Manhattan distance, attained by some goal |
| `SearchProblem.Heuristic` | GraphSearchAI.py:68-84 | defined when the goal list is non-empty or the state holds no robots; the heuristic is 0 iff every robot stands on some goal cell, any robot's (so 0 for no robots) |
| `SearchProblem.GoalStateHasZeroHeuristic` | GraphSearchAI.py:68-84 | a state that passes the goal test with one goal per robot has heuristic 0 |
| `SearchProblem.ReplayAppend` | GraphSearchAI.py:157-163 | extending a path by an action offered in the reached state reaches that action's result |
| `SearchDrivers.Expand` | GraphSearchAI.py:157-163 | each pushed child extends the parent's path by one offered action and holds its result; its state was unvisited and is now visited; children are pairwise distinct; every successor of the parent ends up visited |
| `SearchDrivers.Pop` | GraphSearchAI.py:141 | removing entry `i` (index 0 for `popleft`, the last index for `pop` at line 184, the `ArgMin` index for `heappop` at line 103) leaves the other entries in order, one shorter |
| `SearchDrivers.SearchInvAfterExpand` | GraphSearchAI.py:140-163 | after expanding a non-goal entry, every frontier entry is still visited and replays to its state, every visited state is still queued or expanded, and expanded states are non-goals with all successors visited |
| `SearchDrivers.StatesDistinctAfterExpand` | GraphSearchAI.py:157-163 | no state is ever held by two frontier entries |
| `SearchDrivers.UnvisitedShrinks` | GraphSearchAI.py:159-163 | pushing a state not yet visited shrinks the unvisited part of the finite state universe, so every search loop terminates |
| `SearchDrivers.ExhaustedMeansUnsolvable` | GraphSearchAI.py:140-167 | once the frontier is empty, no path of offered moves from the start reaches a goal state |
| `SearchDrivers.BfsInvAfterExpand` | GraphSearchAI.py:140-163 | the queue's path lengths stay sorted and within one of each other; every state reachable faster than the head is expanded; every queued path is a shortest path to its state |
| `SearchDrivers.BfsHeadIsShortest` | GraphSearchAI.py:150-154 | the first goal state dequeued carries a solving path no longer than any other solving path |
| `SearchDrivers.SolveBfs` | GraphSearchAI.py:123-167 | a returned path solves the puzzle and is of minimum length; None means unsolvable; an initial goal state yields the empty path |
| `SearchDrivers.SolveDfs` | GraphSearchAI.py:169-202 | a returned path solves the puzzle; None means unsolvable; an initial goal state yields the empty path |
| `SearchDrivers.StateLessTransitive` | GraphSearchAI.py:103 | Python's list comparison of robot-position lists is transitive |
| `SearchDrivers.StateLessTotal` | GraphSearchAI.py:103 | two different position lists are always ordered one way or the other |
| `SearchDrivers.ArgMin` | GraphSearchAI.py:103 | `heappop` takes an entry that no other entry precedes in `(priority, state)` order, and which precedes every entry with a different state |
| `SearchDrivers.Rank` | GraphSearchAI.py:114-116 | each pushed child carries priority `len(path) + h(state)`, where its path already includes the new move, and the entries keep their order |
| `SearchDrivers.SolveAStar` | GraphSearchAI.py:86-121 | a returned path solves the puzzle; None means unsolvable; an initial goal state yields the empty path |
| `SearchDrivers.Solve` | GraphSearchAI.py:204-222 | "bfs", "dfs" and "a_star" run the matching driver with its guarantees; any other name yields None |

## Left out

- The Tk user interface (ui.py, main.py), the playback plumbing in AIInterface.py, the empty BFSai.py stub and the abstract AI.py base class have no search logic.
- `Wall.draw`, `Goal.draw`, MapDataClass.py and the robot and goal colours are presentation only.
- `build_solution_and_play` is left out: it is I/O.
- The solvers' `print` calls and `time.time()` timing are left out: they are I/O and clock effects.
- The `moves_tried` counters are left out because nothing reads them.
- `path_cost` is the constant 1 and no driver calls it. Path length stands for cost throughout.
- The heap's internal array layout is not modelled. `SearchDrivers.ArgMin` scans the frontier for the entry `heappop` would return. Frontier states are pairwise distinct, so the `(priority, state)` order has a unique least entry. The path part of the tuple is never compared.
- A* optimality and the admissibility of the heuristic are not claimed. The code promises neither, and the heuristic (distance to the nearest goal of any robot) is not admissible for sliding moves.
- `SolveDfs` and `SolveAStar` carry no minimality clause, because depth-first and A* promise none.
- Termination is proved, but the search loops carry no explicit bound on iterations.
- Robots.Move requires `(dx, dy)` to be one of the four direction vectors. With `(0, 0)` the Python loop may not terminate, so there is no final cell to characterise. Every caller passes a direction vector.
- SearchProblem.Heuristic requires a non-empty goal list unless the state holds no robots. With no robots the loop never runs and the result is 0, which the model returns too. With robots and no goals Python's `min` of an empty list raises `ValueError`. A* only calls the heuristic after a failed goal test, and a board without goals passes every goal test, so the call never happens there.
- SearchDrivers.Solve takes the driver name as a required argument. Python's default `"bfs"` is not modelled: the only caller, `build_solution_and_play` (GraphSearchAI.py:232), always passes the name explicitly.
- SearchProblem.Results requires a valid robot index. Python would raise `IndexError` or wrap a negative index. `actions` only produces valid indices.
- Python integers are unbounded, as in the model. No width or wrap-around is involved.

## Findings

| source | as written | input that shows it | evidently intended | confidence | as-written member | corrected member |
|---|---|---|---|---|---|---|
| Wall.py:21-23 | `from_int(i)` indexes the four-element list at `i - 1`, so Python's negative indexing accepts codes -3..0 | `from_int(0)` returns WEST; `from_int(-1)` returns EAST | codes 1..4 decode to NORTH, SOUTH, EAST, WEST and every other code is rejected | not executed; high — the list and the `i - 1` offset leave no other reading | `Walls.FromIntZeroIsWest` | `Walls.DecodeCodeRoundTrip` |

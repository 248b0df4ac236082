/**
 * The three search drivers of GraphSearchAI.py (breadth-first, depth-first
 * and A*) and the `solve` dispatch.
 *
 * All three share one discipline: a frontier seeded with the start state and
 * the empty path, a visited set seeded with the start state, and an expansion
 * step that pushes each successor not yet visited and marks it visited at
 * once. They differ only in which frontier entry is taken next.
 */
module SearchDrivers {
  import opened Wrappers
  import opened Walls
  import opened Boards
  import opened Robots
  import opened SearchProblem

  /** A frontier entry: a state and the path that reached it. */
  datatype Entry = Entry(state: State, path: Path)

  /** An A* frontier entry together with its priority. */
  datatype Ranked = Ranked(priority: int, entry: Entry)

  /** `p` is a path of offered moves from `s0` to a state that passes the goal test. */
  predicate Solves(b: Board, s0: State, p: Path) {
    Replay(b, s0, p).Some? && GoalTest(b, Replay(b, s0, p).value)
  }

  /** The states held by a frontier. */
  ghost function StateSet(f: seq<Entry>): set<State> {
    set i | 0 <= i < |f| :: f[i].state
  }

  /** `c` is the entry pushed for one of the actions offered in `e`'s state. */
  ghost predicate IsChild(b: Board, e: Entry, c: Entry) {
    && |c.path| == |e.path| + 1
    && var a := c.path[|e.path|];
       c.path == e.path + [a] && a in Actions(b, e.state) && c.state == Results(e.state, a)
  }

  /**
   * What one expansion step of `e` does: every successor of `e.state` ends
   * up visited, and the pushed entries are exactly the successors that were
   * not visited before, each pushed once.
   */
  ghost predicate Expansion(b: Board, e: Entry, visited: set<State>, children: seq<Entry>, visited': set<State>) {
    && visited' == visited + StateSet(children)
    && (forall a :: a in Actions(b, e.state) ==> Results(e.state, a) in visited')
    && (forall i :: 0 <= i < |children| ==> IsChild(b, e, children[i]) && children[i].state !in visited)
    && (forall i, j :: 0 <= i < j < |children| ==> children[i].state != children[j].state)
  }

  /** The state of the inner loop after the first `k` actions of `acts`. */
  ghost predicate ExpandInv(b: Board, e: Entry, visited: set<State>, acts: seq<RobotMove>, k: int,
                            children: seq<Entry>, visited': set<State>)
  {
    && acts == Actions(b, e.state)
    && 0 <= k <= |acts|
    && visited' == visited + StateSet(children)
    && (forall j :: 0 <= j < k ==> Results(e.state, acts[j]) in visited')
    && (forall i :: 0 <= i < |children| ==> IsChild(b, e, children[i]) && children[i].state !in visited)
    && (forall i, j :: 0 <= i < j < |children| ==> children[i].state != children[j].state)
  }

  /** Pushing an entry adds exactly its state to the frontier's states. */
  lemma StateSetPush(children: seq<Entry>, c: Entry)
    ensures StateSet(children + [c]) == StateSet(children) + {c.state}
  {
    var children' := children + [c];
    assert forall i :: 0 <= i < |children| ==> children'[i] == children[i];
    assert children'[|children|] == c;
  }

  /** One iteration of the inner loop whose successor is already visited: it is skipped. */
  lemma ExpandSkip(b: Board, e: Entry, visited: set<State>, acts: seq<RobotMove>, k: int,
                   children: seq<Entry>, visited': set<State>)
    requires ExpandInv(b, e, visited, acts, k, children, visited')
    requires k < |acts|
    requires Results(e.state, acts[k]) in visited'
    ensures ExpandInv(b, e, visited, acts, k + 1, children, visited')
  {
  }

  /** One iteration of the inner loop whose successor is new: it is pushed and marked visited. */
  lemma ExpandPush(b: Board, e: Entry, visited: set<State>, acts: seq<RobotMove>, k: int,
                   children: seq<Entry>, visited': set<State>)
    requires ExpandInv(b, e, visited, acts, k, children, visited')
    requires k < |acts|
    requires Results(e.state, acts[k]) !in visited'
    ensures var next := Results(e.state, acts[k]);
      ExpandInv(b, e, visited, acts, k + 1, children + [Entry(next, e.path + [acts[k]])], visited' + {next})
  {
    var next := Results(e.state, acts[k]);
    var c := Entry(next, e.path + [acts[k]]);
    var children' := children + [c];
    StateSetPush(children, c);
    assert IsChild(b, e, c) by {
      assert c.path[|e.path|] == acts[k];
    }
    forall i | 0 <= i < |children'|
      ensures IsChild(b, e, children'[i]) && children'[i].state !in visited
    {
      if i < |children| {
        assert children'[i] == children[i];
      }
    }
    forall i, j | 0 <= i < j < |children'|
      ensures children'[i].state != children'[j].state
    {
      assert children'[i] == children[i];
      if j == |children| {
        assert children[i].state in StateSet(children);
      } else {
        assert children'[j] == children[j];
      }
    }
  }

  lemma ExpandDone(b: Board, e: Entry, visited: set<State>, acts: seq<RobotMove>,
                   children: seq<Entry>, visited': set<State>)
    requires ExpandInv(b, e, visited, acts, |acts|, children, visited')
    ensures Expansion(b, e, visited, children, visited')
  {
    forall a | a in Actions(b, e.state)
      ensures Results(e.state, a) in visited'
    {
      var j :| 0 <= j < |acts| && acts[j] == a;
    }
  }

  /**
   * The inner loop shared by the three drivers: for each action in `e`'s
   * state, compute the successor; if it is not visited, mark it visited and
   * push it with the extended path.
   */
  method Expand(b: Board, e: Entry, visited: set<State>) returns (children: seq<Entry>, visited': set<State>)
    ensures Expansion(b, e, visited, children, visited')
  {
    var acts := Actions(b, e.state);
    children := [];
    visited' := visited;
    var k := 0;
    assert StateSet(children) == {};
    while k < |acts|
      invariant ExpandInv(b, e, visited, acts, k, children, visited')
      decreases |acts| - k
    {
      var next := Results(e.state, acts[k]);
      if next in visited' {
        ExpandSkip(b, e, visited, acts, k, children, visited');
      } else {
        ExpandPush(b, e, visited, acts, k, children, visited');
        children := children + [Entry(next, e.path + [acts[k]])];
        visited' := visited' + {next};
      }
      k := k + 1;
    }
    ExpandDone(b, e, visited, acts, children, visited');
  }

  // ---------------------------------------------------------------------
  // Termination: every state the search can meet lies in a finite universe,
  // in which each robot is either on the board or still at its start cell.
  // ---------------------------------------------------------------------

  /** The cells of the board. */
  function BoardCells(size: Size): set<Cell> {
    set x: int, y: int | 0 <= x < size.width && 0 <= y < size.height :: Cell(x, y)
  }

  lemma BoardCellsContains(size: Size, c: Cell)
    requires InBounds(size, c)
    ensures c in BoardCells(size)
  {
    assert c == Cell(c.x, c.y);
  }

  /** Every robot is on the board or at its start cell. */
  ghost predicate InUniverse(b: Board, s0: State, v: State) {
    |v| == |s0| && forall i :: 0 <= i < |v| ==> InBounds(b.size, v[i]) || v[i] == s0[i]
  }

  /** All states whose i-th cell is drawn from `doms[i]`. */
  ghost function StatesOver(doms: seq<set<Cell>>): set<State>
    decreases |doms|
  {
    if |doms| == 0 then {[]}
    else set c, t | c in doms[0] && t in StatesOver(doms[1..]) :: [c] + t
  }

  lemma {:induction false} StatesOverContains(doms: seq<set<Cell>>, v: State)
    requires |v| == |doms|
    requires forall i :: 0 <= i < |v| ==> v[i] in doms[i]
    ensures v in StatesOver(doms)
    decreases |doms|
  {
    if |doms| > 0 {
      StatesOverContains(doms[1..], v[1..]);
      assert v == [v[0]] + v[1..];
    }
  }

  ghost function Universe(b: Board, s0: State): set<State> {
    StatesOver(seq(|s0|, i requires 0 <= i < |s0| => BoardCells(b.size) + {s0[i]}))
  }

  lemma UniverseContains(b: Board, s0: State, v: State)
    requires InUniverse(b, s0, v)
    ensures v in Universe(b, s0)
  {
    var doms := seq(|s0|, i requires 0 <= i < |s0| => BoardCells(b.size) + {s0[i]});
    forall i | 0 <= i < |v|
      ensures v[i] in doms[i]
    {
      assert doms[i] == BoardCells(b.size) + {s0[i]};
      if InBounds(b.size, v[i]) {
        BoardCellsContains(b.size, v[i]);
      }
    }
    StatesOverContains(doms, v);
  }

  /** An action moves one robot either nowhere or onto the board, so it stays in the universe. */
  lemma ActionStaysInUniverse(b: Board, s0: State, v: State, a: RobotMove)
    requires InUniverse(b, s0, v)
    requires a in Actions(b, v)
    ensures InUniverse(b, s0, Results(v, a))
  {
    var id, d := a.robotId, a.move.direction;
    ActionsAreSlides(b, v, a);
    MoveStaysInBounds(v[id], Vector(d).0, Vector(d).1, b.size, Others(v, id), b);
  }

  /** Marking a new universe state visited shrinks the unvisited part of the universe. */
  lemma UnvisitedShrinks(universe: set<State>, visited: set<State>, visited': set<State>, x: State)
    requires visited + {x} <= visited'
    requires x in universe && x !in visited
    ensures |universe - visited'| < |universe - visited|
  {
    var rest := (universe - visited) - {x};
    assert universe - visited' <= rest;
    assert rest == (universe - visited') + (rest - (universe - visited'));
    assert |rest| == |universe - visited| - 1;
  }

  // ---------------------------------------------------------------------
  // The shared loop invariant.
  // ---------------------------------------------------------------------

  /** The frontier without its entry at index `i`, the others kept in order. */
  function Pop<T>(f: seq<T>, i: int): (r: seq<T>)
    requires 0 <= i < |f|
    ensures |r| == |f| - 1
    ensures forall k :: 0 <= k < i ==> r[k] == f[k]
    ensures forall k :: i <= k < |r| ==> r[k] == f[k + 1]
  {
    f[..i] + f[i + 1..]
  }

  /** Indexing into a concatenation of two frontiers. */
  lemma ConcatAt(p: seq<Entry>, c: seq<Entry>, i: int)
    requires 0 <= i < |p| + |c|
    ensures (p + c)[i] == if i < |p| then p[i] else c[i - |p|]
  {
  }

  /** Every frontier entry is visited, and its path replays from the start to its state. */
  ghost predicate FrontierSound(b: Board, s0: State, f: seq<Entry>, visited: set<State>) {
    forall i :: 0 <= i < |f| ==> f[i].state in visited && Replay(b, s0, f[i].path) == Some(f[i].state)
  }

  /** Every visited state is expanded or waits on the frontier. */
  ghost predicate Covered(f: seq<Entry>, visited: set<State>, expanded: set<State>) {
    forall v :: v in visited ==> v in expanded || v in StateSet(f)
  }

  /** Expanded states failed the goal test, and all their successors are visited. */
  ghost predicate Closed(b: Board, visited: set<State>, expanded: set<State>) {
    forall c :: c in expanded ==> !GoalTest(b, c) && forall a :: a in Actions(b, c) ==> Results(c, a) in visited
  }

  /** An action offered in an expanded state leads to a visited state. */
  lemma ClosedStep(b: Board, visited: set<State>, expanded: set<State>, u: State, a: RobotMove)
    requires Closed(b, visited, expanded)
    requires u in expanded && a in Actions(b, u)
    ensures Results(u, a) in visited
  {
  }

  /**
   * The bookkeeping all three drivers keep: the start is visited; every
   * frontier entry is visited and its path replays to its state; every
   * visited state is either on the frontier or already expanded; expanded
   * states failed the goal test and all their successors are visited.
   */
  ghost predicate SearchInv(b: Board, s0: State, f: seq<Entry>, visited: set<State>, expanded: set<State>) {
    && s0 in visited
    && expanded <= visited
    && (forall v :: v in visited ==> InUniverse(b, s0, v))
    && FrontierSound(b, s0, f, visited)
    && Covered(f, visited, expanded)
    && Closed(b, visited, expanded)
  }

  lemma SearchInvInit(b: Board, s0: State)
    ensures SearchInv(b, s0, [Entry(s0, [])], {s0}, {})
  {
    var f := [Entry(s0, [])];
    assert f[0].state == s0;
    assert s0 in StateSet(f);
    assert StateSet(f) == {s0};
  }

  /** The pushed children are visited, replay to their states, and lie in the universe. */
  lemma ChildrenSound(b: Board, s0: State, e: Entry, visited: set<State>, children: seq<Entry>, visited': set<State>)
    requires Replay(b, s0, e.path) == Some(e.state)
    requires InUniverse(b, s0, e.state)
    requires Expansion(b, e, visited, children, visited')
    ensures FrontierSound(b, s0, children, visited')
    ensures forall k :: 0 <= k < |children| ==> InUniverse(b, s0, children[k].state)
  {
    forall k | 0 <= k < |children|
      ensures children[k].state in visited'
      ensures Replay(b, s0, children[k].path) == Some(children[k].state)
      ensures InUniverse(b, s0, children[k].state)
    {
      assert children[k].state in StateSet(children);
      var a := children[k].path[|e.path|];
      ReplayAppend(b, s0, e.path, e.state, a);
      ActionStaysInUniverse(b, s0, e.state, a);
    }
  }

  lemma FrontierSoundAfterExpand(b: Board, s0: State, f: seq<Entry>, visited: set<State>,
                                 i: int, children: seq<Entry>, visited': set<State>)
    requires FrontierSound(b, s0, f, visited)
    requires FrontierSound(b, s0, children, visited')
    requires visited <= visited'
    requires 0 <= i < |f|
    ensures FrontierSound(b, s0, Pop(f, i) + children, visited')
  {
    var p := Pop(f, i);
    var f' := p + children;
    forall k | 0 <= k < |f'|
      ensures f'[k].state in visited' && Replay(b, s0, f'[k].path) == Some(f'[k].state)
    {
      if k < |p| {
        assert f'[k] == p[k];
      } else {
        assert f'[k] == children[k - |p|];
      }
    }
  }

  lemma CoveredAfterExpand(f: seq<Entry>, visited: set<State>, expanded: set<State>,
                           i: int, children: seq<Entry>, visited': set<State>)
    requires Covered(f, visited, expanded)
    requires 0 <= i < |f|
    requires visited' == visited + StateSet(children)
    ensures Covered(Pop(f, i) + children, visited', expanded + {f[i].state})
  {
    var p := Pop(f, i);
    var f' := p + children;
    forall v | v in visited'
      ensures v in expanded + {f[i].state} || v in StateSet(f')
    {
      if v in visited {
        if v !in expanded && v != f[i].state {
          var j :| 0 <= j < |f| && f[j].state == v;
          if j < i {
            assert f'[j] == f[j];
          } else {
            assert f'[j - 1] == f[j];
          }
        }
      } else {
        var k :| 0 <= k < |children| && children[k].state == v;
        assert f'[|p| + k] == children[k];
      }
    }
  }

  /** Taking entry `i` off the frontier, expanding it and pushing its children keeps the invariant. */
  lemma SearchInvAfterExpand(b: Board, s0: State, f: seq<Entry>, visited: set<State>, expanded: set<State>,
                             i: int, children: seq<Entry>, visited': set<State>)
    requires SearchInv(b, s0, f, visited, expanded)
    requires 0 <= i < |f|
    requires !GoalTest(b, f[i].state)
    requires Expansion(b, f[i], visited, children, visited')
    ensures SearchInv(b, s0, Pop(f, i) + children, visited', expanded + {f[i].state})
  {
    ChildrenSound(b, s0, f[i], visited, children, visited');
    FrontierSoundAfterExpand(b, s0, f, visited, i, children, visited');
    CoveredAfterExpand(f, visited, expanded, i, children, visited');
    forall v | v in visited'
      ensures InUniverse(b, s0, v)
    {
      if v !in visited {
        var k :| 0 <= k < |children| && children[k].state == v;
      }
    }
  }

  /** When nothing is left on the frontier, every reachable state has been expanded. */
  lemma {:induction false} ExhaustedCoversReachable(b: Board, s0: State, visited: set<State>, expanded: set<State>, q: Path)
    requires SearchInv(b, s0, [], visited, expanded)
    requires Replay(b, s0, q).Some?
    ensures Replay(b, s0, q).value in expanded
    decreases |q|
  {
    if |q| > 0 {
      ReplayLast(b, s0, q, Replay(b, s0, q).value);
      ExhaustedCoversReachable(b, s0, visited, expanded, q[..|q| - 1]);
    } else {
      assert StateSet([]) == {};
    }
  }

  /** An exhausted search has seen no goal: no path from the start solves the puzzle. */
  lemma ExhaustedMeansUnsolvable(b: Board, s0: State, visited: set<State>, expanded: set<State>)
    requires SearchInv(b, s0, [], visited, expanded)
    ensures forall q :: !Solves(b, s0, q)
  {
    forall q | Replay(b, s0, q).Some?
      ensures !GoalTest(b, Replay(b, s0, q).value)
    {
      ExhaustedCoversReachable(b, s0, visited, expanded, q);
    }
  }

  /** No state is held by two frontier entries. */
  ghost predicate StatesDistinct(f: seq<Entry>) {
    forall i, j :: 0 <= i < j < |f| ==> f[i].state != f[j].state
  }

  lemma StatesDistinctAfterExpand(b: Board, s0: State, f: seq<Entry>, visited: set<State>, i: int,
                                  children: seq<Entry>, visited': set<State>)
    requires StatesDistinct(f)
    requires FrontierSound(b, s0, f, visited)
    requires 0 <= i < |f|
    requires Expansion(b, f[i], visited, children, visited')
    ensures StatesDistinct(Pop(f, i) + children)
  {
    var p := Pop(f, i);
    var f' := p + children;
    forall j, k | 0 <= j < k < |f'|
      ensures f'[j].state != f'[k].state
    {
      ConcatAt(p, children, j);
      ConcatAt(p, children, k);
      if k < |p| {
        var j0 := if j < i then j else j + 1;
        var k0 := if k < i then k else k + 1;
        assert f'[j] == f[j0] && f'[k] == f[k0];
      } else if j < |p| {
        var j0 := if j < i then j else j + 1;
        assert f'[j] == f[j0];
        assert f'[j].state in visited;
        assert f'[k].state !in visited;
      }
    }
  }

  /**
   * One round of any driver: taking a non-goal entry off the frontier and
   * pushing its new successors keeps the bookkeeping, keeps frontier states
   * distinct, and either visits a new state of the universe or shrinks the
   * frontier.
   */
  lemma SearchStep(b: Board, s0: State, f: seq<Entry>, visited: set<State>, expanded: set<State>,
                   i: int, children: seq<Entry>, visited': set<State>)
    requires SearchInv(b, s0, f, visited, expanded) && StatesDistinct(f)
    requires 0 <= i < |f|
    requires !GoalTest(b, f[i].state)
    requires Expansion(b, f[i], visited, children, visited')
    ensures SearchInv(b, s0, Pop(f, i) + children, visited', expanded + {f[i].state})
    ensures StatesDistinct(Pop(f, i) + children)
    ensures |Universe(b, s0) - visited'| < |Universe(b, s0) - visited|
         || (visited' == visited && |Pop(f, i) + children| < |f|)
  {
    SearchInvAfterExpand(b, s0, f, visited, expanded, i, children, visited');
    StatesDistinctAfterExpand(b, s0, f, visited, i, children, visited');
    if |children| > 0 {
      assert children[0].state in StateSet(children);
      UniverseContains(b, s0, children[0].state);
      UnvisitedShrinks(Universe(b, s0), visited, visited', children[0].state);
    } else {
      assert StateSet(children) == {};
    }
  }

  // ---------------------------------------------------------------------
  // Breadth-first search.
  // ---------------------------------------------------------------------

  /** Path lengths along the queue never decrease and grow by at most one. */
  ghost predicate QueueOrdered(f: seq<Entry>) {
    forall i, j :: 0 <= i < j < |f| ==> |f[i].path| <= |f[j].path| <= |f[i].path| + 1
  }

  /** Every state that some path of fewer than `level` moves reaches has been expanded. */
  ghost predicate ExpandedBelow(b: Board, s0: State, level: int, expanded: set<State>) {
    forall q :: Replay(b, s0, q).Some? && |q| < level ==> Replay(b, s0, q).value in expanded
  }

  /** Every state that some path shorter than the head's path reaches has been expanded. */
  ghost predicate ShorterExpanded(b: Board, s0: State, f: seq<Entry>, expanded: set<State>) {
    |f| > 0 ==> ExpandedBelow(b, s0, |f[0].path|, expanded)
  }

  /** No path reaches the entry's state faster than the entry's own path. */
  ghost predicate Shortest(b: Board, s0: State, e: Entry) {
    forall q :: Replay(b, s0, q) == Some(e.state) ==> |e.path| <= |q|
  }

  /** Every queued entry carries a shortest path to its state. */
  ghost predicate QueueShortest(b: Board, s0: State, f: seq<Entry>) {
    forall i :: 0 <= i < |f| ==> Shortest(b, s0, f[i])
  }

  /** The queue discipline of breadth-first search. */
  ghost predicate BfsInv(b: Board, s0: State, f: seq<Entry>, expanded: set<State>) {
    QueueOrdered(f) && ShorterExpanded(b, s0, f, expanded) && QueueShortest(b, s0, f)
  }

  /**
   * When every state reached in fewer than `level` moves is expanded, a state
   * reached in exactly `level` moves is visited: its predecessor was expanded.
   */
  lemma BfsLevelVisited(b: Board, s0: State, level: int, visited: set<State>, expanded: set<State>, q: Path)
    requires s0 in visited
    requires Closed(b, visited, expanded)
    requires ExpandedBelow(b, s0, level, expanded)
    requires Replay(b, s0, q).Some? && |q| == level
    ensures Replay(b, s0, q).value in visited
  {
    if |q| > 0 {
      var t := Replay(b, s0, q).value;
      var p := q[..|q| - 1];
      ReplayLast(b, s0, q, t);
      var u := Replay(b, s0, p).value;
      assert u in expanded;
      ClosedStep(b, visited, expanded, u, q[|q| - 1]);
    }
  }

  lemma BfsInvInit(b: Board, s0: State)
    ensures BfsInv(b, s0, [Entry(s0, [])], {})
  {
  }

  /** The children of the head sit one level below it, and no path reaches them faster. */
  lemma BfsChildrenShortest(b: Board, s0: State, f: seq<Entry>, visited: set<State>, expanded: set<State>,
                            children: seq<Entry>, visited': set<State>)
    requires SearchInv(b, s0, f, visited, expanded)
    requires ShorterExpanded(b, s0, f, expanded)
    requires |f| > 0
    requires Expansion(b, f[0], visited, children, visited')
    ensures forall k :: 0 <= k < |children| ==> |children[k].path| == |f[0].path| + 1
    ensures QueueShortest(b, s0, children)
  {
    var L := |f[0].path|;
    forall k | 0 <= k < |children|
      ensures |children[k].path| == L + 1
      ensures Shortest(b, s0, children[k])
    {
      assert children[k].state !in visited;
      forall q | Replay(b, s0, q) == Some(children[k].state)
        ensures L + 1 <= |q|
      {
        if |q| < L {
          assert false;
        } else if |q| == L {
          BfsLevelVisited(b, s0, |f[0].path|, visited, expanded, q);
          assert false;
        }
      }
    }
  }

  lemma QueueOrderedAfterExpand(f: seq<Entry>, children: seq<Entry>)
    requires QueueOrdered(f)
    requires |f| > 0
    requires forall k :: 0 <= k < |children| ==> |children[k].path| == |f[0].path| + 1
    ensures QueueOrdered(Pop(f, 0) + children)
  {
    var p := Pop(f, 0);
    var f' := p + children;
    forall i, j | 0 <= i < j < |f'|
      ensures |f'[i].path| <= |f'[j].path| <= |f'[i].path| + 1
    {
      if j < |p| {
        assert f'[i] == f[i + 1] && f'[j] == f[j + 1];
      } else if i < |p| {
        assert f'[i] == f[i + 1] && f'[j] == children[j - |p|];
      } else {
        assert f'[i] == children[i - |p|] && f'[j] == children[j - |p|];
      }
    }
  }

  lemma QueueShortestAfterExpand(b: Board, s0: State, f: seq<Entry>, children: seq<Entry>)
    requires QueueShortest(b, s0, f)
    requires QueueShortest(b, s0, children)
    requires |f| > 0
    ensures QueueShortest(b, s0, Pop(f, 0) + children)
  {
    var p := Pop(f, 0);
    var f' := p + children;
    forall i | 0 <= i < |f'|
      ensures Shortest(b, s0, f'[i])
    {
      ConcatAt(p, children, i);
    }
  }

  lemma ShorterExpandedAfterExpand(b: Board, s0: State, f: seq<Entry>, visited: set<State>, expanded: set<State>,
                                   children: seq<Entry>, visited': set<State>)
    requires SearchInv(b, s0, f, visited, expanded)
    requires BfsInv(b, s0, f, expanded)
    requires |f| > 0
    requires forall k :: 0 <= k < |children| ==> |children[k].path| == |f[0].path| + 1
    requires QueueOrdered(Pop(f, 0) + children)
    requires QueueShortest(b, s0, Pop(f, 0) + children)
    ensures ShorterExpanded(b, s0, Pop(f, 0) + children, expanded + {f[0].state})
  {
    var L := |f[0].path|;
    var p := Pop(f, 0);
    var f' := p + children;
    var expanded' := expanded + {f[0].state};
    if |f'| > 0 {
      var L' := |f'[0].path|;
      assert L <= L' <= L + 1 by {
        if |p| > 0 {
          assert f'[0] == f[1];
        } else {
          assert f'[0] == children[0];
        }
      }
      forall q | Replay(b, s0, q).Some? && |q| < L'
        ensures Replay(b, s0, q).value in expanded'
      {
        var t := Replay(b, s0, q).value;
        if |q| == L {
          BfsLevelVisited(b, s0, |f[0].path|, visited, expanded, q);
          if t !in expanded' {
            assert false;
          }
        }
      }
    }
  }

  /** A goal state at the head of the queue is reached by a shortest solving path. */
  lemma BfsHeadIsShortest(b: Board, s0: State, f: seq<Entry>, visited: set<State>, expanded: set<State>)
    requires SearchInv(b, s0, f, visited, expanded)
    requires ShorterExpanded(b, s0, f, expanded)
    requires |f| > 0
    requires GoalTest(b, f[0].state)
    ensures Solves(b, s0, f[0].path)
    ensures forall q :: Solves(b, s0, q) ==> |f[0].path| <= |q|
  {
    forall q | Solves(b, s0, q)
      ensures |f[0].path| <= |q|
    {
      if |q| < |f[0].path| {
        assert false;
      }
    }
  }

  lemma BfsInvAfterExpand(b: Board, s0: State, f: seq<Entry>, visited: set<State>, expanded: set<State>,
                          children: seq<Entry>, visited': set<State>)
    requires SearchInv(b, s0, f, visited, expanded)
    requires BfsInv(b, s0, f, expanded)
    requires |f| > 0
    requires Expansion(b, f[0], visited, children, visited')
    ensures BfsInv(b, s0, Pop(f, 0) + children, expanded + {f[0].state})
  {
    BfsChildrenShortest(b, s0, f, visited, expanded, children, visited');
    QueueOrderedAfterExpand(f, children);
    QueueShortestAfterExpand(b, s0, f, children);
    ShorterExpandedAfterExpand(b, s0, f, visited, expanded, children, visited');
  }

  /**
   * `solve_bfs`: breadth-first search with a FIFO queue. A returned path
   * solves the puzzle and no solving path is shorter; None means no path of
   * offered moves from the start reaches a goal state.
   */
  method SolveBfs(b: Board, s0: State) returns (r: Option<Path>)
    ensures r.Some? ==> Solves(b, s0, r.value)
    ensures r.Some? ==> forall q :: Solves(b, s0, q) ==> |r.value| <= |q|
    ensures r.None? ==> forall q :: !Solves(b, s0, q)
    ensures GoalTest(b, s0) ==> r == Some([])
  {
    var queue := [Entry(s0, [])];
    var visited := {s0};
    ghost var expanded: set<State> := {};
    ghost var universe := Universe(b, s0);
    SearchInvInit(b, s0);
    BfsInvInit(b, s0);
    while |queue| > 0
      invariant SearchInv(b, s0, queue, visited, expanded)
      invariant StatesDistinct(queue)
      invariant BfsInv(b, s0, queue, expanded)
      invariant GoalTest(b, s0) ==> queue == [Entry(s0, [])]
      decreases |universe - visited|, |queue|
    {
      var e := queue[0];
      if GoalTest(b, e.state) {
        BfsHeadIsShortest(b, s0, queue, visited, expanded);
        return Some(e.path);
      }
      var children, visited' := Expand(b, e, visited);
      SearchStep(b, s0, queue, visited, expanded, 0, children, visited');
      BfsInvAfterExpand(b, s0, queue, visited, expanded, children, visited');
      queue := Pop(queue, 0) + children;
      visited := visited';
      expanded := expanded + {e.state};
    }
    ExhaustedMeansUnsolvable(b, s0, visited, expanded);
    return None;
  }

  // ---------------------------------------------------------------------
  // Depth-first search.
  // ---------------------------------------------------------------------

  /**
   * `solve_dfs`: the same expansion with a LIFO stack. A returned path solves
   * the puzzle; None means no path of offered moves reaches a goal state.
   */
  method SolveDfs(b: Board, s0: State) returns (r: Option<Path>)
    ensures r.Some? ==> Solves(b, s0, r.value)
    ensures r.None? ==> forall q :: !Solves(b, s0, q)
    ensures GoalTest(b, s0) ==> r == Some([])
  {
    var stack := [Entry(s0, [])];
    var visited := {s0};
    ghost var expanded: set<State> := {};
    ghost var universe := Universe(b, s0);
    SearchInvInit(b, s0);
    while |stack| > 0
      invariant SearchInv(b, s0, stack, visited, expanded)
      invariant StatesDistinct(stack)
      invariant GoalTest(b, s0) ==> stack == [Entry(s0, [])]
      decreases |universe - visited|, |stack|
    {
      var top := |stack| - 1;
      var e := stack[top];
      if GoalTest(b, e.state) {
        return Some(e.path);
      }
      var children, visited' := Expand(b, e, visited);
      SearchStep(b, s0, stack, visited, expanded, top, children, visited');
      stack := Pop(stack, top) + children;
      visited := visited';
      expanded := expanded + {e.state};
    }
    ExhaustedMeansUnsolvable(b, s0, visited, expanded);
    return None;
  }

  // ---------------------------------------------------------------------
  // A* search.
  // ---------------------------------------------------------------------

  /** Python's ordering of two positions as (x, y) tuples. */
  predicate CellLess(a: Cell, c: Cell) {
    a.x < c.x || (a.x == c.x && a.y < c.y)
  }

  /** Python's lexicographic ordering of two robot-position lists. */
  predicate StateLess(s: State, t: State)
    decreases |s|
  {
    if |s| == 0 then |t| > 0
    else if |t| == 0 then false
    else CellLess(s[0], t[0]) || (s[0] == t[0] && StateLess(s[1..], t[1..]))
  }

  lemma {:induction false} StateLessIrreflexive(s: State)
    ensures !StateLess(s, s)
    decreases |s|
  {
    if |s| > 0 {
      StateLessIrreflexive(s[1..]);
    }
  }

  lemma {:induction false} StateLessTransitive(s: State, t: State, u: State)
    requires StateLess(s, t) && StateLess(t, u)
    ensures StateLess(s, u)
    decreases |s|
  {
    if |s| > 0 && |t| > 0 && |u| > 0 && s[0] == t[0] == u[0] {
      StateLessTransitive(s[1..], t[1..], u[1..]);
    }
  }

  /** Any two different position lists are ordered one way or the other. */
  lemma {:induction false} StateLessTotal(s: State, t: State)
    requires s != t
    ensures StateLess(s, t) || StateLess(t, s)
    decreases |s|
  {
    if |s| > 0 && |t| > 0 && s[0] == t[0] {
      assert s == [s[0]] + s[1..] && t == [t[0]] + t[1..];
      StateLessTotal(s[1..], t[1..]);
    }
  }

  /**
   * The heap's ordering of `(priority, (state, path))` tuples: by priority,
   * then by state. Frontier states are pairwise distinct, so comparing the
   * paths is never needed.
   */
  predicate RankedLess(a: Ranked, c: Ranked) {
    a.priority < c.priority || (a.priority == c.priority && StateLess(a.entry.state, c.entry.state))
  }

  lemma RankedLessTransitive(a: Ranked, c: Ranked, d: Ranked)
    requires RankedLess(a, c) && RankedLess(c, d)
    ensures RankedLess(a, d)
  {
    if a.priority == c.priority == d.priority {
      StateLessTransitive(a.entry.state, c.entry.state, d.entry.state);
    }
  }

  /**
   * `heappop`'s choice: the position of an entry no other entry precedes,
   * and which precedes every entry holding a different state.
   */
  method ArgMin(f: seq<Ranked>) returns (i: int)
    requires |f| > 0
    ensures 0 <= i < |f|
    ensures forall j :: 0 <= j < |f| ==> !RankedLess(f[j], f[i])
    ensures forall j :: 0 <= j < |f| && f[j].entry.state != f[i].entry.state ==> RankedLess(f[i], f[j])
  {
    i := 0;
    StateLessIrreflexive(f[0].entry.state);
    var k := 1;
    while k < |f|
      invariant 0 <= i < k <= |f|
      invariant forall j :: 0 <= j < k ==> !RankedLess(f[j], f[i])
    {
      if RankedLess(f[k], f[i]) {
        forall j | 0 <= j < k
          ensures !RankedLess(f[j], f[k])
        {
          if RankedLess(f[j], f[k]) {
            RankedLessTransitive(f[j], f[k], f[i]);
          }
        }
        StateLessIrreflexive(f[k].entry.state);
        i := k;
      }
      k := k + 1;
    }
    forall j | 0 <= j < |f| && f[j].entry.state != f[i].entry.state
      ensures RankedLess(f[i], f[j])
    {
      StateLessTotal(f[i].entry.state, f[j].entry.state);
    }
  }

  /** The entries of an A* frontier, without their priorities. */
  function EntriesOf(f: seq<Ranked>): (r: seq<Entry>)
    ensures |r| == |f|
    ensures forall k :: 0 <= k < |f| ==> r[k] == f[k].entry
  {
    seq(|f|, k requires 0 <= k < |f| => f[k].entry)
  }

  /**
   * The pushed children with their priorities: the cost so far (one per
   * move) plus the heuristic estimate of the child's state.
   */
  function Rank(b: Board, children: seq<Entry>): (r: seq<Ranked>)
    requires |b.goals| > 0
    ensures EntriesOf(r) == children
    ensures forall k :: 0 <= k < |r| ==> r[k].priority == |children[k].path| + Heuristic(b, children[k].state)
  {
    seq(|children|, k requires 0 <= k < |children| => Ranked(|children[k].path| + Heuristic(b, children[k].state), children[k]))
  }

  lemma EntriesAfterPop(f: seq<Ranked>, i: int, pushed: seq<Ranked>)
    requires 0 <= i < |f|
    ensures EntriesOf(Pop(f, i) + pushed) == Pop(EntriesOf(f), i) + EntriesOf(pushed)
  {
    var l := EntriesOf(Pop(f, i) + pushed);
    var r := Pop(EntriesOf(f), i) + EntriesOf(pushed);
    assert |l| == |r|;
    forall k | 0 <= k < |l|
      ensures l[k] == r[k]
    {
      if k < |f| - 1 {
        assert (Pop(f, i) + pushed)[k] == Pop(f, i)[k];
      } else {
        assert (Pop(f, i) + pushed)[k] == pushed[k - (|f| - 1)];
      }
    }
  }

  /**
   * `solve_a_star`: the same expansion with a priority queue ordered by path
   * length plus heuristic. A returned path solves the puzzle; None means no
   * path of offered moves reaches a goal state.
   */
  method SolveAStar(b: Board, s0: State) returns (r: Option<Path>)
    ensures r.Some? ==> Solves(b, s0, r.value)
    ensures r.None? ==> forall q :: !Solves(b, s0, q)
    ensures GoalTest(b, s0) ==> r == Some([])
  {
    var frontier := [Ranked(0, Entry(s0, []))];
    var visited := {s0};
    ghost var entries := [Entry(s0, [])];
    ghost var expanded: set<State> := {};
    ghost var universe := Universe(b, s0);
    SearchInvInit(b, s0);
    assert EntriesOf(frontier) == entries;
    while |frontier| > 0
      invariant entries == EntriesOf(frontier)
      invariant SearchInv(b, s0, entries, visited, expanded)
      invariant StatesDistinct(entries)
      invariant GoalTest(b, s0) ==> entries == [Entry(s0, [])]
      decreases |universe - visited|, |entries|
    {
      var i := ArgMin(frontier);
      var e := frontier[i].entry;
      assert e == entries[i];
      if GoalTest(b, e.state) {
        return Some(e.path);
      }
      if |b.goals| == 0 {
        GoalTestNoGoals(b, e.state);
        assert false;
      }
      var children, visited' := Expand(b, e, visited);
      SearchStep(b, s0, entries, visited, expanded, i, children, visited');
      var pushed := Rank(b, children);
      EntriesAfterPop(frontier, i, pushed);
      frontier := Pop(frontier, i) + pushed;
      entries := Pop(entries, i) + children;
      visited := visited';
      expanded := expanded + {e.state};
    }
    ExhaustedMeansUnsolvable(b, s0, visited, expanded);
    return None;
  }

  // ---------------------------------------------------------------------
  // Dispatch.
  // ---------------------------------------------------------------------

  /**
   * `solve`: runs the search named by `aiType`. Any other name falls off the
   * end of the dispatch and yields None.
   */
  method Solve(b: Board, s0: State, aiType: string) returns (r: Option<Path>)
    ensures r.Some? ==> Solves(b, s0, r.value)
    ensures aiType == "bfs" && r.Some? ==> forall q :: Solves(b, s0, q) ==> |r.value| <= |q|
    ensures aiType in {"bfs", "dfs", "a_star"} ==> (r.None? <==> forall q :: !Solves(b, s0, q))
    ensures aiType in {"bfs", "dfs", "a_star"} && GoalTest(b, s0) ==> r == Some([])
    ensures aiType !in {"bfs", "dfs", "a_star"} ==> r.None?
  {
    if aiType == "bfs" {
      r := SolveBfs(b, s0);
    } else if aiType == "dfs" {
      r := SolveDfs(b, s0);
    } else if aiType == "a_star" {
      r := SolveAStar(b, s0);
    } else {
      r := None;
    }
  }
}

/** A map on which the search leaves its open list null: four free cells in a corner of the grid. */
module FourCells {
  import opened Paths
  import opened NodeList
  import opened SearchState
  import opened Reference
  import Planner

  predicate Free(c: Cell) {
    c == Cell(3, 3) || c == Cell(4, 3) || c == Cell(4, 4) || c == Cell(5, 3)
  }

  function Walls(size: nat): set<Cell> {
    set x: int, y: int | 0 <= x < size && 0 <= y < size && !Free(Cell(x, y)) :: Cell(x, y)
  }

  /** The robot is at (3,3); its goal lies behind the walls. */
  ghost function Pocket(root: real -> real, size: nat): World {
    World(Walls(size), Euclidean(root), Cell(3, 3), Cell(4, 12), size)
  }

  lemma WallsAre(size: nat, c: Cell)
    requires 0 <= c.x < size && 0 <= c.y < size
    ensures c in Walls(size) <==> !Free(c)
  {
    assert c == Cell(c.x, c.y);
  }

  lemma StepIs(size: nat, a: Cell, b: Cell)
    requires size >= 14 && Free(a)
    ensures Move(Walls(size), a, b) <==>
      a != b && -1 <= b.x - a.x <= 1 && -1 <= b.y - a.y <= 1 && Free(b) && (Free(Cell(b.x, a.y)) || Free(Cell(a.x, b.y)) || a.x == b.x || a.y == b.y)
  {
    if -1 <= b.x - a.x <= 1 && -1 <= b.y - a.y <= 1 {
      WallsAre(size, b);
      WallsAre(size, Cell(b.x, a.y));
      WallsAre(size, Cell(a.x, b.y));
    }
  }

  ghost function One(free: bool, c: Cell): seq<Cell> {
    if free then [c] else []
  }

  lemma RowIs(blocked: set<Cell>, at: Cell, i: int)
    ensures Row(blocked, at, i, 3) ==
      var a, b, c := Cell(at.x + i, at.y - 1), Cell(at.x + i, at.y), Cell(at.x + i, at.y + 1);
      One(Move(blocked, at, a), a) + One(Move(blocked, at, b), b) + One(Move(blocked, at, c), c)
  {
    assert Row(blocked, at, i, 0) == [];
    assert Row(blocked, at, i, 1) == One(Move(blocked, at, Cell(at.x + i, at.y - 1)), Cell(at.x + i, at.y - 1));
    assert Row(blocked, at, i, 2) == Row(blocked, at, i, 1) + One(Move(blocked, at, Cell(at.x + i, at.y)), Cell(at.x + i, at.y));
  }

  lemma MovesIs(blocked: set<Cell>, at: Cell)
    ensures Moves(blocked, at) == Row(blocked, at, -1, 3) + Row(blocked, at, 0, 3) + Row(blocked, at, 1, 3)
  {
    assert Rows(blocked, at, 1) == Row(blocked, at, -1, 3);
    assert Rows(blocked, at, 2) == Rows(blocked, at, 1) + Row(blocked, at, 0, 3);
  }

  lemma RowOf(size: nat, at: Cell, i: int) returns (row: seq<Cell>)
    requires size >= 14 && Free(at) && -1 <= i <= 1
    ensures row == Row(Walls(size), at, i, 3)
    ensures at == Cell(3, 3) ==> row == if i == 1 then [Cell(4, 3), Cell(4, 4)] else []
    ensures at == Cell(4, 4) ==> row == if i == -1 then [Cell(3, 3)] else if i == 0 then [Cell(4, 3)] else [Cell(5, 3)]
    ensures at == Cell(4, 3) ==> row == if i == -1 then [Cell(3, 3)] else if i == 0 then [Cell(4, 4)] else [Cell(5, 3)]
  {
    RowIs(Walls(size), at, i);
    StepIs(size, at, Cell(at.x + i, at.y - 1));
    StepIs(size, at, Cell(at.x + i, at.y));
    StepIs(size, at, Cell(at.x + i, at.y + 1));
    row := Row(Walls(size), at, i, 3);
  }

  lemma MovesOf(size: nat, at: Cell)
    requires size >= 14 && Free(at)
    ensures at == Cell(3, 3) ==> Moves(Walls(size), at) == [Cell(4, 3), Cell(4, 4)]
    ensures at == Cell(4, 4) ==> Moves(Walls(size), at) == [Cell(3, 3), Cell(4, 3), Cell(5, 3)]
    ensures at == Cell(4, 3) ==> Moves(Walls(size), at) == [Cell(3, 3), Cell(4, 4), Cell(5, 3)]
  {
    MovesIs(Walls(size), at);
    var a := RowOf(size, at, -1);
    var b := RowOf(size, at, 0);
    var c := RowOf(size, at, 1);
  }

  // ------------------------------------------------------------------------------- distances

  lemma RootOf(root: real -> real, x: real, y: real)
    requires SquareRoot(root) && y >= 0.0 && x == y * y
    ensures root(x) == y
  {
    var r := root(x);
    assert r * r == y * y;
    SquareMonotone(r, y);
    SquareMonotone(y, r);
  }

  /** The few distances that decide the search. */
  lemma Distances(root: real -> real)
    requires SquareRoot(root)
    ensures var d := Euclidean(root);
      && d(Cell(4, 3), Cell(3, 3)) == 1.0 && d(Cell(4, 3), Cell(4, 4)) == 1.0 && d(Cell(5, 3), Cell(4, 3)) == 1.0
      && d(Cell(4, 4), Cell(3, 3)) == d(Cell(5, 3), Cell(4, 4)) && 1.0 < d(Cell(4, 4), Cell(3, 3)) < 2.0
      && d(Cell(4, 3), Cell(4, 12)) == 9.0 && d(Cell(4, 4), Cell(4, 12)) == 8.0 && d(Cell(5, 3), Cell(4, 12)) >= 9.0
  {
    var d := Euclidean(root);
    assert SquaredDistance(Cell(4, 3), Cell(3, 3)) == 1.0 && SquaredDistance(Cell(4, 3), Cell(4, 4)) == 1.0;
    assert SquaredDistance(Cell(5, 3), Cell(4, 3)) == 1.0;
    assert SquaredDistance(Cell(4, 4), Cell(3, 3)) == 2.0 && SquaredDistance(Cell(5, 3), Cell(4, 4)) == 2.0;
    assert SquaredDistance(Cell(4, 3), Cell(4, 12)) == 81.0 && SquaredDistance(Cell(4, 4), Cell(4, 12)) == 64.0;
    assert SquaredDistance(Cell(5, 3), Cell(4, 12)) == 82.0;
    RootOf(root, 1.0, 1.0);
    RootOf(root, 81.0, 9.0);
    RootOf(root, 64.0, 8.0);
    SquareMonotone(9.0, root(82.0));
    var r := root(2.0);
    SquareMonotone(1.0, r);
    SquareMonotone(r, 2.0);
  }

  // -------------------------------------------------------------------------------- the search

  /** Relaxing a closed cell, or an open one that is no cheaper, changes nothing. */
  lemma Idle(w: World, st: Stage, u: Entry, n: Cell)
    requires n in st.closed || (|st.open| == 1 && st.open[0].at == n && Tentative(w, u, n) >= st.open[0].g)
    ensures Relax(w, st, u, n) == st
  {
  }

  /** A first entry, and a second one behind or before it. */
  lemma First(w: World, st: Stage, u: Entry, n: Cell, e: Entry)
    requires st.open == [] && n !in st.closed
    requires e == Entry(n, Tentative(w, u, n), Tentative(w, u, n) + w.d(n, w.goal))
    ensures Relax(w, st, u, n) == st.(open := [e])
  {
    assert Placed([], e) == [e];
  }

  lemma Second(w: World, st: Stage, u: Entry, n: Cell, e: Entry)
    requires |st.open| == 1 && st.open[0].at != n && n !in st.closed
    requires e == Entry(n, Tentative(w, u, n), Tentative(w, u, n) + w.d(n, w.goal))
    ensures Relax(w, st, u, n) == st.(open := if st.open[0].key > e.key then [e, st.open[0]] else [st.open[0], e])
  {
    var keys := seq(1, i requires 0 <= i < 1 => Item(0, st.open[i].key));
    assert Slot(keys, e.key) == if st.open[0].key > e.key then 0 else 1;
    assert Placed(st.open, e) == if st.open[0].key > e.key then [e, st.open[0]] else [st.open[0], e];
  }

  lemma RelaxTwo(w: World, st: Stage, u: Entry, a: Cell, b: Cell)
    ensures RelaxAll(w, st, u, [a, b]) == Relax(w, Relax(w, st, u, a), u, b)
  {
    assert [a, b][1..] == [b] && [b][1..] == [];
    assert RelaxAll(w, Relax(w, st, u, a), u, [b]) == Relax(w, Relax(w, st, u, a), u, b);
  }

  lemma RelaxThree(w: World, st: Stage, u: Entry, a: Cell, b: Cell, c: Cell)
    ensures RelaxAll(w, st, u, [a, b, c]) == Relax(w, Relax(w, Relax(w, st, u, a), u, b), u, c)
    ensures Nulls(w, Relax(w, Relax(w, st, u, a), u, b), u, c) ==> NullsIn(w, st, u, [a, b, c])
  {
    var r := Relax(w, st, u, a);
    assert [a, b, c][1..] == [b, c] && [b, c][1..] == [c] && [c][1..] == [];
    RelaxTwo(w, r, u, b, c);
    assert NullsIn(w, Relax(w, r, u, b), u, [c]) <==> Nulls(w, Relax(w, r, u, b), u, c);
    assert NullsIn(w, r, u, [b, c]) <== NullsIn(w, Relax(w, r, u, b), u, [c]);
  }

  /** From (3,3) the search opens (4,4) and, behind it, (4,3). */
  lemma StageOne(root: real -> real, size: nat) returns (st: Stage)
    requires SquareRoot(root) && size >= 14
    ensures var w, diagonal := Pocket(root, size), Euclidean(root)(Cell(4, 4), Cell(3, 3));
      && Continues(w, Begins(w)) && st == Expand(w, Begins(w)) && st.closed == {Cell(3, 3)}
      && st.open == [Entry(Cell(4, 4), diagonal, diagonal + 8.0), Entry(Cell(4, 3), 1.0, 10.0)]
  {
    var w := Pocket(root, size);
    Distances(root);
    MovesOf(size, Cell(3, 3));
    var u, s0 := Begins(w).open[0], Closed(Begins(w));
    assert s0.open == [] && s0.closed == {Cell(3, 3)};
    RelaxTwo(w, s0, u, Cell(4, 3), Cell(4, 4));
    First(w, s0, u, Cell(4, 3), Entry(Cell(4, 3), 1.0, 10.0));
    var s1 := Relax(w, s0, u, Cell(4, 3));
    var diagonal := Euclidean(root)(Cell(4, 4), Cell(3, 3));
    Second(w, s1, u, Cell(4, 4), Entry(Cell(4, 4), diagonal, diagonal + 8.0));
    st := Expand(w, Begins(w));
  }

  /** From (4,4) it opens (5,3) behind (4,3). */
  lemma StageTwo(root: real -> real, size: nat, s: Stage) returns (st: Stage)
    requires SquareRoot(root) && size >= 14
    requires var w, diagonal := Pocket(root, size), Euclidean(root)(Cell(4, 4), Cell(3, 3));
      && s.closed == {Cell(3, 3)}
      && s.open == [Entry(Cell(4, 4), diagonal, diagonal + 8.0), Entry(Cell(4, 3), 1.0, 10.0)]
    ensures var w, diagonal := Pocket(root, size), Euclidean(root)(Cell(4, 4), Cell(3, 3));
      && Continues(w, s) && st == Expand(w, s) && st.closed == {Cell(3, 3), Cell(4, 4)}
      && |st.open| == 2 && st.open[0] == Entry(Cell(4, 3), 1.0, 10.0)
      && st.open[1].at == Cell(5, 3) && st.open[1].g == diagonal + diagonal
  {
    var w, diagonal := Pocket(root, size), Euclidean(root)(Cell(4, 4), Cell(3, 3));
    Distances(root);
    MovesOf(size, Cell(4, 4));
    var u, s0 := s.open[0], Closed(s);
    assert s0.open == [s.open[1]] && s0.closed == {Cell(3, 3), Cell(4, 4)};
    RelaxThree(w, s0, u, Cell(3, 3), Cell(4, 3), Cell(5, 3));
    Idle(w, s0, u, Cell(3, 3));
    Idle(w, s0, u, Cell(4, 3));
    var far := Euclidean(root)(Cell(5, 3), Cell(4, 12));
    Second(w, s0, u, Cell(5, 3), Entry(Cell(5, 3), diagonal + diagonal, diagonal + diagonal + far));
    st := Expand(w, s);
  }

  /** From (4,3) it finds a cheaper way to (5,3), the only cell that is still open. */
  lemma StageThree(root: real -> real, size: nat, s: Stage)
    requires SquareRoot(root) && size >= 14
    requires var diagonal := Euclidean(root)(Cell(4, 4), Cell(3, 3));
      && s.closed == {Cell(3, 3), Cell(4, 4)} && |s.open| == 2 && s.open[0] == Entry(Cell(4, 3), 1.0, 10.0)
      && s.open[1].at == Cell(5, 3) && s.open[1].g == diagonal + diagonal
    ensures Fails(Pocket(root, size), s)
  {
    var w := Pocket(root, size);
    Distances(root);
    MovesOf(size, Cell(4, 3));
    var u, s0 := s.open[0], Closed(s);
    assert s0.open == [s.open[1]];
    RelaxThree(w, s0, u, Cell(3, 3), Cell(4, 4), Cell(5, 3));
    Idle(w, s0, u, Cell(3, 3));
    Idle(w, s0, u, Cell(4, 4));
    assert Tentative(w, u, Cell(5, 3)) == 2.0;
  }

  lemma {:induction false} StaysInside(size: nat, path: seq<Cell>, c: Cell)
    requires size >= 14 && Route(Walls(size), path, Cell(3, 3), c)
    ensures Free(c)
    decreases |path|
  {
    if |path| > 1 {
      var n := |path| - 1;
      RoutePrefix(Walls(size), path, Cell(3, 3), c, n);
      StaysInside(size, path[..n], path[n - 1]);
      assert Move(Walls(size), path[n - 1], path[n]);
      StepIs(size, path[n - 1], path[n]);
    }
  }

  lemma PocketContained(root: real -> real, size: nat)
    requires size >= 14
    ensures Contained(Pocket(root, size))
  {
    var w := Pocket(root, size);
    forall c | Reachable(w, c) ensures Interior(size, c) {
      var path :| Route(w.blocked, path, w.start, c);
      StaysInside(size, path, c);
    }
  }

  lemma PocketCrashes(root: real -> real, size: nat)
    requires SquareRoot(root) && size >= 14
    ensures Crashes(Pocket(root, size))
  {
    var w := Pocket(root, size);
    var s1 := StageOne(root, size);
    var s2 := StageTwo(root, size, s1);
    StageThree(root, size, s2);
    var t0, t1 := [Begins(w)], [Begins(w)] + [s1];
    TraceExtended(w, t0, s1);
    TraceExtended(w, t1, s2);
    var tr := t1 + [s2];
    assert Trace(w, tr) && tr[|tr| - 1] == s2;
  }

  /** The planner accepts this map, and its open list becomes null on it. */
  lemma FourCellsCrash(root: real -> real, size: nat)
    requires SquareRoot(root) && size >= 14
    ensures var w := Pocket(root, size); Contained(w) && Metric(w.d) && Crashes(w)
  {
    EuclideanMetric(root);
    PocketContained(root, size);
    PocketCrashes(root, size);
  }

  /** So the planner meets the null list on it, and finds no route. */
  method MeetNull(p: Planner.Planner, ghost root: real -> real)
    returns (solution: bool, nulled: bool)
    requires p.Valid() && SquareRoot(root) && p.chart.size >= 14 && p.World() == Pocket(root, p.chart.size)
    modifies p, p.goalPath
    ensures nulled && !solution
  {
    FourCellsCrash(root, p.chart.size);
    ghost var w := p.World();
    if Reachable(w, w.goal) {
      ghost var path :| Route(w.blocked, path, w.start, w.goal);
      StaysInside(p.chart.size, path, w.goal);
    }
    ghost var reached;
    solution, nulled, reached := p.Command();
  }
}

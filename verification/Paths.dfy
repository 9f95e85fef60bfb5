/** Paths on the planner's 8-connected grid, their cost, and why a best-first search with a consistent
    estimate is right never to reopen a closed cell. */
module Paths {

  datatype Cell = Cell(x: int, y: int)

  type Distance = (Cell, Cell) -> real

  /** estDistance stands for any metric on the cells; it is both the step cost and the estimate. */
  ghost predicate Metric(d: Distance) {
    && (forall a, b :: d(a, b) >= 0.0)
    && (forall a, b :: d(a, b) == 0.0 <==> a == b)
    && (forall a, b :: d(a, b) == d(b, a))
    && (forall a, b, m :: d(a, b) <= d(a, m) + d(m, b))
  }

  /** genNeighbors: a step to one of the eight cells around, onto a free cell, and for a corner with
      at least one of the two cells beside it free. */
  predicate Move(blocked: set<Cell>, a: Cell, b: Cell) {
    && a != b && -1 <= b.x - a.x <= 1 && -1 <= b.y - a.y <= 1
    && b !in blocked
    && (a.x == b.x || a.y == b.y || Cell(b.x, a.y) !in blocked || Cell(a.x, b.y) !in blocked)
  }

  ghost predicate Path(blocked: set<Cell>, path: seq<Cell>) {
    path != [] && forall i {:trigger path[i]} :: 0 < i < |path| ==> Move(blocked, path[i - 1], path[i])
  }

  ghost predicate Route(blocked: set<Cell>, path: seq<Cell>, a: Cell, b: Cell) {
    Path(blocked, path) && path[0] == a && path[|path| - 1] == b
  }

  ghost function Cost(d: Distance, path: seq<Cell>): real {
    if |path| <= 1 then 0.0
    else Cost(d, path[..|path| - 1]) + d(path[|path| - 1], path[|path| - 2])
  }

  lemma RouteExtended(blocked: set<Cell>, d: Distance, path: seq<Cell>, a: Cell, b: Cell, next: Cell)
    requires Route(blocked, path, a, b) && Move(blocked, b, next)
    ensures Route(blocked, path + [next], a, next)
    ensures Cost(d, path + [next]) == Cost(d, path) + d(next, b)
  {
    assert (path + [next])[..|path|] == path;
  }

  lemma RoutePrefix(blocked: set<Cell>, path: seq<Cell>, a: Cell, b: Cell, n: nat)
    requires Route(blocked, path, a, b) && 0 < n <= |path|
    ensures Route(blocked, path[..n], a, path[n - 1])
  {
  }

  // ------------------------------------------------------------------------------------- search

  /** What the search knows: the closed and the open cells with the costs recorded for them. A closed
      cell's cost is the least of any route, and each of its moves leads to a closed cell or to an
      open one recorded no dearer than through it, unless it is one of the `todo` moves from `at`. */
  ghost predicate Explored(blocked: set<Cell>, d: Distance, start: Cell, closed: map<Cell, real>,
                           open: map<Cell, real>, at: Cell, todo: set<Cell>) {
    && closed.Keys !! open.Keys
    && (start in closed || (start in open && open[start] <= 0.0))
    && (forall c, path :: c in closed && Route(blocked, path, start, c) ==> closed[c] <= Cost(d, path))
    && (forall c, n {:trigger Settled(d, closed, open, c, n)} ::
          c in closed && Move(blocked, c, n) && !(c == at && n in todo) ==> Settled(d, closed, open, c, n))
  }

  ghost predicate Settled(d: Distance, closed: map<Cell, real>, open: map<Cell, real>, c: Cell, n: Cell)
    requires c in closed
  {
    n in closed || (n in open && open[n] <= closed[c] + d(n, c))
  }

  ghost predicate Frontier(blocked: set<Cell>, d: Distance, start: Cell, closed: map<Cell, real>, open: map<Cell, real>) {
    Explored(blocked, d, start, closed, open, start, {})
  }

  /** Every route to a cell that is not closed passes an open cell recorded no dearer than the route
      up to there. */
  lemma {:induction false} RouteMeetsOpen(blocked: set<Cell>, d: Distance, start: Cell, closed: map<Cell, real>,
                                          open: map<Cell, real>, path: seq<Cell>, u: Cell) returns (n: nat)
    requires Frontier(blocked, d, start, closed, open)
    requires Route(blocked, path, start, u) && u !in closed
    ensures 0 < n <= |path| && path[n - 1] in open && open[path[n - 1]] <= Cost(d, path[..n])
    decreases |path|
  {
    if |path| == 1 {
      assert path == path[..1];
      n := 1;
    } else {
      var prev := path[|path| - 2];
      var shorter := path[..|path| - 1];
      RoutePrefix(blocked, path, start, u, |path| - 1);
      if prev in closed {
        n := |path|;
        assert path[..n] == path;
        assert Move(blocked, prev, path[|path| - 1]);
        assert Settled(d, closed, open, prev, u);
        assert closed[prev] <= Cost(d, shorter);
      } else {
        n := RouteMeetsOpen(blocked, d, start, closed, open, shorter, prev);
        assert shorter[..n] == path[..n];
      }
    }
  }

  /** The estimate never overrates what a route still costs. */
  lemma {:induction false} EstimateConsistent(d: Distance, path: seq<Cell>, n: nat, goal: Cell)
    requires Metric(d) && 0 < n <= |path|
    ensures Cost(d, path[..n]) + d(path[n - 1], goal) <= Cost(d, path) + d(path[|path| - 1], goal)
    decreases |path|
  {
    if n == |path| {
      assert path[..n] == path;
    } else {
      var shorter := path[..|path| - 1];
      EstimateConsistent(d, shorter, n, goal);
      assert shorter[..n] == path[..n];
      var a, b := path[|path| - 2], path[|path| - 1];
      assert d(a, goal) <= d(a, b) + d(b, goal) && d(a, b) == d(b, a);
    }
  }

  /** An open cell whose recorded cost plus estimate is least is recorded at the cost of its cheapest
      route, so it may be closed for good. */
  lemma LeastIsOptimal(blocked: set<Cell>, d: Distance, start: Cell, goal: Cell, closed: map<Cell, real>,
                       open: map<Cell, real>, u: Cell, path: seq<Cell>)
    requires Metric(d) && Frontier(blocked, d, start, closed, open)
    requires u in open && forall c :: c in open ==> open[u] + d(u, goal) <= open[c] + d(c, goal)
    requires Route(blocked, path, start, u)
    ensures open[u] <= Cost(d, path)
  {
    var n := RouteMeetsOpen(blocked, d, start, closed, open, path, u);
    EstimateConsistent(d, path, n, goal);
  }

  /** With nothing open, no route leads to a cell that is not closed. */
  lemma NothingOpen(blocked: set<Cell>, d: Distance, start: Cell, closed: map<Cell, real>, path: seq<Cell>, u: Cell)
    requires Frontier(blocked, d, start, closed, map[]) && u !in closed
    ensures !Route(blocked, path, start, u)
  {
    if Route(blocked, path, start, u) {
      var n := RouteMeetsOpen(blocked, d, start, closed, map[], path, u);
      assert false;
    }
  }

  // ------------------------------------------------------------------- how the search moves on

  lemma FrontierBegins(blocked: set<Cell>, d: Distance, start: Cell)
    ensures Frontier(blocked, d, start, map[], map[start := 0.0])
  {
  }

  /** Closing the least open cell: its recorded cost is the least of any route. */
  lemma CostsStayLeast(blocked: set<Cell>, d: Distance, start: Cell, goal: Cell, closed: map<Cell, real>,
                       open: map<Cell, real>, u: Cell)
    requires Metric(d) && Frontier(blocked, d, start, closed, open)
    requires u in open && forall c :: c in open ==> open[u] + d(u, goal) <= open[c] + d(c, goal)
    ensures forall c, path :: c in closed[u := open[u]] && Route(blocked, path, start, c) ==>
      closed[u := open[u]][c] <= Cost(d, path)
  {
    forall c, path | c in closed[u := open[u]] && Route(blocked, path, start, c)
      ensures closed[u := open[u]][c] <= Cost(d, path)
    {
      if c == u {
        LeastIsOptimal(blocked, d, start, goal, closed, open, u, path);
      }
    }
  }

  /** ... and only its own moves are left to be settled. */
  lemma FrontierCloses(blocked: set<Cell>, d: Distance, start: Cell, goal: Cell, closed: map<Cell, real>,
                       open: map<Cell, real>, u: Cell, todo: set<Cell>)
    requires Metric(d) && Frontier(blocked, d, start, closed, open)
    requires u in open && forall c :: c in open ==> open[u] + d(u, goal) <= open[c] + d(c, goal)
    requires forall n :: Move(blocked, u, n) ==> n in todo
    ensures Explored(blocked, d, start, closed[u := open[u]], open - {u}, u, todo)
  {
    var closed', open' := closed[u := open[u]], open - {u};
    CostsStayLeast(blocked, d, start, goal, closed, open, u);
    forall c, n | c in closed' && Move(blocked, c, n) && !(c == u && n in todo)
      ensures Settled(d, closed', open', c, n)
    {
      assert Settled(d, closed, open, c, n);
    }
  }

  /** Settling one of those moves: the neighbour is closed already, or open no dearer, or is recorded
      anew at the lower cost through `at`. */
  lemma MoveSettled(blocked: set<Cell>, d: Distance, start: Cell, closed: map<Cell, real>, open: map<Cell, real>,
                    at: Cell, todo: set<Cell>, n: Cell, open': map<Cell, real>)
    requires Explored(blocked, d, start, closed, open, at, todo) && at in closed && start in closed
    requires n in closed ==> open' == open
    requires n !in closed ==>
      var g := closed[at] + d(n, at);
      open' == if n !in open || g < open[n] then open[n := g] else open
    ensures Explored(blocked, d, start, closed, open', at, todo - {n})
  {
    forall c, m | c in closed && Move(blocked, c, m) && !(c == at && m in todo - {n})
      ensures Settled(d, closed, open', c, m)
    {
      if !(c == at && m == n) {
        assert Settled(d, closed, open, c, m);
      }
    }
  }

  lemma AllSettled(blocked: set<Cell>, d: Distance, start: Cell, closed: map<Cell, real>, open: map<Cell, real>, at: Cell)
    requires Explored(blocked, d, start, closed, open, at, {})
    ensures Frontier(blocked, d, start, closed, open)
  {
  }

  // -------------------------------------------------------------------- the Euclidean distance

  /** A square root on the non-negative reals. */
  ghost predicate SquareRoot(root: real -> real) {
    forall x :: x >= 0.0 ==> root(x) >= 0.0 && root(x) * root(x) == x
  }

  function Square(x: real): real {
    x * x
  }

  /** The sum that estDistance takes the root of. */
  function SquaredDistance(a: Cell, b: Cell): real {
    Square((a.x - b.x) as real) + Square((a.y - b.y) as real)
  }

  function Euclidean(root: real -> real): Distance {
    (a: Cell, b: Cell) => root(SquaredDistance(a, b))
  }

  lemma ProductPositive(x: real, y: real, product: real)
    requires x * y == product && ((x > 0.0 && y > 0.0) || (x < 0.0 && y < 0.0))
    ensures product > 0.0
  {
  }

  lemma RootZero(d: real, square: real)
    requires d * d == square
    ensures square >= 0.0 && (d == 0.0 <==> square == 0.0)
  {
    if d != 0.0 {
      ProductPositive(d, d, square);
    }
  }

  lemma SquareMonotone(x: real, y: real)
    requires x >= 0.0 && y >= 0.0 && x * x <= y * y
    ensures x <= y
  {
    if x > y {
      assert (x - y) * (x + y) == x * x - y * y;
      ProductPositive(x - y, x + y, x * x - y * y);
    }
  }

  /** The plane's triangle inequality, from Cauchy and Schwarz. */
  lemma Triangle(ux: real, uy: real, vx: real, vy: real, p: real, q: real, r: real)
    requires p >= 0.0 && q >= 0.0 && r >= 0.0
    requires p * p == ux * ux + uy * uy && q * q == vx * vx + vy * vy
    requires r * r == (ux + vx) * (ux + vx) + (uy + vy) * (uy + vy)
    ensures r <= p + q
  {
    var dot, cross := ux * vx + uy * vy, ux * vy - uy * vx;
    assert (p * q) * (p * q) == (p * p) * (q * q);
    assert (p * p) * (q * q) == dot * dot + cross * cross by {
      assert (ux * ux + uy * uy) * (vx * vx + vy * vy) == dot * dot + cross * cross;
    }
    assert dot <= p * q by {
      if dot >= 0.0 {
        assert cross * cross >= 0.0;
        assert p * q >= 0.0;
        SquareMonotone(dot, p * q);
      }
    }
    assert (p + q) * (p + q) == p * p + 2.0 * (p * q) + q * q;
    assert r * r == p * p + 2.0 * dot + q * q;
    SquareMonotone(r, p + q);
  }

  lemma EuclideanPair(root: real -> real, a: Cell, b: Cell)
    requires SquareRoot(root)
    ensures var d, e := root(SquaredDistance(a, b)), root(SquaredDistance(b, a));
      d >= 0.0 && d * d == SquaredDistance(a, b) && d == e && (d == 0.0 <==> a == b)
  {
    var x, y := (a.x - b.x) as real, (a.y - b.y) as real;
    assert (b.x - a.x) as real == -x && (b.y - a.y) as real == -y;
    assert Square(-x) == Square(x) && Square(-y) == Square(y);
    RootZero(x, Square(x));
    RootZero(y, Square(y));
    RootZero(root(SquaredDistance(a, b)), SquaredDistance(a, b));
    assert SquaredDistance(a, b) == 0.0 <==> x == 0.0 && y == 0.0;
    assert x == 0.0 && y == 0.0 <==> a == b;
  }

  lemma EuclideanTriangle(root: real -> real, a: Cell, m: Cell, b: Cell)
    requires SquareRoot(root)
    ensures root(SquaredDistance(a, b)) <= root(SquaredDistance(a, m)) + root(SquaredDistance(m, b))
  {
    var ux, uy := (a.x - m.x) as real, (a.y - m.y) as real;
    var vx, vy := (m.x - b.x) as real, (m.y - b.y) as real;
    assert (a.x - b.x) as real == ux + vx && (a.y - b.y) as real == uy + vy;
    EuclideanPair(root, a, m);
    EuclideanPair(root, m, b);
    EuclideanPair(root, a, b);
    Triangle(ux, uy, vx, vy, root(SquaredDistance(a, m)), root(SquaredDistance(m, b)), root(SquaredDistance(a, b)));
  }

  /** The distance that the planner uses is a metric. */
  lemma EuclideanMetric(root: real -> real)
    requires SquareRoot(root)
    ensures Metric(Euclidean(root))
  {
    var d := Euclidean(root);
    forall a: Cell, b: Cell ensures d(a, b) >= 0.0 && d(a, b) == d(b, a) && (d(a, b) == 0.0 <==> a == b) {
      EuclideanPair(root, a, b);
    }
    forall a: Cell, b: Cell, m: Cell ensures d(a, b) <= d(a, m) + d(m, b) {
      EuclideanTriangle(root, a, m, b);
    }
  }
}

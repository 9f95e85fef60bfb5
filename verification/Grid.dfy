/** The conversion between map coordinates and grid cells of controllers/mapping.c. */
module Grid {
  import opened Paths

  const GRID_NUM := 80
  const MAP_SIZE := 16
  const OFFSET := 8

  datatype Point = Point(x: real, y: real)

  /** The side of a cell. */
  const INTERVAL: real := MAP_SIZE as real / GRID_NUM as real

  /** C's conversion of a double to int, which drops the fraction. */
  function Truncate(x: real): (n: int)
    ensures if x >= 0.0 then n as real <= x < n as real + 1.0 else n as real - 1.0 < x <= n as real
  {
    if x >= 0.0 then x.Floor else -(-x).Floor
  }

  function GridifyAxis(v: real): (n: int)
    ensures n != GRID_NUM
  {
    var n := Truncate((v + OFFSET as real) / INTERVAL);
    if n == GRID_NUM then n - 1 else n
  }

  function DegridifyAxis(n: int): real {
    n as real * INTERVAL + INTERVAL / 2.0 - OFFSET as real
  }

  function Gridify(p: Point): Cell {
    Cell(GridifyAxis(p.x), GridifyAxis(p.y))
  }

  function Degridify(x: int, y: int): Point {
    Point(DegridifyAxis(x), DegridifyAxis(y))
  }

  function Abs(x: real): real {
    if x < 0.0 then -x else x
  }

  lemma AxisInverse(n: int)
    ensures GridifyAxis(DegridifyAxis(n)) == n <==> 0 <= n && n != GRID_NUM
  {
    var t := (DegridifyAxis(n) + OFFSET as real) / INTERVAL;
    assert INTERVAL == 0.2;
    assert t == n as real + 0.5;
    var m := Truncate(t);
    if n >= 0 {
      assert n as real <= t < n as real + 1.0 && m as real <= t < m as real + 1.0;
      assert m == n;
    } else {
      assert t <= 0.0;
      assert m as real - 1.0 < t <= m as real;
      assert m != n;
    }
  }

  /** Gridify inverts degridify exactly on the non-negative coordinates other than GRID_NUM, so on
      every cell of the grid. */
  lemma GridifyInverts(x: int, y: int)
    ensures var p := Degridify(x, y);
      Gridify(p) == Cell(x, y) <==> 0 <= x && x != GRID_NUM && 0 <= y && y != GRID_NUM
  {
    AxisInverse(x);
    AxisInverse(y);
  }

  /** A point on the map, from -8 to 8 with both ends, is at most half a cell, a tenth, from the middle
      of its cell, which is one of 80; the ends are in the outermost cells and the origin in cell 40. */
  lemma NearestCell(v: real)
    requires -8.0 <= v <= 8.0
    ensures 0 <= GridifyAxis(v) < 80
    ensures Abs(DegridifyAxis(GridifyAxis(v)) - v) <= 0.1
    ensures v == -8.0 ==> GridifyAxis(v) == 0
    ensures v == 8.0 ==> GridifyAxis(v) == 79
    ensures v == 0.0 ==> GridifyAxis(v) == 40
  {
    assert INTERVAL == 0.2;
    var t := (v + 8.0) / INTERVAL;
    assert t == (v + 8.0) * 5.0;
    var n := Truncate(t);
    assert n as real <= t < n as real + 1.0;
    assert DegridifyAxis(n) == n as real * 0.2 + 0.1 - 8.0;
    assert DegridifyAxis(n - 1) == (n as real - 1.0) * 0.2 + 0.1 - 8.0;
  }

  /** The check at the head of addObstacle lets GRID_NUM itself pass; it still keeps every converted
      point in bounds, because no point converts to GRID_NUM. */
  lemma CheckedInBounds(p: Point)
    ensures var c := Gridify(p);
      !(c.x < 0 || c.x > GRID_NUM || c.y < 0 || c.y > GRID_NUM) <==> 0 <= c.x < GRID_NUM && 0 <= c.y < GRID_NUM
  {
  }
}

/** The A* planner of controllers/a_star.c: `command` with its lists, its node heap and the cleanup
    that frees every node but those on the returned path. */
module Planner {
  import opened Paths
  import opened NodeList
  import opened Wrappers
  import opened SearchState
  import opened Charts
  import opened MapStream
  import opened Reference

  /** The cells that the items stand for, in order. */
  ghost function Cells(items: seq<Item>, heap: Heap): (cells: seq<Cell>)
    requires Live(items, heap)
    ensures |cells| == |items|
  {
    seq(|items|, i requires 0 <= i < |items| => heap[items[i].node].at)
  }

  /** Each node's back link is the node before it. */
  ghost predicate Linked(items: seq<Item>, heap: Heap) {
    forall i :: 0 <= i < |items| ==>
      items[i].node in heap && heap[items[i].node].back == if i == 0 then None else Some(items[i - 1].node)
  }

  /** What the search asks of the grid and the distance. */
  ghost predicate Terrain(w: World) {
    forall t {:trigger Look(t)} :: Look(t) ==> Contained(w) && Metric(w.d)
  }

  ghost predicate Kept(p: Problem, s: Snapshot) {
    forall t {:trigger Look(t)} :: Look(t) ==> Sound(p, s)
  }

  ghost predicate Staged(s: Snapshot, st: Stage) {
    forall t {:trigger Look(t)} :: Look(t) ==> st == StageOf(s)
  }

  /** What the search keeps count of: its loose nodes, what it knows, and its stage. */
  datatype Tally = Tally(loose: set<Ref>, k: Known, st: Stage)

  ghost predicate Open(w: World, heap: Heap, k: Known, at: Cell, todo: set<Cell>) {
    forall t {:trigger Look(t)} :: Look(t) ==> Settling(w, heap, k, at, todo)
  }

  /** Relaxing the neighbour `n` leads from `st` to `st'`; `nulled` tells whether the list was null in
      between. */
  ghost predicate Relaxed(w: World, st: Stage, u: Entry, n: Cell, st': Stage, nulled: bool) {
    forall t {:trigger Look(t)} :: Look(t) ==> st' == Relax(w, st, u, n) && (nulled <==> Nulls(w, st, u, n))
  }

  /** Relaxing `ns` from `st` comes to what relaxing `ns'` from `st'` comes to; `nulled` tells whether the
      list was null on the way there. */
  ghost predicate Course(w: World, u: Entry, st: Stage, ns: seq<Cell>, st': Stage, ns': seq<Cell>, nulled: bool) {
    forall t {:trigger Look(t)} :: Look(t) ==>
      && RelaxAll(w, st, u, ns) == RelaxAll(w, st', u, ns')
      && (NullsIn(w, st, u, ns) <==> nulled || NullsIn(w, st', u, ns'))
  }

  lemma CourseBegins(w: World, u: Entry, st: Stage, ns: seq<Cell>)
    ensures Course(w, u, st, ns, st, ns, false)
  {
  }

  lemma CourseNext(w: World, u: Entry, st0: Stage, ns0: seq<Cell>, st: Stage, ns: seq<Cell>, before: bool,
                   st': Stage, nulled: bool)
    requires Course(w, u, st0, ns0, st, ns, before) && ns != [] && Relaxed(w, st, u, ns[0], st', nulled)
    ensures Course(w, u, st0, ns0, st', ns[1..], before || nulled)
  {
    assert Look(0);
  }

  /** The items are nodes made since the heap was `base`, at the cells `ns` in order, one for each cell
      that `owner` records. */
  ghost predicate Fresh(items: seq<Item>, heap: Heap, hi: Ref, base: Heap, lo: Ref, owner: map<Cell, Ref>, ns: seq<Cell>) {
    forall t {:trigger Look(t)} :: Look(t) ==> FreshRefs(items, heap, hi, base, lo) && FreshCells(items, heap, owner, ns)
  }

  ghost predicate FreshRefs(items: seq<Item>, heap: Heap, hi: Ref, base: Heap, lo: Ref) {
    && heap.Keys == base.Keys + Refs(items) && Distinct(items)
    && (forall r :: r in Refs(items) ==> lo <= r < hi)
    && (forall r :: r in base ==> r < lo && heap[r] == base[r])
    && lo <= hi
  }

  ghost predicate FreshCells(items: seq<Item>, heap: Heap, owner: map<Cell, Ref>, ns: seq<Cell>) {
    && Owned(Refs(items), heap, owner) && Lined(items, heap, ns)
    && (forall i :: 0 <= i < |items| ==> items[i].key == 0.0)
    && (forall c :: c in owner <==> c in ns)
  }

  /** The items are live nodes at the cells `ns`, in order. */
  ghost predicate Lined(items: seq<Item>, heap: Heap, ns: seq<Cell>) {
    |items| == |ns| && forall i :: 0 <= i < |items| ==> items[i].node in heap && heap[items[i].node].at == ns[i]
  }

  /** An item with the sort value of all others goes to the end. */
  lemma InsertedLast(items: seq<Item>, r: Ref)
    requires forall i :: 0 <= i < |items| ==> items[i].key == 0.0
    ensures Inserted(items, Item(r, 0.0)) == items + [Item(r, 0.0)]
  {
    assert Slot(items, 0.0) == |items|;
  }

  lemma FreshRefsMore(items: seq<Item>, heap: Heap, hi: Ref, base: Heap, lo: Ref, at: Cell)
    requires FreshRefs(items, heap, hi, base, lo)
    ensures forall r :: r in heap ==> r < hi
    ensures FreshRefs(Inserted(items, Item(hi, 0.0)), heap[hi := Node(at, 0.0, None)], hi + 1, base, lo)
  {
    InsertedRefs(items, Item(hi, 0.0));
    InsertedDistinct(items, Item(hi, 0.0));
  }

  lemma FreshCellsMore(items: seq<Item>, heap: Heap, hi: Ref, owner: map<Cell, Ref>, ns: seq<Cell>, at: Cell)
    requires FreshCells(items, heap, owner, ns) && at !in ns && forall r :: r in heap ==> r < hi
    ensures FreshCells(Inserted(items, Item(hi, 0.0)), heap[hi := Node(at, 0.0, None)], owner[at := hi], ns + [at])
  {
    InsertedRefs(items, Item(hi, 0.0));
    InsertedLast(items, hi);
  }

  lemma FreshMore(items: seq<Item>, heap: Heap, hi: Ref, base: Heap, lo: Ref, owner: map<Cell, Ref>, ns: seq<Cell>, at: Cell)
    requires Fresh(items, heap, hi, base, lo, owner, ns) && at !in ns
    ensures forall r :: r in heap ==> r < hi
    ensures Fresh(Inserted(items, Item(hi, 0.0)), heap[hi := Node(at, 0.0, None)], hi + 1, base, lo, owner[at := hi], ns + [at])
  {
    assert Look(0);
    FreshRefsMore(items, heap, hi, base, lo, at);
    FreshCellsMore(items, heap, hi, owner, ns, at);
  }

  /** `ns` are the moves that the double loop of genNeighbors has found when it is at row `i`, step `n`. */
  ghost predicate Scanned(blocked: set<Cell>, at: Cell, i: int, n: nat, ns: seq<Cell>) {
    forall t {:trigger Look(t)} :: Look(t) ==> -1 <= i <= 2 && ns == Rows(blocked, at, i + 1) + Row(blocked, at, i, n)
  }

  lemma ScanBegins(blocked: set<Cell>, at: Cell)
    ensures Scanned(blocked, at, -1, 0, [])
  {
  }

  /** What comes next is not among the moves found so far. */
  lemma ScanNext(blocked: set<Cell>, at: Cell, i: int, n: nat, ns: seq<Cell>)
    requires Scanned(blocked, at, i, n, ns) && n < 3 && i < 2
    ensures var c := Cell(at.x + i, at.y + (n - 1));
      c !in ns && Scanned(blocked, at, i, n + 1, ns + if Move(blocked, at, c) then [c] else [])
  {
    assert Look(0);
    RowsMoves(blocked, at, i + 1);
    RowMoves(blocked, at, i, n);
  }

  lemma ScanRow(blocked: set<Cell>, at: Cell, i: int, ns: seq<Cell>)
    requires Scanned(blocked, at, i, 3, ns) && i < 2
    ensures Scanned(blocked, at, i + 1, 0, ns)
  {
    assert Look(0);
    assert ns == Rows(blocked, at, i + 2) + [];
  }

  lemma ScanEnds(blocked: set<Cell>, at: Cell, ns: seq<Cell>)
    requires Scanned(blocked, at, 2, 0, ns)
    ensures ns == Moves(blocked, at) && forall c :: c in ns <==> Move(blocked, at, c)
  {
    assert Look(0);
    assert ns == Rows(blocked, at, 3) + [];
    MovesAreMoves(blocked, at);
  }

  class Planner {
    const chart: Chart
    const d: Distance
    const goalPath: List
    var goal: Cell
    var pose: Cell
    var heap: Heap
    var next: Ref

    constructor (plan: Chart, dist: Distance, target: Cell)
      requires plan.Valid()
      ensures Valid() && chart == plan && d == dist && goal == target && heap == map[] && goalPath.items == []
      ensures fresh(goalPath)
    {
      chart, d, goal, pose := plan, dist, target, Cell(0, 0);
      goalPath := new List();
      heap, next := map[], 0;
    }

    ghost predicate Valid()
      reads this, goalPath, goalPath.cells
    {
      && chart.Valid() && goalPath.Valid() && goalPath.first != null
      && (forall r :: r in heap ==> r < next)
      && Live(goalPath.items, heap) && Distinct(goalPath.items)
    }

    ghost function World(): World
      requires chart.Valid()
      reads this`pose, this`goal, chart.blocked
    {
      SearchState.World(chart.Blocked(), d, pose, goal, chart.size)
    }

    // ------------------------------------------------------------------------------ the heap

    method NewNode(at: Cell, g: real) returns (r: Ref)
      requires forall q :: q in heap ==> q < next
      modifies this`heap, this`next
      ensures r == old(next) && next == r + 1 && heap == old(heap)[r := Node(at, g, None)]
    {
      r := next;
      heap := heap[r := Node(at, g, None)];
      next := next + 1;
    }

    method Free(r: Ref)
      requires r in heap
      modifies this`heap
      ensures heap == old(heap) - {r}
    {
      heap := heap - {r};
    }

    /** Frees every node of a list. */
    method EraseList(list: List)
      requires list.Valid() && list.first != null && Live(list.items, heap) && Distinct(list.items)
      modifies this`heap, list
      ensures list.Valid() && list.first != null && list.items == [] && heap == old(heap) - Refs(old(list.items))
    {
      ghost var all, done := list.items, 0;
      var curr := list.Pop();
      while curr.Some?
        invariant list.Valid() && list.first != null && Popping(all, done, curr, list.items)
        invariant heap == old(heap) - Refs(all[..done])
        decreases |all| - done
      {
        RefsNext(all, done);
        Free(curr.value);
        curr := list.Pop();
        done := done + 1;
      }
      assert all[..done] == all;
    }

    /** Frees a node unless `save` has a node with its coordinates. */
    method EraseUnless(node: Ref, save: List)
      requires save.Valid() && Live(save.items, heap) && node in heap
      requires forall q :: q in Refs(save.items) && heap[node].at == heap[q].at ==> node == q
      modifies this`heap
      ensures heap == old(heap) - ({node} - Refs(save.items))
    {
      Saved(save.items, heap, node);
      var found := save.FindNode(heap, heap[node].at);
      if found.None? {
        Free(node);
      }
    }

    /** Frees the nodes of `kill` that no node of `save` shares coordinates with. Where coordinates
        identify nodes these are exactly the nodes that `save` does not hold. */
    method EraseAllButList(kill: List, save: List)
      requires kill != save && kill.Valid() && kill.first != null && save.Valid()
      requires Live(kill.items, heap) && Distinct(kill.items) && Live(save.items, heap)
      requires forall r, q :: r in Refs(kill.items) && q in Refs(save.items) && heap[r].at == heap[q].at ==> r == q
      modifies this`heap, kill
      ensures kill.Valid() && kill.items == [] && heap == old(heap) - (Refs(old(kill.items)) - Refs(save.items))
    {
      ghost var all, done, was := kill.items, 0, heap;
      var node := kill.Pop();
      while node.Some?
        invariant kill.Valid() && kill.first != null && Popping(all, done, node, kill.items)
        invariant heap == Erased(was, all, done, save.items)
        decreases |all| - done
      {
        ErasedNext(was, all, done, save.items);
        EraseUnless(node.value, save);
        node := kill.Pop();
        done := done + 1;
      }
      assert all[..done] == all;
    }

    // ---------------------------------------------------------------------------- neighbours

    /** The nodes of `list` are new since `base`, at the cells `ns`, one for each cell of `owner`. */
    ghost predicate Spawned(list: List, base: Heap, lo: Ref, owner: map<Cell, Ref>, ns: seq<Cell>)
      reads this, list, list.cells
    {
      list.Valid() && list.first != null && Fresh(list.items, heap, next, base, lo, owner, ns)
    }

    method AddNeighbor(list: List, at: Cell, ghost base: Heap, ghost lo: Ref, ghost owner: map<Cell, Ref>, ghost ns: seq<Cell>)
      returns (ghost owner': map<Cell, Ref>)
      requires Spawned(list, base, lo, owner, ns) && at !in ns
      modifies this`heap, this`next, list, iset c: ListCell | c.owner == list
      ensures Spawned(list, base, lo, owner', ns + [at])
    {
      FreshMore(list.items, heap, next, base, lo, owner, ns, at);
      var r := NewNode(at, 0.0);
      list.AddNode(r, 0.0);
      owner' := owner[at := r];
    }

    /** One turn of genNeighbors' double loop. */
    method Consider(list: List, at: Cell, i: int, j: int, ghost base: Heap, ghost lo: Ref, ghost owner: map<Cell, Ref>,
                    ghost ns: seq<Cell>)
      returns (ghost owner': map<Cell, Ref>, ghost ns': seq<Cell>)
      requires chart.Valid() && Interior(chart.size, at) && Spawned(list, base, lo, owner, ns)
      requires -1 <= i <= 1 && -1 <= j <= 1 && Scanned(chart.Blocked(), at, i, j + 1, ns)
      modifies this`heap, this`next, list, iset c: ListCell | c.owner == list
      ensures Spawned(list, base, lo, owner', ns') && Scanned(chart.Blocked(), at, i, j + 2, ns')
    {
      ScanNext(chart.Blocked(), at, i, j + 1, ns);
      owner', ns' := owner, ns;
      var nx, ny := at.x + i, at.y + j;
      var free := false;
      if i == 0 && j == 0 {
      } else if i != 0 && j != 0 {
        if !chart.blocked[nx, ny] {
          free := !chart.blocked[nx, at.y] || !chart.blocked[at.x, ny];
        }
      } else {
        free := !chart.blocked[nx, ny];
      }
      assert free == Move(chart.Blocked(), at, Cell(nx, ny));
      if free {
        owner' := AddNeighbor(list, Cell(nx, ny), base, lo, owner, ns);
        ns' := ns + [Cell(nx, ny)];
      } else {
        assert ns + [] == ns;
      }
    }

    /** The inner loop of genNeighbors. */
    method GenRow(list: List, at: Cell, i: int, ghost base: Heap, ghost lo: Ref, ghost owner: map<Cell, Ref>, ghost ns: seq<Cell>)
      returns (ghost owner': map<Cell, Ref>, ghost ns': seq<Cell>)
      requires chart.Valid() && Interior(chart.size, at) && -1 <= i <= 1
      requires Spawned(list, base, lo, owner, ns) && Scanned(chart.Blocked(), at, i, 0, ns)
      modifies this`heap, this`next, list, iset c: ListCell | c.owner == list
      ensures Spawned(list, base, lo, owner', ns') && Scanned(chart.Blocked(), at, i + 1, 0, ns')
    {
      owner', ns' := owner, ns;
      for j := -1 to 2
        invariant Spawned(list, base, lo, owner', ns') && Scanned(chart.Blocked(), at, i, j + 1, ns')
      {
        owner', ns' := Consider(list, at, i, j, base, lo, owner', ns');
      }
      ScanRow(chart.Blocked(), at, i, ns');
    }

    method GenNeighbors(at: Cell) returns (list: List, ghost owner: map<Cell, Ref>)
      requires chart.Valid() && Interior(chart.size, at) && forall r :: r in heap ==> r < next
      modifies this`heap, this`next
      ensures fresh(list) && Spawned(list, old(heap), old(next), owner, Moves(chart.Blocked(), at))
      ensures forall c :: c in owner <==> Move(chart.Blocked(), at, c)
    {
      list := new List();
      owner := map[];
      assert Refs(list.items) == {};
      ghost var ns: seq<Cell> := [];
      ScanBegins(chart.Blocked(), at);
      for i := -1 to 2
        invariant Spawned(list, old(heap), old(next), owner, ns) && Scanned(chart.Blocked(), at, i, 0, ns)
      {
        owner, ns := GenRow(list, at, i, old(heap), old(next), owner, ns);
      }
      ScanEnds(chart.Blocked(), at, ns);
      assert Look(0);
    }

    // ---------------------------------------------------------------------------- the search

    ghost function Snap(open: List, closed: List, loose: set<Ref>, k: Known): Snapshot
      reads this, open, closed
    {
      Snapshot(heap, next, open.items, closed.items, loose, k)
    }

    /** Both lists are sound chains; the open one can be read through. */
    ghost predicate Lists(open: List, closed: List)
      reads open, open.cells, closed, closed.cells
    {
      open != closed && forall t {:trigger See(t)} :: See(t) ==>
        && open.Valid() && open.Tight() && open.first != null
        && closed.Valid() && closed.first != null
    }

    ghost predicate Running(p: Problem, open: List, closed: List, m: Tally)
      reads this, open, closed
    {
      Kept(p, Snap(open, closed, m.loose, m.k)) && Staged(Snap(open, closed, m.loose, m.k), m.st)
    }

    /** The moves from `at` to the cells in `todo` are still to be settled, all others are. */
    ghost predicate Exploring(w: World, k: Known, at: Cell, todo: set<Cell>)
      reads this
    {
      Open(w, heap, k, at, todo)
    }

    /** Links the new node `r` to the node `b` it was reached from and makes it the one open node of
        its cell. `nulled` tells that removing the cell's old node left a null list, which the original
        reads through in the next step; here the list is renewed first. */
    method Record(r: Ref, b: Ref, tentative: real, key: real, open: List) returns (nulled: bool)
      requires open.Valid() && open.Tight() && open.first != null
      requires Live(open.items, heap) && r in heap && r !in Refs(open.items)
      modifies this`heap, open, iset c: ListCell | c.owner == open
      ensures open.Valid() && open.Tight() && open.first != null
      ensures var node := Node(old(heap)[r].at, tentative, Some(b));
        var left := Superseded(old(heap)[r := node], old(open.items), node.at);
        heap == left.0 && open.items == Inserted(left.1, Item(r, key))
      ensures nulled <==> |old(open.items)| == 1 && old(heap)[old(open.items)[0].node].at == old(heap)[r].at
    {
      var at := heap[r].at;
      assert open.items != [] ==> open.items[0].node in Refs(open.items);
      heap := heap[r := Node(at, tentative, Some(b))];
      var removed := open.RemoveNode(heap, at);
      if removed.Some? {
        Free(removed.value);
      }
      nulled := open.first == null;
      if nulled {
        open.Renew();
      }
      open.AddNode(r, key);
    }

    /** The closed list is another chain. */
    method RecordBeside(r: Ref, b: Ref, tentative: real, key: real, open: List, ghost closed: List) returns (nulled: bool)
      requires Lists(open, closed)
      requires Live(open.items, heap) && r in heap && r !in Refs(open.items)
      modifies this`heap, open, iset c: ListCell | c.owner == open
      ensures Lists(open, closed)
      ensures var node := Node(old(heap)[r].at, tentative, Some(b));
        var left := Superseded(old(heap)[r := node], old(open.items), node.at);
        heap == left.0 && open.items == Inserted(left.1, Item(r, key))
      ensures nulled <==> |old(open.items)| == 1 && old(heap)[old(open.items)[0].node].at == old(heap)[r].at
    {
      assert See(0);
      nulled := Record(r, b, tentative, key, open);
      assert closed.Valid();
    }

    /** A neighbour that is closed, or open no dearer, is freed. */
    method Skip(r: Ref, b: Ref, open: List, closed: List, ghost p: Problem, ghost m: Tally, ghost todo: set<Cell>, ghost u: Entry)
      requires Lists(open, closed) && Running(p, open, closed, m) && r in m.loose && r in heap
      requires b in Refs(closed.items) && Stands(heap, b, u)
      requires p.w.start in m.k.closed && Exploring(p.w, m.k, u.at, todo)
      requires NoGain(p.w, heap, m.k, r, b)
      modifies this`heap
      ensures Lists(open, closed) && Running(p, open, closed, m.(loose := m.loose - {r}))
      ensures forall q :: q in m.loose && q != r ==> q in heap && q in old(heap) && heap[q] == old(heap)[q]
      ensures Stands(heap, b, u)
      ensures Exploring(p.w, m.k, u.at, todo - {old(heap)[r].at})
      ensures Relaxed(p.w, m.st, u, old(heap)[r].at, m.st, false)
    {
      ghost var s := Snap(open, closed, m.loose, m.k);
      Free(r);
      Dropping(p, s, m.st, r, b, u, todo, Snap(open, closed, m.loose - {r}, m.k));
    }

    /** A neighbour reached more cheaply than before is recorded. The list is null on the way exactly
        when its cell is the only open one. */
    method Improve(r: Ref, b: Ref, tentative: real, open: List, closed: List, ghost p: Problem, ghost m: Tally,
                   ghost todo: set<Cell>, ghost u: Entry) returns (ghost m': Tally, nulled: bool)
      requires Lists(open, closed) && Running(p, open, closed, m) && r in m.loose && r in heap
      requires b in Refs(closed.items) && Stands(heap, b, u) && r !in Refs(open.items)
      requires Terrain(p.w) && p.w.d == d && p.w.goal == goal && p.w.start in m.k.closed
      requires Move(p.w.blocked, u.at, heap[r].at) && Exploring(p.w, m.k, u.at, todo)
      requires tentative == heap[b].g + d(heap[r].at, heap[b].at) && heap[r].at !in m.k.closed && Live(open.items, heap)
      requires heap[r].at in m.k.open ==> m.k.open[heap[r].at] in heap && tentative < heap[m.k.open[heap[r].at]].g
      modifies this`heap, open, iset c: ListCell | c.owner == open
      ensures Lists(open, closed)
      ensures Running(p, open, closed, m') && m'.loose == m.loose - {r} && m'.k.closed == m.k.closed
      ensures Exploring(p.w, m'.k, u.at, todo - {old(heap)[r].at})
      ensures Relaxed(p.w, m.st, u, old(heap)[r].at, m'.st, nulled)
      ensures nulled <==> m.k.open.Keys == {old(heap)[r].at}
      ensures forall q :: q in m.loose && q != r ==> q in heap && q in old(heap) && heap[q] == old(heap)[q]
      ensures Stands(heap, b, u)
    {
      ghost var s, node := Snap(open, closed, m.loose, m.k), Node(heap[r].at, tentative, Some(b));
      var key := tentative + d(heap[r].at, goal);
      nulled := RecordBeside(r, b, tentative, key, open, closed);
      m' := Improved(p, s, m.st, r, b, node, key, u, todo, heap, open.items);
      assert Snap(open, closed, m'.loose, m'.k) == Snapshot(heap, s.hi, open.items, s.closed, m'.loose, m'.k);
    }

    /** Whether the neighbour `r` is worth recording: its cell is not closed, and not open already at
        the cost through `b` or less. */
    method Weigh(r: Ref, b: Ref, open: List, closed: List, ghost p: Problem, ghost m: Tally)
      returns (gain: bool, tentative: real)
      requires Lists(open, closed) && Running(p, open, closed, m) && r in m.loose && r in heap
      requires b in Refs(closed.items) && b in heap && p.w.d == d
      ensures r !in Refs(open.items) && Live(open.items, heap)
      ensures tentative == heap[b].g + d(heap[r].at, heap[b].at)
      ensures gain ==> heap[r].at !in m.k.closed
      ensures gain && heap[r].at in m.k.open ==> m.k.open[heap[r].at] in heap && tentative < heap[m.k.open[heap[r].at]].g
      ensures !gain ==> NoGain(p.w, heap, m.k, r, b)
    {
      assert See(0);
      var at := heap[r].at;
      Lookup(p, Snap(open, closed, m.loose, m.k), at);
      tentative := heap[b].g + d(at, heap[b].at);
      var explored := closed.FindNode(heap, at);
      gain := explored.None?;
      if gain {
        var other := open.FindNode(heap, at);
        gain := other.None? || tentative < heap[other.value].g;
      }
    }

    /** The body of the neighbour loop, for the neighbour `r` of the closed node `b`. */
    method Relax(r: Ref, b: Ref, open: List, closed: List, ghost p: Problem, ghost m: Tally, ghost todo: set<Cell>, ghost u: Entry)
      returns (ghost m': Tally, nulled: bool)
      requires Lists(open, closed) && Running(p, open, closed, m) && r in m.loose && r in heap
      requires b in Refs(closed.items) && Stands(heap, b, u)
      requires Terrain(p.w) && p.w.d == d && p.w.goal == goal && p.w.start in m.k.closed
      requires Move(p.w.blocked, u.at, heap[r].at) && Exploring(p.w, m.k, u.at, todo)
      modifies this`heap, open, iset c: ListCell | c.owner == open
      ensures Lists(open, closed)
      ensures Running(p, open, closed, m') && m'.loose == m.loose - {r} && m'.k.closed == m.k.closed
      ensures Exploring(p.w, m'.k, u.at, todo - {old(heap)[r].at})
      ensures Relaxed(p.w, m.st, u, old(heap)[r].at, m'.st, nulled)
      ensures forall q :: q in m.loose && q != r ==> q in heap && q in old(heap) && heap[q] == old(heap)[q]
      ensures Stands(heap, b, u)
    {
      var gain, tentative := Weigh(r, b, open, closed, p, m);
      if gain {
        m', nulled := Improve(r, b, tentative, open, closed, p, m, todo, u);
      } else {
        Skip(r, b, open, closed, p, m, todo, u);
        m', nulled := m.(loose := m.loose - {r}), false;
      }
    }

    /** The neighbours still to be looked at: the items, at the cells `ns`, one for each cell of `owner`. */
    ghost predicate Queued(rest: seq<Item>, b: Ref, owner: map<Cell, Ref>, ns: seq<Cell>, w: World, m: Tally, u: Entry)
      reads this
    {
      Waiting(rest, heap, owner, ns, w, m, u) && Stands(heap, b, u) && Exploring(w, m.k, u.at, owner.Keys)
    }

    /** One turn of the neighbour loop. */
    method RelaxNext(curr: Ref, ghost rest: seq<Item>, b: Ref, ghost owner: map<Cell, Ref>, ghost ns: seq<Cell>,
                     open: List, closed: List, ghost p: Problem, ghost m: Tally, ghost u: Entry)
      returns (ghost m': Tally, ghost owner': map<Cell, Ref>, nulled: bool)
      requires Lists(open, closed) && Running(p, open, closed, m) && b in Refs(closed.items)
      requires rest != [] && rest[0].node == curr && Queued(rest, b, owner, ns, p.w, m, u)
      requires Terrain(p.w) && p.w.d == d && p.w.goal == goal
      modifies this`heap, open, iset c: ListCell | c.owner == open
      ensures Lists(open, closed) && Running(p, open, closed, m') && m'.k.closed == m.k.closed
      ensures ns != [] && Queued(rest[1..], b, owner', ns[1..], p.w, m', u)
      ensures Relaxed(p.w, m.st, u, ns[0], m'.st, nulled) && m'.loose - Refs(rest[1..]) == m.loose - Refs(rest)
    {
      ghost var was := heap;
      WaitingHead(rest, heap, owner, ns, p.w, m, u);
      WaitingRefs(rest, heap, owner, ns, p.w, m, u);
      m', nulled := Relax(curr, b, open, closed, p, m, owner.Keys, u);
      owner' := WaitingNext(rest, was, heap, owner, ns, p.w, m, m', u);
    }

    /** Pops a list beside the two of the search. */
    method PopBeside(list: List, open: List, closed: List) returns (head: Option<Ref>)
      requires list != open && list != closed && list.Valid() && list.first != null && Lists(open, closed)
      modifies list
      ensures list.Valid() && list.first != null && Lists(open, closed) && Popping(old(list.items), 0, head, list.items)
    {
      head := list.Pop();
    }

    /** One turn, and the next neighbour. */
    method RelaxTurn(list: List, curr: Ref, ghost rest: seq<Item>, b: Ref, ghost owner: map<Cell, Ref>, ghost ns: seq<Cell>,
                     open: List, closed: List, ghost p: Problem, ghost m: Tally, ghost u: Entry)
      returns (next: Option<Ref>, ghost m': Tally, ghost owner': map<Cell, Ref>, nulled: bool)
      requires list != open && list != closed && list.Valid() && list.first != null
      requires Lists(open, closed) && Running(p, open, closed, m) && b in Refs(closed.items)
      requires rest != [] && rest[0].node == curr && list.items == rest[1..] && Queued(rest, b, owner, ns, p.w, m, u)
      requires Terrain(p.w) && p.w.d == d && p.w.goal == goal
      modifies this`heap, list, open, iset c: ListCell | c.owner == open
      ensures list.Valid() && list.first != null && Popping(rest[1..], 0, next, list.items)
      ensures Lists(open, closed) && Running(p, open, closed, m') && m'.k.closed == m.k.closed
      ensures ns != [] && Queued(rest[1..], b, owner', ns[1..], p.w, m', u)
      ensures Relaxed(p.w, m.st, u, ns[0], m'.st, nulled) && m'.loose - Refs(rest[1..]) == m.loose - Refs(rest)
    {
      m', owner', nulled := RelaxNext(curr, rest, b, owner, ns, open, closed, p, m, u);
      next := PopBeside(list, open, closed);
    }

    /** The neighbour loop: settles every move that there is a node for. */
    method RelaxAll(list: List, b: Ref, ghost owner: map<Cell, Ref>, ghost ns: seq<Cell>, open: List, closed: List,
                    ghost p: Problem, ghost m: Tally, ghost u: Entry) returns (ghost m': Tally, nulled: bool)
      requires list != open && list != closed && list.Valid() && list.first != null
      requires Lists(open, closed) && Running(p, open, closed, m) && b in Refs(closed.items)
      requires Queued(list.items, b, owner, ns, p.w, m, u) && Terrain(p.w) && p.w.d == d && p.w.goal == goal
      modifies this`heap, list, open, iset c: ListCell | c.owner == open
      ensures Lists(open, closed) && Running(p, open, closed, m') && m'.k.closed == m.k.closed
      ensures m'.loose == m.loose - Refs(old(list.items)) && Exploring(p.w, m'.k, u.at, {})
      ensures Course(p.w, u, m.st, ns, m'.st, [], nulled)
    {
      ghost var rest, left, todo := list.items, owner, ns;
      m', nulled := m, false;
      CourseBegins(p.w, u, m.st, ns);
      var curr := PopBeside(list, open, closed);
      while curr.Some?
        invariant list.Valid() && list.first != null && Popping(rest, 0, curr, list.items)
        invariant Lists(open, closed) && Running(p, open, closed, m') && m'.k.closed == m.k.closed
        invariant Queued(rest, b, left, todo, p.w, m', u)
        invariant m'.loose - Refs(rest) == m.loose - Refs(old(list.items))
        invariant Course(p.w, u, m.st, ns, m'.st, todo, nulled)
        decreases |rest|
      {
        ghost var st := m'.st;
        var met;
        curr, m', left, met := RelaxTurn(list, curr.value, rest, b, left, todo, open, closed, p, m', u);
        CourseNext(p.w, u, m.st, ns, st, todo, nulled, m'.st, met);
        nulled := nulled || met;
        rest, todo := rest[1..], todo[1..];
      }
      NoneWaiting(rest, heap, left, todo, p.w, m', u);
    }

    /** Adds to either list of the search. */
    method OpenNode(open: List, closed: List, node: Ref, key: real)
      requires Lists(open, closed)
      modifies open, iset c: ListCell | c.owner == open
      ensures Lists(open, closed) && open.items == Inserted(old(open.items), Item(node, key))
    {
      assert See(0);
      open.AddNode(node, key);
      assert closed.Valid();
    }

    method CloseNode(closed: List, open: List, node: Ref, key: real)
      requires Lists(open, closed)
      modifies closed, iset c: ListCell | c.owner == closed
      ensures Lists(open, closed) && closed.items == Inserted(old(closed.items), Item(node, key))
    {
      assert See(0);
      closed.AddNode(node, key);
      assert open.Valid();
    }

    /** The first node to be closed is the start's. */
    ghost predicate StartFirst(w: World, k: Known) {
      w.start in k.closed || k.open.Keys == {w.start}
    }

    /** The state with the head `was[0]` of the open list popped but not yet closed. */
    ghost predicate Holding(was: seq<Item>, open: List, closed: List, p: Problem, m: Tally)
      reads this, open, closed
    {
      var s := Snapshot(heap, next, was, closed.items, m.loose, m.k);
      was != [] && open.items == was[1..] && Kept(p, s) && Staged(s, m.st)
    }

    /** Makes the neighbours' nodes beside the two lists of the search. */
    method NeighborsBeside(at: Cell, open: List, closed: List) returns (list: List, ghost owner: map<Cell, Ref>)
      requires chart.Valid() && Interior(chart.size, at) && (forall r :: r in heap ==> r < next) && Lists(open, closed)
      modifies this`heap, this`next
      ensures fresh(list) && list.Valid() && list.first != null && Lists(open, closed)
      ensures Fresh(list.items, heap, next, old(heap), old(next), owner, Moves(chart.Blocked(), at))
      ensures forall c :: c in owner <==> Move(chart.Blocked(), at, c)
    {
      list, owner := GenNeighbors(at);
    }

    /** Closes the popped node and makes nodes for its neighbours. `was` is the open list before the
        pop. */
    method CloseAndSpawn(current: Ref, ghost was: seq<Item>, open: List, closed: List, ghost p: Problem, ghost m: Tally)
      returns (list: List, ghost owner: map<Cell, Ref>, ghost u: Entry, ghost m': Tally)
      requires chart.Valid() && p.w == World() && Terrain(p.w) && Lists(open, closed)
      requires Holding(was, open, closed, p, m) && current == was[0].node
      requires Exploring(p.w, m.k, p.w.start, {}) && StartFirst(p.w, m.k)
      modifies this`heap, this`next, closed, iset c: ListCell | c.owner == closed
      ensures fresh(list) && list.Valid() && list.first != null && Lists(open, closed)
      ensures m.st.open != [] && u == m.st.open[0] && u.at in m.k.open && u.at !in m.k.closed && Interior(chart.size, u.at)
      ensures m' == Tally(m.loose + Refs(list.items), Closing(m.k, u.at), Closed(m.st)) && m.loose !! Refs(list.items)
      ensures Running(p, open, closed, m') && current in Refs(closed.items)
      ensures Queued(list.items, current, owner, Moves(p.w.blocked, u.at), p.w, m', u)
    {
      ghost var s := Snapshot(heap, next, was, closed.items, m.loose, m.k);
      u := Popped(p, s, m.st);
      var at := heap[current].at;
      var key := d(at, goal);
      CloseNode(closed, open, current, key);
      list, owner := NeighborsBeside(at, open, closed);
      m' := Tally(m.loose + Refs(list.items), Closing(m.k, u.at), Closed(m.st));
      Spawning(p, s, m.st, key, list.items, owner, u, Snap(open, closed, m'.loose, m'.k));
    }

    /** Closes the popped node and relaxes its neighbours. */
    method Expand(current: Ref, ghost was: seq<Item>, open: List, closed: List, ghost p: Problem, ghost m: Tally)
      returns (ghost m': Tally, nulled: bool)
      requires chart.Valid() && p.w == World() && Terrain(p.w) && Lists(open, closed)
      requires Holding(was, open, closed, p, m) && current == was[0].node
      requires Exploring(p.w, m.k, p.w.start, {}) && StartFirst(p.w, m.k)
      modifies this`heap, this`next, open, closed, iset c: ListCell | c.owner == open || c.owner == closed
      ensures Lists(open, closed) && Running(p, open, closed, m') && m'.loose == m.loose
      ensures Exploring(p.w, m'.k, p.w.start, {}) && StartFirst(p.w, m'.k)
      ensures m.st.open != [] && m.st.open[0].at !in m.k.closed && Interior(chart.size, m.st.open[0].at)
      ensures m'.k.closed.Keys == m.k.closed.Keys + {m.st.open[0].at}
      ensures Turned(p.w, m.st, m'.st, nulled)
    {
      var list, owner, u, m1 := CloseAndSpawn(current, was, open, closed, p, m);
      m', nulled := RelaxAll(list, current, owner, Moves(p.w.blocked, u.at), open, closed, p, m1, u);
      AtRest(p.w, heap, m'.k, u.at);
      Turns(p.w, m.st, u, m'.st, nulled);
    }

    // ------------------------------------------------------------------------- the end of it

    /** Follows the back links from `current` and pushes each node, so that the path list begins at
        the start. */
    method Extract(current: Ref, ghost closed: set<Ref>, ghost routes: map<Ref, seq<Cell>>)
      requires goalPath.Valid() && goalPath.items == []
      requires AllSpelled(heap, closed, current, routes) && current in routes && routes[current] != []
      modifies goalPath
      ensures goalPath.Valid() && goalPath.first != null
      ensures Linked(goalPath.items, heap) && Distinct(goalPath.items) && Live(goalPath.items, heap)
      ensures current in routes && Cells(goalPath.items, heap) == routes[current]
      ensures current in Refs(goalPath.items) && Refs(goalPath.items) <= closed + {current}
      ensures goalPath.items != [] && goalPath.items[|goalPath.items| - 1].node == current
    {
      ghost var route, pool, m := routes[current], closed + {current}, |routes[current]|;
      var cur := Some(current);
      while cur.Some?
        invariant goalPath.Valid() && (goalPath.items != [] ==> goalPath.first != null)
        invariant 0 <= m <= |route| && Tail(goalPath.items, heap, pool, routes, route, m)
        invariant cur.Some? ==> m > 0 && cur.value in pool && cur.value in routes && routes[cur.value] == route[..m]
        invariant cur.None? ==> m == 0
        invariant if goalPath.items == [] then cur == Some(current)
                  else goalPath.items[|goalPath.items| - 1].node == current && heap[goalPath.items[0].node].back == cur
        decreases m
      {
        SpelledBack(heap, closed, current, routes, route, m, cur.value);
        TailPushed(goalPath.items, heap, pool, routes, route, m, cur.value);
        goalPath.Push(cur.value);
        cur := heap[cur.value].back;
        m := m - 1;
      }
      TailWhole(goalPath.items, heap, pool, routes, route);
      assert goalPath.items[|goalPath.items| - 1].node in Refs(goalPath.items);
    }

    /** Frees the node that was only compared with and the old path, and extracts the new one. */
    method Renew(current: Ref, goalNode: Ref, ghost base: Heap, ghost unseen: set<Ref>, ghost shut: set<Ref>,
                 ghost routes: map<Ref, seq<Cell>>)
      requires goalPath.Valid() && goalPath.first != null && Live(goalPath.items, base) && Distinct(goalPath.items)
      requires goalNode in heap && Live(goalPath.items, heap - {goalNode}) && Refs(goalPath.items) <= base.Keys
      requires Found(heap, base, current, goalNode, unseen, shut, routes)
      modifies this`heap, goalPath
      ensures goalPath.Valid() && goalPath.first != null
      ensures heap == old(heap) - ({goalNode} + Refs(old(goalPath.items)))
      ensures Linked(goalPath.items, heap) && Distinct(goalPath.items) && Live(goalPath.items, heap)
      ensures current in routes && Cells(goalPath.items, heap) == routes[current]
      ensures current in Refs(goalPath.items) && Refs(goalPath.items) <= shut + {current}
      ensures goalPath.items != [] && goalPath.items[|goalPath.items| - 1].node == current
    {
      ghost var was, stale := heap, Refs(goalPath.items);
      Free(goalNode);
      EraseList(goalPath);
      assert heap == was - ({goalNode} + stale);
      FoundSpelled(was, base, current, goalNode, unseen, shut, routes, stale);
      Extract(current, shut, routes);
    }

    /** The path list is a third chain. */
    ghost predicate Apart(open: List, closed: List)
      reads goalPath, goalPath.cells
    {
      goalPath != open && goalPath != closed && goalPath.Valid() && goalPath.first != null
    }

    method RenewBeside(current: Ref, goalNode: Ref, ghost base: Heap, open: List, closed: List, ghost routes: map<Ref, seq<Cell>>)
      requires Lists(open, closed) && Apart(open, closed) && Live(goalPath.items, base) && Distinct(goalPath.items)
      requires goalNode in heap && Live(goalPath.items, heap - {goalNode}) && Refs(goalPath.items) <= base.Keys
      requires Found(heap, base, current, goalNode, Refs(open.items), Refs(closed.items), routes)
      modifies this`heap, goalPath
      ensures Lists(open, closed) && Apart(open, closed)
      ensures heap == old(heap) - ({goalNode} + Refs(old(goalPath.items)))
      ensures Linked(goalPath.items, heap) && Distinct(goalPath.items) && Live(goalPath.items, heap)
      ensures current in routes && Cells(goalPath.items, heap) == routes[current]
      ensures current in Refs(goalPath.items) && Refs(goalPath.items) <= Refs(closed.items) + {current}
      ensures goalPath.items != [] && goalPath.items[|goalPath.items| - 1].node == current
    {
      Renew(current, goalNode, base, Refs(open.items), Refs(closed.items), routes);
    }

    /** Frees the open nodes, and the closed ones that are not on the path. */
    method Sweep(open: List, closed: List)
      requires Lists(open, closed) && Apart(open, closed)
      requires Live(open.items, heap) && Distinct(open.items) && Distinct(closed.items)
      requires Live(closed.items, heap - Refs(open.items)) && Live(goalPath.items, heap - Refs(open.items))
      requires var h := heap - Refs(open.items);
        forall r, q :: r in Refs(closed.items) && q in Refs(goalPath.items) && h[r].at == h[q].at ==> r == q
      modifies this`heap, open, closed
      ensures goalPath.Valid() && goalPath.first != null
      ensures heap == old(heap) - Refs(old(open.items)) - (Refs(old(closed.items)) - Refs(goalPath.items))
    {
      assert See(0);
      EraseList(open);
      assert closed.Valid() && goalPath.Valid();
      EraseAllButList(closed, goalPath);
    }

    /** The found branch of command: the path list is renewed and every other node of the search is
        freed. */
    method Finish(current: Ref, goalNode: Ref, ghost base: Heap, open: List, closed: List, ghost routes: map<Ref, seq<Cell>>)
      requires Lists(open, closed) && Apart(open, closed)
      requires Live(goalPath.items, base) && Distinct(goalPath.items)
      requires Distinct(open.items) && Distinct(closed.items)
      requires Found(heap, base, current, goalNode, Refs(open.items), Refs(closed.items), routes)
      modifies this`heap, open, closed, goalPath
      ensures goalPath.Valid() && goalPath.first != null
      ensures Linked(goalPath.items, heap) && Distinct(goalPath.items) && Live(goalPath.items, heap)
      ensures current in routes && Cells(goalPath.items, heap) == routes[current]
      ensures goalPath.items != [] && goalPath.items[|goalPath.items| - 1].node == current
      ensures heap.Keys == base.Keys - Refs(old(goalPath.items)) + Refs(goalPath.items)
      ensures Refs(goalPath.items) !! base.Keys && forall r :: r in heap ==> r in old(heap) && heap[r] == old(heap)[r]
    {
      ghost var was, stale, shut, unseen := heap, Refs(goalPath.items), Refs(closed.items), Refs(open.items);
      FoundLists(heap, base, current, goalNode, goalPath.items, open.items, closed.items, routes);
      RenewBeside(current, goalNode, base, open, closed, routes);
      ghost var path, left := goalPath.items, heap;
      FoundOpen(was, base, current, goalNode, stale, open.items, shut, routes);
      FoundIdentity(was, base, current, goalNode, path, stale, unseen, closed.items, routes, left);
      Sweep(open, closed);
      FoundKept(was, base, current, goalNode, path, stale, unseen, shut, routes, left, heap);
    }

    /** What the search comes to, against the heap `base` and the path `path0` before it. */
    ghost predicate Outcome(solution: bool, reached: set<Cell>, p: Problem, path0: seq<Item>)
      reads this, goalPath
    {
      && (solution <==> Reachable(p.w, p.w.goal))
      && (solution ==>
            && Spells(goalPath.items, heap, p.w) && Linked(goalPath.items, heap)
            && heap.Keys == p.base.Keys - Refs(path0) + Refs(goalPath.items) && Refs(goalPath.items) !! p.base.Keys)
      && (!solution ==>
            && goalPath.items == path0 && p.base.Keys <= heap.Keys && |heap.Keys - p.base.Keys| == |reached| + 1
            && forall c :: c in reached <==> Reachable(p.w, c))
      && (forall r :: r in heap && r in p.base ==> heap[r] == p.base[r])
    }

    /** The search is over, and the state is good for the next one. */
    ghost predicate Ended(solution: bool, reached: set<Cell>, p: Problem, path0: seq<Item>)
      reads this, goalPath, goalPath.cells
    {
      forall t {:trigger Look(t)} :: Look(t) ==>
        && Outcome(solution, reached, p, path0) && goalPath.Valid() && goalPath.first != null
        && Distinct(goalPath.items) && Live(goalPath.items, heap) && forall r :: r in heap ==> r < next
    }

    lemma Ends(solution: bool, reached: set<Cell>, p: Problem, path0: seq<Item>)
      requires Outcome(solution, reached, p, path0) && goalPath.Valid() && goalPath.first != null
      requires Distinct(goalPath.items) && Live(goalPath.items, heap) && forall r :: r in heap ==> r < next
      ensures Ended(solution, reached, p, path0)
    {
    }

    /** The popped node is the goal's: the path list is renewed. */
    method Conclude(current: Ref, goalNode: Ref, ghost was: seq<Item>, open: List, closed: List, ghost p: Problem, ghost m: Tally)
      requires Lists(open, closed) && Apart(open, closed) && Terrain(p.w)
      requires Live(goalPath.items, p.base) && Distinct(goalPath.items)
      requires Holding(was, open, closed, p, m) && current == was[0].node && current in heap && heap[current].at == p.w.goal
      requires m.loose == {goalNode} && Exploring(p.w, m.k, p.w.start, {})
      modifies this`heap, open, closed, goalPath
      ensures Ended(true, {}, p, old(goalPath.items))
    {
      ghost var s := Snapshot(heap, next, was, closed.items, m.loose, m.k);
      GoalOptimal(p, s);
      assert Reachable(p.w, p.w.goal);
      AtGoal(p, s, goalNode);
      Finish(current, goalNode, p.base, open, closed, m.k.routes);
      Ends(true, {}, p, old(goalPath.items));
    }

    /** The open list is empty: there is no route to the goal. */
    lemma Stuck(open: List, closed: List, p: Problem, m: Tally, goalNode: Ref)
      requires Running(p, open, closed, m) && Exploring(p.w, m.k, p.w.start, {}) && open.items == []
      requires m.loose == {goalNode} && p.w.goal !in m.k.closed && Apart(open, closed)
      requires Live(goalPath.items, p.base) && Distinct(goalPath.items)
      ensures Ended(false, m.k.closed.Keys, p, goalPath.items)
    {
      NoneLeft(p, Snap(open, closed, m.loose, m.k), goalNode);
      Ends(false, m.k.closed.Keys, p, goalPath.items);
    }

    /** What does not change during a search. */
    ghost predicate Steady(open: List, closed: List, p: Problem)
      requires chart.Valid()
      reads this`pose, this`goal, goalPath, goalPath.cells, chart.blocked
    {
      forall t {:trigger See(t)} :: See(t) ==>
        && p.w == World() && Terrain(p.w) && Apart(open, closed)
        && Live(goalPath.items, p.base) && Distinct(goalPath.items)
    }

    lemma SteadyParts(open: List, closed: List, p: Problem)
      requires chart.Valid() && Steady(open, closed, p)
      ensures p.w == World() && Terrain(p.w) && Apart(open, closed)
      ensures Live(goalPath.items, p.base) && Distinct(goalPath.items)
    {
      assert See(0);
    }

    /** What holds at the head of the main loop. */
    ghost predicate Looping(goalNode: Ref, open: List, closed: List, p: Problem, m: Tally)
      reads this, open, open.cells, closed, closed.cells, goalPath, goalPath.cells, chart.blocked
    {
      && chart.Valid() && Steady(open, closed, p) && p.w.goal == goal && Lists(open, closed)
      && m.loose == {goalNode} && Running(p, open, closed, m) && Exploring(p.w, m.k, p.w.start, {}) && StartFirst(p.w, m.k)
      && goal !in m.k.closed && m.k.closed.Keys <= Inside(chart.size)
    }

    /** The head of the open list, or none when it is empty. */
    method PopOpen(open: List, closed: List, ghost p: Problem, ghost m: Tally) returns (current: Option<Ref>)
      requires Lists(open, closed) && Running(p, open, closed, m)
      modifies open
      ensures Lists(open, closed)
      ensures if old(open.items) == [] then current == None && Running(p, open, closed, m) && open.items == []
              else Holding(old(open.items), open, closed, p, m) && current == Some(old(open.items)[0].node)
    {
      assert See(0);
      current := open.Pop();
      assert closed.Valid();
    }

    /** The popped node is not the goal's: the search goes on. */
    method Proceed(current: Ref, goalNode: Ref, ghost was: seq<Item>, open: List, closed: List, ghost p: Problem, ghost m: Tally)
      returns (nulled: bool, ghost m': Tally)
      requires chart.Valid() && Steady(open, closed, p) && p.w.goal == goal && Lists(open, closed) && m.loose == {goalNode}
      requires Holding(was, open, closed, p, m) && current == was[0].node && current in heap && heap[current].at != goal
      requires Exploring(p.w, m.k, p.w.start, {}) && StartFirst(p.w, m.k)
      requires goal !in m.k.closed && m.k.closed.Keys <= Inside(chart.size)
      requires m.st.open != [] && m.st.open[0].at == heap[current].at
      modifies this`heap, this`next, open, closed, iset c: ListCell | c.owner == open || c.owner == closed
      ensures Looping(goalNode, open, closed, p, m') && m.k.closed.Keys < m'.k.closed.Keys
      ensures Turned(p.w, m.st, m'.st, nulled)
    {
      SteadyParts(open, closed, p);
      m', nulled := Expand(current, was, open, closed, p, m);
      InsideIs(chart.size, m.st.open[0].at);
    }

    /** A node was popped: the search ends with it or goes on. */
    method TakeHead(current: Ref, goalNode: Ref, ghost was: seq<Item>, open: List, closed: List, ghost p: Problem, ghost m: Tally)
      returns (found: bool, nulled: bool, ghost m': Tally)
      requires chart.Valid() && Steady(open, closed, p) && p.w.goal == goal && Lists(open, closed) && m.loose == {goalNode}
      requires Holding(was, open, closed, p, m) && current == was[0].node && current in heap
      requires Exploring(p.w, m.k, p.w.start, {}) && StartFirst(p.w, m.k)
      requires goal !in m.k.closed && m.k.closed.Keys <= Inside(chart.size)
      requires m.st.open != [] && m.st.open[0].at == heap[current].at
      modifies this`heap, this`next, open, closed, goalPath, iset c: ListCell | c.owner == open || c.owner == closed
      ensures !found ==> Looping(goalNode, open, closed, p, m') && m.k.closed.Keys < m'.k.closed.Keys
      ensures !found ==> goalPath.items == old(goalPath.items) && Continues(p.w, m.st) && Turned(p.w, m.st, m'.st, nulled)
      ensures found ==> Ended(true, {}, p, old(goalPath.items)) && !Continues(p.w, m.st) && !nulled && m' == m
    {
      SteadyParts(open, closed, p);
      found := heap[current].at == goal;
      if found {
        Conclude(current, goalNode, was, open, closed, p, m);
        nulled, m' := false, m;
      } else {
        nulled, m' := Proceed(current, goalNode, was, open, closed, p, m);
      }
    }

    /** One turn of the main loop: it ends the search or closes one more cell of the grid. */
    method Turn(goalNode: Ref, open: List, closed: List, ghost p: Problem, ghost m: Tally)
      returns (done: bool, solution: bool, nulled: bool, ghost reached: set<Cell>, ghost m': Tally)
      requires Looping(goalNode, open, closed, p, m)
      modifies this`heap, this`next, open, closed, goalPath, iset c: ListCell | c.owner == open || c.owner == closed
      ensures !done ==> Looping(goalNode, open, closed, p, m') && m.k.closed.Keys < m'.k.closed.Keys
      ensures !done ==> goalPath.items == old(goalPath.items) && Continues(p.w, m.st) && Turned(p.w, m.st, m'.st, nulled)
      ensures done ==> Ended(solution, reached, p, old(goalPath.items)) && !Continues(p.w, m.st) && !nulled && m' == m
    {
      ghost var s := Snap(open, closed, m.loose, m.k);
      SteadyParts(open, closed, p);
      var current := PopOpen(open, closed, p, m);
      solution, nulled, reached, m' := false, false, {}, m;
      if current.None? {
        StageEmpty(p, s, m.st);
        SteadyParts(open, closed, p);
        Stuck(open, closed, p, m, goalNode);
        done, reached := true, m.k.closed.Keys;
      } else {
        ghost var u := Popped(p, s, m.st);
        solution, nulled, m' := TakeHead(current.value, goalNode, s.open, open, closed, p, m);
        done := solution;
      }
    }

    /** The main loop. */
    method Search(goalNode: Ref, open: List, closed: List, ghost p: Problem, ghost m0: Tally)
      returns (solution: bool, nulled: bool, ghost reached: set<Cell>)
      requires Looping(goalNode, open, closed, p, m0) && m0.st == Begins(p.w)
      modifies this`heap, this`next, open, closed, goalPath, iset c: ListCell | c.owner == open || c.owner == closed
      ensures Ended(solution, reached, p, old(goalPath.items))
      ensures nulled <==> Crashes(p.w)
    {
      ghost var m, path0, tr := m0, goalPath.items, [m0.st];
      var done := false;
      solution, nulled, reached := false, false, {};
      CourseStarts(p.w);
      while !done
        invariant if done then Ended(solution, reached, p, path0) && !Continues(p.w, m.st)
                  else Looping(goalNode, open, closed, p, m) && goalPath.items == path0
        invariant Ran(p.w, tr, m.st, nulled)
        decreases !done, Inside(chart.size) - m.k.closed.Keys
      {
        ghost var st := m.st;
        var met;
        done, solution, met, reached, m := Turn(goalNode, open, closed, p, m);
        if !done {
          tr := TraceGrows(p.w, tr, st, nulled, m.st, met);
        }
        nulled := nulled || met;
      }
      TraceTold(p.w, tr, m.st, nulled);
    }

    method NewLists() returns (open: List, closed: List)
      ensures fresh(open) && fresh(closed) && Lists(open, closed) && open.items == closed.items == []
    {
      closed := new List();
      open := new List();
      assert closed.Valid();
    }

    lemma Steadily(open: List, closed: List, p: Problem)
      requires Valid() && p.w == World() && p.base == heap && Terrain(p.w) && goalPath != open && goalPath != closed
      ensures Steady(open, closed, p)
    {
    }

    /** The start's node goes to the open list; another is made to compare with. */
    method Seed(open: List, closed: List, ghost p: Problem) returns (goalNode: Ref, ghost m: Tally)
      requires Lists(open, closed) && open.items == closed.items == [] && Terrain(p.w)
      requires p.base == heap && p.lo == next && (forall r :: r in heap ==> r < next)
      requires p.w.start == pose && p.w.goal == goal && p.w.d == d
      modifies this`heap, this`next, open, iset c: ListCell | c.owner == open
      ensures Lists(open, closed) && Running(p, open, closed, m) && Exploring(p.w, m.k, p.w.start, {})
      ensures m.loose == {goalNode} && m.st == Begins(p.w) && m.k.closed == map[] && m.k.open.Keys == {p.w.start}
    {
      var first := NewNode(pose, 0.0);
      var key := d(pose, goal);
      OpenNode(open, closed, first, key);
      goalNode := NewNode(goal, 0.0);
      assert open.items == [Item(first, key)];
      m := Begun(p, first, goalNode, key, Snap(open, closed, {goalNode}, StartKnown(p.w, first)));
    }

    /** An open list with the start's node, an empty closed list, and a node to compare with. */
    method Start(ghost p: Problem) returns (goalNode: Ref, open: List, closed: List, ghost m: Tally)
      requires Valid() && p == Problem(World(), heap, next) && Terrain(p.w)
      modifies this`heap, this`next
      ensures fresh(open) && fresh(closed) && m.st == Begins(p.w)
      ensures Looping(goalNode, open, closed, p, m)
    {
      open, closed := NewLists();
      Steadily(open, closed, p);
      goalNode, m := Seed(open, closed, p);
    }

    /** The whole search. A solution is found exactly when there is a route; then the path list spells
        a legal route from pose to goal whose cost is the goal node's and that no route undercuts, and
        of all nodes made only those on it are left. Without a solution the path list stays, and what
        the search leaves behind is one node for each reachable cell and the goal's. `nulled` tells,
        for every map, whether the list was ever null when a node was to be added. Where it was not,
        this is the outcome of the program as it is written; where it was, the program reads through
        a null pointer there, and this is its outcome with the list renewed. */
    method Command() returns (solution: bool, nulled: bool, ghost reached: set<Cell>)
      requires Valid() && Contained(World()) && Metric(d)
      modifies this`heap, this`next, goalPath
      ensures Valid()
      ensures Outcome(solution, reached, Problem(World(), old(heap), old(next)), old(goalPath.items))
      ensures nulled <==> Crashes(World())
    {
      Grounded(World());
      solution, nulled, reached := Plan(Problem(World(), heap, next));
      Concluded(solution, reached, Problem(World(), old(heap), old(next)), old(goalPath.items));
    }

    method Plan(ghost p: Problem) returns (solution: bool, nulled: bool, ghost reached: set<Cell>)
      requires Valid() && p == Problem(World(), heap, next) && Terrain(p.w)
      modifies this`heap, this`next, goalPath
      ensures Ended(solution, reached, p, old(goalPath.items)) && (nulled <==> Crashes(p.w))
    {
      var goalNode, open, closed, m := Start(p);
      solution, nulled, reached := Search(goalNode, open, closed, p, m);
    }

    lemma Concluded(solution: bool, reached: set<Cell>, p: Problem, path0: seq<Item>)
      requires Ended(solution, reached, p, path0)
      ensures Outcome(solution, reached, p, path0) && goalPath.Valid() && goalPath.first != null
      ensures Distinct(goalPath.items) && Live(goalPath.items, heap) && forall r :: r in heap ==> r < next
    {
      assert Look(0);
    }

    // ------------------------------------------------------------------------------ enterLoop

    /** The world once the next update is taken off the wire. */
    ghost function Updated(wire: seq<int>): World
      requires chart.Valid() && chart.Fits(wire)
      reads this, chart, chart.blocked, chart.obsX, chart.obsY
    {
      SearchState.World(chart.Blocked() + (set c | c in chart.Marks(wire)), d,
                        if |wire| >= HEADER then Cell(wire[0], wire[1]) else chart.sentPose, goal, chart.size)
    }

    /** The update lists obstacles, so the planner searches anew. */
    ghost predicate Replans(wire: seq<int>)
      reads chart
    {
      (Decode(wire).Decoded? || Truncated(wire)) && (if |wire| >= HEADER then wire[2] > 0 else chart.sentCount > 0)
    }

    /** Takes an update off the wire: the map and the pose change, and with new obstacles there is a new
        search on the new map. */
    method HandleUpdate(wire: seq<int>) returns (rest: seq<int>, planned: bool, solution: bool, nulled: bool, ghost reached: set<Cell>)
      requires Valid() && chart.Fits(wire) && chart.OnChart(chart.Marks(wire))
      requires Replans(wire) ==> Contained(Updated(wire)) && Metric(d)
      modifies this, chart, chart.blocked, chart.obsX, chart.obsY, goalPath
      ensures Valid() && rest == Decode(wire).rest && goal == old(goal)
      ensures chart.Blocked() == old(chart.Blocked()) + set c | c in old(chart.Marks(wire))
      ensures chart.sentCount == if |wire| >= HEADER then wire[2] else old(chart.sentCount)
      ensures pose == if !Decode(wire).Decoded? && !Truncated(wire) then old(pose)
                      else if |wire| >= HEADER then Cell(wire[0], wire[1]) else old(chart.sentPose)
      ensures planned <==> old(Replans(wire))
      ensures planned ==> World() == old(Updated(wire)) && (nulled <==> Crashes(World()))
      ensures planned ==> Outcome(solution, reached, Problem(World(), old(heap), old(next)), old(goalPath.items))
    {
      planned, solution, nulled, reached := false, false, false, {};
      var taken, left := chart.Receive(wire);
      rest := left;
      if taken {
        pose := chart.sentPose;
        if chart.sentCount > 0 {
          planned := true;
          solution, nulled, reached := Command();
        }
      }
    }
  }

  /** `curr` is the item `done` of those that were in the list, and the list holds what follows it. */
  ghost predicate Popping(all: seq<Item>, done: nat, curr: Option<Ref>, left: seq<Item>) {
    && done <= |all|
    && if done == |all| then curr == None && left == [] else curr == Some(all[done].node) && left == all[done + 1..]
  }

  /** The next of distinct nodes is not among the first. */
  lemma RefsNext(all: seq<Item>, done: nat)
    requires done < |all| && Distinct(all)
    ensures all[done].node !in Refs(all[..done]) && all[done].node in Refs(all)
    ensures Refs(all[..done + 1]) == Refs(all[..done]) + {all[done].node}
  {
    assert all[..done + 1][done] == all[done];
    assert forall i :: 0 <= i < done ==> all[..done + 1][i] == all[..done][i];
  }

  /** Where coordinates identify nodes, a node's coordinates are found exactly where the node is. */
  lemma Saved(save: seq<Item>, heap: Heap, r: Ref)
    requires Live(save, heap) && r in heap
    requires forall q :: q in Refs(save) && heap[r].at == heap[q].at ==> r == q
    ensures FoundAt(save, heap, heap[r].at).None? <==> r !in Refs(save)
  {
    var k := Find(save, heap, heap[r].at);
    assert k < |save| ==> save[k].node in Refs(save);
  }

  /** The heap when the first `done` nodes have been freed, but for those of `save`. */
  ghost function Erased(heap: Heap, all: seq<Item>, done: nat, save: seq<Item>): Heap
    requires done <= |all|
  {
    heap - (Refs(all[..done]) - Refs(save))
  }

  lemma ErasedNext(heap: Heap, all: seq<Item>, done: nat, save: seq<Item>)
    requires done < |all| && Distinct(all) && Live(all, heap) && Live(save, heap)
    requires forall r, q :: r in Refs(all) && q in Refs(save) && heap[r].at == heap[q].at ==> r == q
    ensures var h, r := Erased(heap, all, done, save), all[done].node;
      && Live(save, h) && r in h && (forall q :: q in Refs(save) ==> q in h && (h[r].at == h[q].at ==> r == q))
      && Erased(heap, all, done + 1, save) == h - ({r} - Refs(save))
  {
    RefsNext(all, done);
    assert forall i :: 0 <= i < |save| ==> save[i].node in Refs(save);
  }

  /** The neighbour `r` of `b` is at a closed cell, or at one open no dearer. */
  ghost predicate NoGain(w: World, heap: Heap, k: Known, r: Ref, b: Ref) {
    forall t {:trigger Look(t)} :: Look(t) ==>
      && r in heap && b in heap
      && (heap[r].at in k.closed || (heap[r].at in k.open && k.open[heap[r].at] in heap
            && heap[k.open[heap[r].at]].g <= heap[b].g + w.d(heap[r].at, heap[b].at)))
  }

  lemma Dropping(p: Problem, s: Snapshot, st: Stage, r: Ref, b: Ref, u: Entry, todo: set<Cell>, s': Snapshot)
    requires Kept(p, s) && Staged(s, st) && r in s.loose && r in s.heap && b in Refs(s.closed) && Stands(s.heap, b, u)
    requires p.w.start in s.k.closed && Open(p.w, s.heap, s.k, u.at, todo)
    requires NoGain(p.w, s.heap, s.k, r, b) && s' == Freed(s, r)
    ensures Kept(p, s') && Staged(s', st) && Open(p.w, s'.heap, s.k, u.at, todo - {s.heap[r].at})
    ensures Relaxed(p.w, st, u, s.heap[r].at, st, false) && r != b && forall q :: q in s.loose ==> q in s.heap
  {
    assert Look(0);
    RelaxedDropped(p, s, r, b, todo);
    StageDropped(p, s, r, b, u);
  }

  lemma ImprovedSound(p: Problem, s: Snapshot, r: Ref, b: Ref, node: Node, key: real, todo: set<Cell>, heap: Heap, open: seq<Item>)
    requires Kept(p, s) && Terrain(p.w) && Offered(p, s, r, b, node)
    requires p.w.start in s.k.closed && Open(p.w, s.heap, s.k, s.heap[b].at, todo)
    requires node.at in s.k.open ==> s.k.open[node.at] in s.heap && node.g < s.heap[s.k.open[node.at]].g
    requires key == node.g + p.w.d(node.at, p.w.goal) && Live(s.open, s.heap[r := node])
    requires heap == Superseded(s.heap[r := node], s.open, node.at).0
    requires open == Inserted(Superseded(s.heap[r := node], s.open, node.at).1, Item(r, key))
    ensures b in s.k.routes && heap == Renewed(s.heap, r, node, Replaced(s.k.open, node.at)) && r in heap && heap[r] == node
    ensures Kept(p, Snapshot(heap, s.hi, open, s.closed, s.loose - {r}, Linking(s.k, r, b, node.at)))
    ensures Open(p.w, heap, Linking(s.k, r, b, node.at), s.heap[b].at, todo - {node.at})
  {
    assert Look(0);
    assert Traced(p.w, s.heap, Refs(s.closed), s.k.routes, b);
    RelaxedRecorded(p.w, s.heap, Refs(s.open), Refs(s.closed), s.k, r, b, node, todo);
    RelaxedImproved(p, s, r, b, node, key);
    assert r !in Replaced(s.k.open, node.at);
  }

  lemma ImprovedStage(p: Problem, s: Snapshot, st: Stage, r: Ref, node: Node, key: real, u: Entry, s': Snapshot)
    returns (st': Stage)
    requires Kept(p, s) && Staged(s, st) && r in s.loose && node.at !in s.k.closed && node.g == u.g + p.w.d(node.at, u.at)
    requires node.at in s.k.open ==> s.k.open[node.at] in s.heap && node.g < s.heap[s.k.open[node.at]].g
    requires key == node.g + p.w.d(node.at, p.w.goal) && Live(s.open, s.heap) && Live(s.open, s.heap[r := node])
    requires s'.heap == Superseded(s.heap[r := node], s.open, node.at).0 && r in s'.heap && s'.heap[r] == node
    requires s'.open == Inserted(Superseded(s.heap[r := node], s.open, node.at).1, Item(r, key))
    requires s'.k.closed == s.k.closed
    ensures Staged(s', st')
    ensures Relaxed(p.w, st, u, node.at, st', s.k.open.Keys == {node.at})
    ensures |s.open| == 1 && s.heap[s.open[0].node].at == node.at <==> s.k.open.Keys == {node.at}
  {
    assert Look(0);
    OnlyOpen(s.open, s.heap, s.k.open, node.at);
    Offering(p.w, s.heap, s.open, s.k.closed.Keys, s.k.open, u, node.at, node.g);
    StageRecorded(p.w, s.heap, s.open, st, r, node, key, u, s'.heap, s'.open);
    st' := Relax(p.w, st, u, node.at);
  }

  /** The state after recording is sound and at the next stage. */
  lemma Improved(p: Problem, s: Snapshot, st: Stage, r: Ref, b: Ref, node: Node, key: real, u: Entry, todo: set<Cell>,
                 heap: Heap, open: seq<Item>) returns (m: Tally)
    requires Kept(p, s) && Staged(s, st) && Terrain(p.w) && Offered(p, s, r, b, node) && Stands(s.heap, b, u)
    requires p.w.start in s.k.closed && Open(p.w, s.heap, s.k, u.at, todo)
    requires node.at in s.k.open ==> s.k.open[node.at] in s.heap && node.g < s.heap[s.k.open[node.at]].g
    requires key == node.g + p.w.d(node.at, p.w.goal) && Live(s.open, s.heap) && Live(s.open, s.heap[r := node])
    requires heap == Superseded(s.heap[r := node], s.open, node.at).0
    requires open == Inserted(Superseded(s.heap[r := node], s.open, node.at).1, Item(r, key))
    ensures m.loose == s.loose - {r} && m.k.closed == s.k.closed
    ensures var s' := Snapshot(heap, s.hi, open, s.closed, m.loose, m.k); Kept(p, s') && Staged(s', m.st)
    ensures Open(p.w, heap, m.k, u.at, todo - {node.at})
    ensures Relaxed(p.w, st, u, node.at, m.st, s.k.open.Keys == {node.at})
    ensures |s.open| == 1 && s.heap[s.open[0].node].at == node.at <==> s.k.open.Keys == {node.at}
    ensures forall q :: (q in s.loose && q != r) || q == b ==> q in heap && q in s.heap && heap[q] == s.heap[q]
  {
    ImprovedSound(p, s, r, b, node, key, todo, heap, open);
    var s' := Snapshot(heap, s.hi, open, s.closed, s.loose - {r}, Linking(s.k, r, b, node.at));
    var st' := ImprovedStage(p, s, st, r, node, key, u, s');
    m := Tally(s'.loose, s'.k, st');
    Elsewhere(p, s, r, node);
  }

  /** Where coordinates are found, and that loose and closed nodes are live. */
  lemma Lookup(p: Problem, s: Snapshot, at: Cell)
    requires Kept(p, s)
    ensures Live(s.open, s.heap) && Live(s.closed, s.heap)
    ensures FoundAt(s.closed, s.heap, at).Some? <==> at in s.k.closed
    ensures FoundAt(s.open, s.heap, at) == if at in s.k.open then Some(s.k.open[at]) else None
    ensures at in s.k.open ==> s.k.open[at] in s.heap
    ensures forall r :: r in s.loose || r in Refs(s.closed) ==> r in s.heap
    ensures forall r :: r in s.loose ==> r !in Refs(s.open) && r !in Refs(s.closed)
  {
    assert Look(0);
    FindOwned(s.closed, s.heap, s.k.closed, at);
    FindOwned(s.open, s.heap, s.k.open, at);
  }

  lemma Elsewhere(p: Problem, s: Snapshot, r: Ref, node: Node)
    requires Kept(p, s) && r in s.loose
    ensures var heap := Renewed(s.heap, r, node, Replaced(s.k.open, node.at));
      forall q :: (q in s.loose && q != r) || q in Refs(s.closed) ==> q in heap && q in s.heap && heap[q] == s.heap[q]
  {
    assert Look(0);
  }

  ghost predicate Waiting(rest: seq<Item>, heap: Heap, owner: map<Cell, Ref>, ns: seq<Cell>, w: World, m: Tally, u: Entry) {
    forall t {:trigger Look(t)} :: Look(t) ==>
      && Owned(Refs(rest), heap, owner) && Distinct(rest) && Lined(rest, heap, ns) && Refs(rest) <= m.loose
      && (forall c :: c in owner ==> Move(w.blocked, u.at, c)) && w.start in m.k.closed
  }

  lemma WaitingHead(rest: seq<Item>, heap: Heap, owner: map<Cell, Ref>, ns: seq<Cell>, w: World, m: Tally, u: Entry)
    requires Waiting(rest, heap, owner, ns, w, m, u) && rest != []
    ensures var r := rest[0].node;
      && r in m.loose && r in heap && w.start in m.k.closed && Move(w.blocked, u.at, heap[r].at)
      && ns != [] && heap[r].at == ns[0] && |rest| == |ns|
  {
    assert Look(0);
    assert rest[0].node in Refs(rest);
  }

  lemma WaitingNext(rest: seq<Item>, heap: Heap, heap': Heap, owner: map<Cell, Ref>, ns: seq<Cell>, w: World, m: Tally, m': Tally,
                    u: Entry) returns (owner': map<Cell, Ref>)
    requires Waiting(rest, heap, owner, ns, w, m, u) && rest != [] && ns != [] && rest[0].node in heap
    requires m'.loose == m.loose - {rest[0].node} && m'.k.closed == m.k.closed
    requires forall q :: q in m.loose && q != rest[0].node ==> q in heap' && q in heap && heap'[q] == heap[q]
    ensures Waiting(rest[1..], heap', owner', ns[1..], w, m', u) && owner'.Keys == owner.Keys - {heap[rest[0].node].at}
  {
    assert Look(0);
    var r := rest[0].node;
    HeadOff(rest);
    OwnedPopped(Refs(rest), heap, heap', owner, r);
    owner' := owner - {heap[r].at};
    assert forall i :: 0 <= i < |rest| ==> rest[i].node in Refs(rest);
  }

  lemma WaitingRefs(rest: seq<Item>, heap: Heap, owner: map<Cell, Ref>, ns: seq<Cell>, w: World, m: Tally, u: Entry)
    requires Waiting(rest, heap, owner, ns, w, m, u) && rest != []
    ensures Refs(rest[1..]) == Refs(rest) - {rest[0].node} && rest[0].node in Refs(rest)
  {
    assert Look(0);
    HeadOff(rest);
  }

  lemma NoneWaiting(rest: seq<Item>, heap: Heap, owner: map<Cell, Ref>, ns: seq<Cell>, w: World, m: Tally, u: Entry)
    requires Waiting(rest, heap, owner, ns, w, m, u) && rest == []
    ensures owner.Keys == {} && Refs(rest) == {} && ns == []
  {
    assert Look(0);
  }

  lemma OwnedPopped(refs: set<Ref>, heap: Heap, heap': Heap, owner: map<Cell, Ref>, r: Ref)
    requires Owned(refs, heap, owner) && r in refs
    requires forall q :: q in refs && q != r ==> q in heap' && heap'[q] == heap[q]
    ensures Owned(refs - {r}, heap', owner - {heap[r].at}) && (owner - {heap[r].at}).Keys == owner.Keys - {heap[r].at}
  {
  }

  lemma Grounded(w: World)
    requires Contained(w) && Metric(w.d)
    ensures Terrain(w)
  {
  }

  /** A legal route from start to goal of cost `g`, which no route undercuts. */
  ghost predicate BestRoute(w: World, route: seq<Cell>, g: real) {
    && Route(w.blocked, route, w.start, w.goal) && Cost(w.d, route) == g
    && forall path :: Route(w.blocked, path, w.start, w.goal) ==> g <= Cost(w.d, path)
  }

  /** The items spell a legal route from start to goal whose cost the last node records, and no route
      is cheaper. */
  ghost predicate Spells(items: seq<Item>, heap: Heap, w: World) {
    && Live(items, heap) && items != []
    && BestRoute(w, Cells(items, heap), heap[items[|items| - 1].node].g)
  }

  ghost function StartKnown(w: World, first: Ref): Known {
    Known(map[w.start := first], map[], map[first := [w.start]])
  }

  /** `s` is the state in which a search begins. */
  ghost predicate AtStart(p: Problem, first: Ref, goalNode: Ref, key: real, s: Snapshot) {
    && (forall r :: r in p.base ==> r < p.lo)
    && first == p.lo && goalNode == p.lo + 1 && s.hi == p.lo + 2 && key == p.w.d(p.w.start, p.w.goal)
    && s.heap == p.base[first := Node(p.w.start, 0.0, None)][goalNode := Node(p.w.goal, 0.0, None)]
    && s.open == [Item(first, key)] && s.closed == [] && s.loose == {goalNode} && s.k == StartKnown(p.w, first)
  }

  lemma BegunSound(p: Problem, first: Ref, goalNode: Ref, key: real, s: Snapshot)
    requires Interior(p.w.size, p.w.start) && AtStart(p, first, goalNode, key, s)
    ensures Sound(p, s) && Settling(p.w, s.heap, s.k, p.w.start, {})
  {
    var k := Begin(p.w, first, s.heap);
    assert s.open[0].node == first;
    assert Refs(s.closed) == {} && Refs(s.open) == {first};
    assert s.heap.Keys == p.base.Keys + {first} + {} + {goalNode};
  }

  lemma Begun(p: Problem, first: Ref, goalNode: Ref, key: real, s: Snapshot) returns (m: Tally)
    requires Terrain(p.w) && AtStart(p, first, goalNode, key, s)
    ensures m == Tally(s.loose, s.k, Begins(p.w)) && Kept(p, s) && Staged(s, m.st)
    ensures Open(p.w, s.heap, s.k, p.w.start, {})
  {
    m := Tally(s.loose, s.k, Begins(p.w));
    StartInterior(p.w);
    BegunSound(p, first, goalNode, key, s);
    assert Entries(s.open, s.heap) == Begins(p.w).open;
  }

  lemma StartInterior(w: World)
    requires Terrain(w)
    ensures Interior(w.size, w.start)
  {
    assert Look(0);
    assert Route(w.blocked, [w.start], w.start, w.start);
    assert Reachable(w, w.start);
  }

  /** The head of the open list is a live node at an interior cell that is not closed. */
  lemma Popped(p: Problem, s: Snapshot, st: Stage) returns (u: Entry)
    requires s.open != [] && Kept(p, s) && Staged(s, st)
    ensures st.open != [] && u == st.open[0] && Stands(s.heap, s.open[0].node, u)
    ensures u.at in s.k.open && u.at !in s.k.closed && Interior(p.w.size, u.at)
    ensures forall r :: r in s.heap ==> r < s.hi
  {
    assert Look(0);
    assert s.open[0].node in Refs(s.open);
    u := st.open[0];
  }

  lemma StageEmpty(p: Problem, s: Snapshot, st: Stage)
    requires s.open == [] && Staged(s, st)
    ensures !Continues(p.w, st)
  {
    assert Look(0);
  }

  /** Closing the head and making its neighbours' nodes: the state is sound again, ... */
  lemma SpawnedSound(p: Problem, s: Snapshot, key: real, more: set<Ref>, s': Snapshot)
    requires Kept(p, s) && HasHead(s)
    requires s'.heap.Keys == s.heap.Keys + more && (forall r :: r in s.heap ==> s'.heap[r] == s.heap[r])
    requires s.hi <= s'.hi && forall r :: r in more ==> s.hi <= r < s'.hi
    requires s' == Grown(HeadClosed(s, key), s'.heap, s'.hi, more)
    ensures Kept(p, s')
  {
    assert Look(0);
    SoundClosed(p, s, key);
    SoundGrown(p, HeadClosed(s, key), s'.heap, s'.hi, more);
  }

  lemma SpawnedStage(p: Problem, s: Snapshot, st: Stage, s': Snapshot)
    requires Kept(p, s) && Staged(s, st) && HasHead(s) && st.open != [] && s.heap[s.open[0].node].at == st.open[0].at
    requires forall r :: r in s.heap ==> r in s'.heap && s'.heap[r] == s.heap[r]
    requires s'.open == s.open[1..] && s'.k == Closing(s.k, st.open[0].at)
    ensures Staged(s', Closed(st))
  {
    assert Look(0);
    StageClosed(s, s');
  }

  /** ... the head's moves are to be settled, ... */
  lemma SpawnedSettling(p: Problem, s: Snapshot, heap: Heap, todo: set<Cell>)
    requires Terrain(p.w) && Kept(p, s) && HasHead(s) && Open(p.w, s.heap, s.k, p.w.start, {})
    requires s.heap.Keys <= heap.Keys && (forall r :: r in s.heap ==> heap[r] == s.heap[r])
    requires forall n :: Move(p.w.blocked, s.heap[s.open[0].node].at, n) ==> n in todo
    ensures var at := s.heap[s.open[0].node].at; Open(p.w, heap, Closing(s.k, at), at, todo)
  {
    assert Look(0);
    HeadSettling(p.w, s.heap, s.open, Refs(s.closed), s.k, heap, todo);
  }

  /** ... and the new nodes wait to be looked at. */
  lemma Spawning(p: Problem, s: Snapshot, st: Stage, key: real, items: seq<Item>, owner: map<Cell, Ref>, u: Entry, s': Snapshot)
    requires Terrain(p.w) && Kept(p, s) && Staged(s, st) && Open(p.w, s.heap, s.k, p.w.start, {})
    requires (p.w.start in s.k.closed || s.k.open.Keys == {p.w.start}) && s.open != []
    requires st.open != [] && u == st.open[0] && Stands(s.heap, s.open[0].node, u) && u.at in s.k.open
    requires Fresh(items, s'.heap, s'.hi, s.heap, s.hi, owner, Moves(p.w.blocked, u.at))
    requires forall c :: c in owner <==> Move(p.w.blocked, u.at, c)
    requires s'.open == s.open[1..] && s'.closed == Inserted(s.closed, Item(s.open[0].node, key))
    requires s'.loose == s.loose + Refs(items) && s'.k == Closing(s.k, u.at)
    ensures s.loose !! Refs(items) && s.open[0].node in Refs(s'.closed)
    ensures Kept(p, s') && Staged(s', Closed(st)) && Stands(s'.heap, s.open[0].node, u)
    ensures Open(p.w, s'.heap, s'.k, u.at, owner.Keys)
    ensures Waiting(items, s'.heap, owner, Moves(p.w.blocked, u.at), p.w, Tally(s'.loose, s'.k, Closed(st)), u)
  {
    SpawnedFresh(p, s, items, s'.heap, s'.hi, owner, Moves(p.w.blocked, u.at));
    SpawnedSound(p, s, key, Refs(items), s');
    SpawnedStage(p, s, st, s');
    SpawnedSettling(p, s, s'.heap, owner.Keys);
    SpawnedWaiting(items, s'.heap, s'.hi, s.heap, s.hi, owner, Moves(p.w.blocked, u.at), p.w, Tally(s'.loose, s'.k, Closed(st)), u);
    InsertedRefs(s.closed, Item(s.open[0].node, key));
  }

  lemma SpawnedFresh(p: Problem, s: Snapshot, items: seq<Item>, heap: Heap, hi: Ref, owner: map<Cell, Ref>, ns: seq<Cell>)
    requires Kept(p, s) && Fresh(items, heap, hi, s.heap, s.hi, owner, ns)
    ensures heap.Keys == s.heap.Keys + Refs(items) && (forall r :: r in s.heap ==> heap[r] == s.heap[r])
    ensures s.hi <= hi && (forall r :: r in Refs(items) ==> s.hi <= r < hi) && s.loose !! Refs(items)
  {
    assert Look(0);
  }

  lemma SpawnedWaiting(items: seq<Item>, heap: Heap, hi: Ref, base: Heap, lo: Ref, owner: map<Cell, Ref>, ns: seq<Cell>,
                       w: World, m: Tally, u: Entry)
    requires Fresh(items, heap, hi, base, lo, owner, ns) && Refs(items) <= m.loose && w.start in m.k.closed
    requires forall c :: c in owner <==> Move(w.blocked, u.at, c)
    ensures Waiting(items, heap, owner, ns, w, m, u)
  {
    assert Look(0);
  }

  lemma HeadSettling(w: World, heap: Heap, open: seq<Item>, closed: set<Ref>, k: Known, heap': Heap, todo: set<Cell>)
    requires open != [] && Metric(w.d) && open[0].node in heap && heap[open[0].node].at in k.open
    requires Charted(w, heap, Refs(open), closed, k) && Ranked(w, open, heap) && Settling(w, heap, k, w.start, {})
    requires forall q :: q in heap ==> q in heap' && heap'[q] == heap[q]
    requires forall n :: Move(w.blocked, heap[open[0].node].at, n) ==> n in todo
    ensures Settling(w, heap', Closing(k, heap[open[0].node].at), heap[open[0].node].at, todo)
  {
    var cc, oo, u := Costs(k.closed, heap), Costs(k.open, heap), heap[open[0].node].at;
    HeadIsLeast(w, heap, open, closed, k);
    FrontierCloses(w.blocked, w.d, w.start, w.goal, cc, oo, u, todo);
    assert open[0].node in Refs(open);
    ClosedCosts(heap, Refs(open), closed, k, open[0].node, heap');
  }

  lemma ClosedCosts(heap: Heap, open: set<Ref>, closed: set<Ref>, k: Known, r: Ref, heap': Heap)
    requires Owned(open, heap, k.open) && Owned(closed, heap, k.closed) && r in open
    requires forall q :: q in heap ==> q in heap' && heap'[q] == heap[q]
    ensures var k', u := Closing(k, heap[r].at), heap[r].at;
      && (forall c :: c in k'.open ==> k'.open[c] in heap') && (forall c :: c in k'.closed ==> k'.closed[c] in heap')
      && Costs(k'.open, heap') == Costs(k.open, heap) - {u}
      && Costs(k'.closed, heap') == Costs(k.closed, heap)[u := Costs(k.open, heap)[u]]
  {
    CloseCosts(heap, open, closed, k, r);
    CostsElsewhere(Closing(k, heap[r].at).open, heap, heap');
    CostsElsewhere(Closing(k, heap[r].at).closed, heap, heap');
  }

  lemma CostsElsewhere(at: map<Cell, Ref>, heap: Heap, heap': Heap)
    requires forall c :: c in at ==> at[c] in heap
    requires forall r :: r in heap ==> r in heap' && heap'[r] == heap[r]
    ensures Costs(at, heap') == Costs(at, heap)
  {
  }

  /** With all moves settled it does not matter whose were the last. */
  lemma AtRest(w: World, heap: Heap, k: Known, at: Cell)
    requires Open(w, heap, k, at, {})
    ensures Open(w, heap, k, w.start, {})
  {
    assert Look(0);
    AllSettled(w.blocked, w.d, w.start, Costs(k.closed, heap), Costs(k.open, heap), at);
  }

  /** One turn of the main loop leads from `st` to `st'`; `nulled` tells whether the list was null in it. */
  ghost predicate Turned(w: World, st: Stage, st': Stage, nulled: bool) {
    forall t {:trigger Look(t)} :: Look(t) ==>
      && st.open != [] && st' == Expand(w, st)
      && (nulled <==> NullsIn(w, Closed(st), st.open[0], Moves(w.blocked, st.open[0].at)))
  }

  lemma Turns(w: World, st: Stage, u: Entry, st': Stage, nulled: bool)
    requires st.open != [] && u == st.open[0] && Course(w, u, Closed(st), Moves(w.blocked, u.at), st', [], nulled)
    ensures Turned(w, st, st', nulled)
  {
    assert Look(0);
  }

  /** The search has taken the course `tr` to `st`; `nulled` tells whether the list was null on it. */
  ghost predicate Ran(w: World, tr: seq<Stage>, st: Stage, nulled: bool) {
    forall t {:trigger Look(t)} :: Look(t) ==>
      && Trace(w, tr) && tr[|tr| - 1] == st
      && (nulled <==> exists i :: 0 <= i < |tr| - 1 && Fails(w, tr[i]))
  }

  lemma CourseStarts(w: World)
    ensures Ran(w, [Begins(w)], Begins(w), false)
  {
  }

  lemma TraceGrows(w: World, tr: seq<Stage>, st: Stage, nulled: bool, st': Stage, met: bool) returns (tr': seq<Stage>)
    requires Ran(w, tr, st, nulled) && Continues(w, st) && Turned(w, st, st', met)
    ensures Ran(w, tr', st', nulled || met)
  {
    assert Look(0);
    tr' := tr + [st'];
    TraceExtended(w, tr, st');
    var n := |tr| - 1;
    assert Fails(w, tr[n]) <==> met;
    assert forall i :: 0 <= i <= n ==> tr'[i] == tr[i];
  }

  lemma TraceTold(w: World, tr: seq<Stage>, st: Stage, nulled: bool)
    requires Ran(w, tr, st, nulled) && !Continues(w, st)
    ensures nulled <==> Crashes(w)
  {
    assert Look(0);
    CrashesExactly(w, tr);
    assert !Fails(w, tr[|tr| - 1]);
  }

  lemma FoundMemory(p: Problem, heap: Heap, hi: Ref, open: set<Ref>, closed: set<Ref>, goalNode: Ref, r: Ref)
    requires Memory(p, heap, hi, open, closed, {goalNode}) && r in open
    ensures heap.Keys == p.base.Keys + {r, goalNode} + (open - {r}) + closed
    ensures r != goalNode && {r, goalNode} !! p.base.Keys && open !! p.base.Keys && closed !! p.base.Keys && open !! closed
    ensures {r, goalNode} !! (open - {r}) && {r, goalNode} !! closed
  {
    assert p.base.Keys + {r, goalNode} + (open - {r}) + closed == p.base.Keys + open + closed + {goalNode};
  }

  lemma FoundCells(w: World, heap: Heap, open: set<Ref>, closed: set<Ref>, k: Known, r: Ref)
    requires Charted(w, heap, open, closed, k) && r in open
    ensures forall q :: q in closed || q == r ==> Spelled(heap, closed, k.routes, q)
    ensures forall p, q :: p in closed && (q in closed || q == r) && p in heap && q in heap && heap[p].at == heap[q].at ==> p == q
  {
    forall q | q in closed || q == r ensures Spelled(heap, closed, k.routes, q) {
      assert Traced(w, heap, closed, k.routes, q);
    }
  }

  lemma ClosedIsReachable(w: World, heap: Heap, closed: set<Ref>, k: Known)
    requires Charted(w, heap, {}, closed, k) && Settling(w, heap, k, w.start, {})
    ensures forall c :: c in k.closed <==> Reachable(w, c)
  {
    assert k.open == map[];
    assert Costs(k.open, heap) == map[];
    forall c, path | c !in k.closed ensures !Route(w.blocked, path, w.start, c) {
      NothingOpen(w.blocked, w.d, w.start, Costs(k.closed, heap), path, c);
    }
    forall c | c in k.closed ensures Reachable(w, c) {
      assert Traced(w, heap, closed, k.routes, k.closed[c]);
      assert Route(w.blocked, k.routes[k.closed[c]], w.start, c);
    }
  }

  lemma LeftBehind(p: Problem, heap: Heap, hi: Ref, closed: set<Ref>, goalNode: Ref)
    requires Memory(p, heap, hi, {}, closed, {goalNode})
    ensures p.base.Keys <= heap.Keys && |heap.Keys - p.base.Keys| == |closed| + 1
  {
    assert heap.Keys - p.base.Keys == closed + {goalNode};
  }

  /** The node's route is its back link's route and its own cell. */
  ghost predicate Spelled(heap: Heap, closed: set<Ref>, routes: map<Ref, seq<Cell>>, r: Ref) {
    && r in heap && r in routes && routes[r] != [] && routes[r][|routes[r]| - 1] == heap[r].at
    && match heap[r].back
       case None => |routes[r]| == 1
       case Some(b) => b in closed && b in routes && routes[r] == routes[b] + [heap[r].at]
  }

  ghost predicate AllSpelled(heap: Heap, closed: set<Ref>, current: Ref, routes: map<Ref, seq<Cell>>) {
    forall t {:trigger Look(t)} :: Look(t) ==> forall r :: r in closed || r == current ==> Spelled(heap, closed, routes, r)
  }

  /** One back link further the route is one cell shorter. */
  lemma SpelledBack(heap: Heap, closed: set<Ref>, current: Ref, routes: map<Ref, seq<Cell>>, route: seq<Cell>, m: nat, r: Ref)
    requires AllSpelled(heap, closed, current, routes)
    requires (r in closed || r == current) && 0 < m <= |route| && r in routes && routes[r] == route[..m]
    ensures r in heap && heap[r].at == route[m - 1] && |routes[r]| == m
    ensures match heap[r].back
      case None => m == 1
      case Some(b) => m > 1 && b in closed && b in routes && routes[b] == route[..m - 1]
  {
    assert Look(0);
    assert Spelled(heap, closed, routes, r);
    match heap[r].back
    case None =>
    case Some(b) =>
      assert Spelled(heap, closed, routes, b);
      assert routes[b] == routes[r][..m - 1];
  }

  /** The items stand for the route from its cell `m` on. */
  ghost predicate Tail(items: seq<Item>, heap: Heap, pool: set<Ref>, routes: map<Ref, seq<Cell>>, route: seq<Cell>, m: nat) {
    && m + |items| == |route|
    && forall i :: 0 <= i < |items| ==>
         && items[i].node in pool && items[i].node in heap && items[i].node in routes
         && heap[items[i].node].at == route[m + i] && |routes[items[i].node]| == m + i + 1
         && (i > 0 ==> heap[items[i].node].back == Some(items[i - 1].node))
  }

  lemma TailPushed(items: seq<Item>, heap: Heap, pool: set<Ref>, routes: map<Ref, seq<Cell>>, route: seq<Cell>, m: nat, r: Ref)
    requires Tail(items, heap, pool, routes, route, m) && m > 0 && r in pool && r in heap && r in routes
    requires heap[r].at == route[m - 1] && |routes[r]| == m
    requires items != [] ==> heap[items[0].node].back == Some(r)
    ensures Tail([Item(r, 0.0)] + items, heap, pool, routes, route, m - 1)
  {
  }

  lemma TailWhole(items: seq<Item>, heap: Heap, pool: set<Ref>, routes: map<Ref, seq<Cell>>, route: seq<Cell>)
    requires Tail(items, heap, pool, routes, route, 0) && (items != [] ==> heap[items[0].node].back == None)
    ensures Linked(items, heap) && Distinct(items) && Live(items, heap) && Cells(items, heap) == route
    ensures Refs(items) <= pool
  {
  }

  /** The heap when the goal is popped: what was there before, the goal's node, the node only used to
      compare with, and the nodes in the two lists, all different; coordinates identify closed nodes. */
  ghost predicate Found(heap: Heap, base: Heap, current: Ref, goalNode: Ref, open: set<Ref>, closed: set<Ref>,
                        routes: map<Ref, seq<Cell>>) {
    forall t {:trigger Look(t)} :: Look(t) ==> FoundParts(heap, base, current, goalNode, open, closed, routes)
  }

  ghost predicate FoundParts(heap: Heap, base: Heap, current: Ref, goalNode: Ref, open: set<Ref>, closed: set<Ref>,
                             routes: map<Ref, seq<Cell>>) {
    && heap.Keys == base.Keys + {current, goalNode} + open + closed
    && (forall r :: r in base ==> r in heap && heap[r] == base[r])
    && current != goalNode && {current, goalNode} !! base.Keys && open !! base.Keys && closed !! base.Keys && open !! closed
    && {current, goalNode} !! open && {current, goalNode} !! closed
    && (forall r :: r in closed || r == current ==> Spelled(heap, closed, routes, r))
    && (forall r, q :: r in closed && (q in closed || q == current) && r in heap && q in heap && heap[r].at == heap[q].at ==> r == q)
  }

  lemma FoundLists(heap: Heap, base: Heap, current: Ref, goalNode: Ref, path: seq<Item>, open: seq<Item>, closed: seq<Item>,
                   routes: map<Ref, seq<Cell>>)
    requires Found(heap, base, current, goalNode, Refs(open), Refs(closed), routes) && Live(path, base)
    ensures goalNode in heap && Live(path, heap - {goalNode}) && Live(open, heap) && Live(closed, heap)
    ensures Refs(path) <= base.Keys
  {
    assert Look(0);
    assert forall i :: 0 <= i < |open| ==> open[i].node in Refs(open);
    assert forall i :: 0 <= i < |closed| ==> closed[i].node in Refs(closed);
  }

  lemma FoundSpelled(heap: Heap, base: Heap, current: Ref, goalNode: Ref, open: set<Ref>, closed: set<Ref>,
                     routes: map<Ref, seq<Cell>>, stale: set<Ref>)
    requires Found(heap, base, current, goalNode, open, closed, routes) && stale <= base.Keys
    ensures AllSpelled(heap - ({goalNode} + stale), closed, current, routes) && current in routes && routes[current] != []
  {
    assert Look(0);
    assert Spelled(heap, closed, routes, current);
    forall r | r in closed || r == current ensures Spelled(heap - ({goalNode} + stale), closed, routes, r) {
      assert Spelled(heap, closed, routes, r);
    }
  }

  /** In what is left when the path has been extracted and the open nodes freed, coordinates still
      identify nodes. */
  lemma FoundIdentity(heap: Heap, base: Heap, current: Ref, goalNode: Ref, path: seq<Item>, stale: set<Ref>, open: set<Ref>,
                      closed: seq<Item>, routes: map<Ref, seq<Cell>>, heap1: Heap)
    requires Found(heap, base, current, goalNode, open, Refs(closed), routes) && stale <= base.Keys
    requires heap1 == heap - ({goalNode} + stale) && Live(path, heap1) && Refs(path) <= Refs(closed) + {current}
    ensures Live(path, heap1 - open) && Live(closed, heap1 - open)
    ensures forall r, q :: r in Refs(closed) && q in Refs(path) && (heap1 - open)[r].at == (heap1 - open)[q].at ==> r == q
  {
    assert Look(0);
    assert forall i :: 0 <= i < |path| ==> path[i].node in Refs(path);
    assert forall i :: 0 <= i < |closed| ==> closed[i].node in Refs(closed);
  }

  lemma FoundOpen(heap: Heap, base: Heap, current: Ref, goalNode: Ref, stale: set<Ref>, open: seq<Item>,
                  closed: set<Ref>, routes: map<Ref, seq<Cell>>)
    requires Found(heap, base, current, goalNode, Refs(open), closed, routes) && stale <= base.Keys
    ensures Live(open, heap - ({goalNode} + stale))
  {
    assert Look(0);
    assert forall i :: 0 <= i < |open| ==> open[i].node in Refs(open);
  }

  lemma FoundKept(heap: Heap, base: Heap, current: Ref, goalNode: Ref, path: seq<Item>, stale: set<Ref>, open: set<Ref>,
                  closed: set<Ref>, routes: map<Ref, seq<Cell>>, heap1: Heap, heap': Heap)
    requires Found(heap, base, current, goalNode, open, closed, routes) && stale <= base.Keys
    requires heap1 == heap - ({goalNode} + stale) && heap' == heap1 - open - (closed - Refs(path))
    requires Linked(path, heap1) && Live(path, heap1) && current in Refs(path) && Refs(path) <= closed + {current}
    ensures Linked(path, heap') && Live(path, heap') && Cells(path, heap') == Cells(path, heap1)
    ensures heap'.Keys == base.Keys - stale + Refs(path) && Refs(path) !! base.Keys
    ensures forall r :: r in heap' ==> r in heap && heap'[r] == heap[r]
  {
    assert Look(0);
    assert forall i :: 0 <= i < |path| ==> path[i].node in Refs(path);
    assert heap'.Keys == heap.Keys - {goalNode} - stale - open - (closed - Refs(path));
  }

  lemma AtGoal(p: Problem, s: Snapshot, goalNode: Ref)
    requires s.open != [] && Kept(p, s) && s.loose == {goalNode}
    ensures Found(s.heap, p.base, s.open[0].node, goalNode, Refs(s.open[1..]), Refs(s.closed), s.k.routes)
    ensures Distinct(s.open[1..]) && Distinct(s.closed)
    ensures forall r :: r in s.heap ==> r < s.hi
    ensures forall r :: r in p.base ==> r in s.heap && s.heap[r] == p.base[r]
  {
    assert Look(0);
    HeadOff(s.open);
    FoundAtGoal(p, s.heap, s.hi, Refs(s.open), Refs(s.closed), goalNode, s.k, s.open[0].node);
  }

  lemma FoundAtGoal(p: Problem, heap: Heap, hi: Ref, open: set<Ref>, closed: set<Ref>, goalNode: Ref, k: Known, r: Ref)
    requires Memory(p, heap, hi, open, closed, {goalNode}) && Charted(p.w, heap, open, closed, k) && r in open
    ensures Found(heap, p.base, r, goalNode, open - {r}, closed, k.routes)
  {
    FoundMemory(p, heap, hi, open, closed, goalNode, r);
    FoundCells(p.w, heap, open, closed, k, r);
    assert FoundParts(heap, p.base, r, goalNode, open - {r}, closed, k.routes);
  }

  /** When the goal is the head of the open list its recorded cost is the least of any route. */
  lemma GoalOptimal(p: Problem, s: Snapshot)
    requires s.open != [] && Terrain(p.w) && s.open[0].node in s.heap && s.heap[s.open[0].node].at == p.w.goal
    requires Kept(p, s) && Open(p.w, s.heap, s.k, p.w.start, {})
    ensures s.open[0].node in s.k.routes && BestRoute(p.w, s.k.routes[s.open[0].node], s.heap[s.open[0].node].g)
  {
    assert Look(0);
    var r := s.open[0].node;
    assert r in Refs(s.open);
    assert Traced(p.w, s.heap, Refs(s.closed), s.k.routes, r);
    HeadIsLeast(p.w, s.heap, s.open, Refs(s.closed), s.k);
    forall path | Route(p.w.blocked, path, p.w.start, p.w.goal) ensures s.heap[r].g <= Cost(p.w.d, path) {
      LeastIsOptimal(p.w.blocked, p.w.d, p.w.start, p.w.goal, Costs(s.k.closed, s.heap), Costs(s.k.open, s.heap), p.w.goal, path);
    }
  }

  /** With nothing open the closed cells are the reachable ones, and the goal is not among them. */
  lemma NoneLeft(p: Problem, s: Snapshot, goalNode: Ref)
    requires Kept(p, s) && s.open == [] && s.loose == {goalNode}
    requires Open(p.w, s.heap, s.k, p.w.start, {}) && p.w.goal !in s.k.closed
    ensures forall c :: c in s.k.closed <==> Reachable(p.w, c)
    ensures p.base.Keys <= s.heap.Keys && |s.heap.Keys - p.base.Keys| == |s.k.closed.Keys| + 1
    ensures forall r :: r in p.base ==> s.heap[r] == p.base[r]
    ensures forall r :: r in s.heap ==> r < s.hi
  {
    assert Look(0);
    assert Refs(s.open) == {};
    ClosedIsReachable(p.w, s.heap, Refs(s.closed), s.k);
    OwnedSize(Refs(s.closed), s.heap, s.k.closed);
    LeftBehind(p, s.heap, s.hi, Refs(s.closed), goalNode);
  }
}

/** What the planner's lists and node heap say in the middle of a search, and how each list operation
    of the main loop changes it. */
module SearchState {
  import opened Paths
  import opened NodeList
  import opened Wrappers

  /** What is fixed during one search of a grid of `size` by `size` cells. */
  datatype World = World(blocked: set<Cell>, d: Distance, start: Cell, goal: Cell, size: nat)

  /** What the search has found: the node of each open and closed cell, and for each node the route
      that its back links spell. */
  datatype Known = Known(open: map<Cell, Ref>, closed: map<Cell, Ref>, routes: map<Ref, seq<Cell>>)

  /** A search and the heap before it; its own nodes are numbered from `lo` on. */
  datatype Problem = Problem(w: World, base: Heap, lo: Ref)

  /** What a search changes: the heap, in which the next node is numbered `hi`, its lists and its loose
      nodes, and what it knows. */
  datatype Snapshot = Snapshot(heap: Heap, hi: Ref, open: seq<Item>, closed: seq<Item>, loose: set<Ref>, k: Known)

  ghost predicate Interior(size: nat, c: Cell) {
    0 < c.x < size - 1 && 0 < c.y < size - 1
  }

  ghost function Inside(size: nat): set<Cell> {
    set x: int, y: int | 0 < x < size - 1 && 0 < y < size - 1 :: Cell(x, y)
  }

  lemma InsideIs(size: nat, c: Cell)
    requires Interior(size, c)
    ensures c in Inside(size)
  {
    assert c == Cell(c.x, c.y);
  }

  ghost predicate Reachable(w: World, c: Cell) {
    exists path :: Route(w.blocked, path, w.start, c)
  }

  /** No route leads to the edge of the map or beyond. */
  ghost predicate Contained(w: World) {
    forall c :: Reachable(w, c) ==> Interior(w.size, c)
  }

  /** A blocked border around the start is enough for that. */
  lemma {:induction false} BorderContains(w: World, path: seq<Cell>, c: Cell)
    requires forall b :: OnBorder(w.size, b) ==> b in w.blocked
    requires Interior(w.size, w.start) && Route(w.blocked, path, w.start, c)
    ensures Interior(w.size, c)
    decreases |path|
  {
    if |path| > 1 {
      var n := |path| - 1;
      RoutePrefix(w.blocked, path, w.start, c, n);
      BorderContains(w, path[..n], path[n - 1]);
      assert Move(w.blocked, path[n - 1], path[n]);
      assert !OnBorder(w.size, c);
    }
  }

  ghost predicate OnMap(size: nat, c: Cell) {
    0 <= c.x < size && 0 <= c.y < size
  }

  ghost predicate OnBorder(size: nat, c: Cell) {
    OnMap(size, c) && !Interior(size, c)
  }

  /** The map is read in bounds around a cell exactly when the cell is interior. */
  lemma ReadsInBounds(size: nat, at: Cell)
    ensures (forall c :: c != at && -1 <= c.x - at.x <= 1 && -1 <= c.y - at.y <= 1 ==> OnMap(size, c)) <==> Interior(size, at)
  {
    var low, high := Cell(at.x - 1, at.y - 1), Cell(at.x + 1, at.y + 1);
    assert OnMap(size, low) && OnMap(size, high) ==> Interior(size, at);
  }

  // ------------------------------------------------------------------------- cells and nodes

  /** The nodes `refs` are live, at different cells, and `at` tells which is where. */
  ghost predicate Owned(refs: set<Ref>, heap: Heap, at: map<Cell, Ref>) {
    && (forall r :: r in refs ==> r in heap && heap[r].at in at && at[heap[r].at] == r)
    && (forall c :: c in at ==> at[c] in refs && at[c] in heap && heap[at[c]].at == c)
  }

  /** The costs recorded for the cells. */
  ghost function Costs(at: map<Cell, Ref>, heap: Heap): (gs: map<Cell, real>)
    requires forall c :: c in at ==> at[c] in heap
    ensures gs.Keys == at.Keys
  {
    map c | c in at :: heap[at[c]].g
  }

  /** There are as many nodes as cells. */
  lemma {:induction false} OwnedSize(refs: set<Ref>, heap: Heap, at: map<Cell, Ref>)
    requires Owned(refs, heap, at)
    ensures |refs| == |at.Keys|
    decreases refs
  {
    if refs == {} {
      assert at.Keys == {};
    } else {
      var r :| r in refs;
      var c := heap[r].at;
      OwnedSize(refs - {r}, heap, at - {c});
      assert (at - {c}).Keys == at.Keys - {c};
    }
  }

  // ------------------------------------------------------------------------------ search state

  /** Open items are sorted by recorded cost plus estimate. */
  ghost predicate Ranked(w: World, open: seq<Item>, heap: Heap) {
    && Sorted(open)
    && forall i :: 0 <= i < |open| ==>
         && open[i].node in heap
         && open[i].key == heap[open[i].node].g + w.d(heap[open[i].node].at, w.goal)
  }

  /** The node's route is legal, costs what the node records, and is spelled by back links through
      closed nodes. */
  ghost predicate Traced(w: World, heap: Heap, closed: set<Ref>, routes: map<Ref, seq<Cell>>, r: Ref) {
    && r in heap && r in routes
    && Route(w.blocked, routes[r], w.start, heap[r].at) && Cost(w.d, routes[r]) == heap[r].g
    && match heap[r].back
       case None => |routes[r]| == 1
       case Some(b) => b in closed && b in routes && routes[r] == routes[b] + [heap[r].at]
  }

  /** `loose` are the nodes of this search in neither list. */
  ghost predicate Memory(p: Problem, heap: Heap, hi: Ref, open: set<Ref>, closed: set<Ref>, loose: set<Ref>) {
    && (forall r :: r in p.base ==> r < p.lo && r in heap && heap[r] == p.base[r])
    && (forall r :: r in heap ==> r < hi)
    && p.lo <= hi
    && heap.Keys == p.base.Keys + open + closed + loose
    && (forall r :: r in open || r in closed || r in loose ==> p.lo <= r)
    && open !! closed && open !! loose && closed !! loose
  }

  ghost predicate Charted(w: World, heap: Heap, open: set<Ref>, closed: set<Ref>, k: Known) {
    && Owned(open, heap, k.open) && Owned(closed, heap, k.closed) && k.open.Keys !! k.closed.Keys
    && (forall r :: r in open || r in closed ==> Traced(w, heap, closed, k.routes, r))
    && (forall c :: c in k.open || c in k.closed ==> Interior(w.size, c))
  }

  /** The head of the open list has the least cost plus estimate of all open cells. */
  lemma HeadIsLeast(w: World, heap: Heap, open: seq<Item>, closed: set<Ref>, k: Known)
    requires Charted(w, heap, Refs(open), closed, k) && Ranked(w, open, heap) && open != []
    ensures var u, gs := heap[open[0].node].at, Costs(k.open, heap);
      u in gs && forall c :: c in gs ==> gs[u] + w.d(u, w.goal) <= gs[c] + w.d(c, w.goal)
  {
    var u, gs := heap[open[0].node].at, Costs(k.open, heap);
    assert open[0].node in Refs(open);
    forall c | c in gs ensures gs[u] + w.d(u, w.goal) <= gs[c] + w.d(c, w.goal) {
      var i :| 0 <= i < |open| && open[i].node == k.open[c];
      assert i > 0 ==> open[0].key <= open[i].key;
    }
  }

  // --------------------------------------------------------------------------------- the moves

  lemma Begin(w: World, first: Ref, heap: Heap) returns (k: Known)
    requires Interior(w.size, w.start)
    requires first in heap && heap[first] == Node(w.start, 0.0, None)
    ensures k == Known(map[w.start := first], map[], map[first := [w.start]])
    ensures Charted(w, heap, {first}, {}, k)
    ensures Frontier(w.blocked, w.d, w.start, Costs(k.closed, heap), Costs(k.open, heap))
  {
    k := Known(map[w.start := first], map[], map[first := [w.start]]);
    FrontierBegins(w.blocked, w.d, w.start);
    assert Costs(k.closed, heap) == map[];
    assert Costs(k.open, heap) == map[w.start := 0.0];
  }

  ghost function Closing(k: Known, u: Cell): Known
    requires u in k.open
  {
    Known(k.open - {u}, k.closed[u := k.open[u]], k.routes)
  }

  lemma TracedStays(w: World, heap: Heap, closed: set<Ref>, closed': set<Ref>, routes: map<Ref, seq<Cell>>, r: Ref)
    requires Traced(w, heap, closed, routes, r) && closed <= closed'
    ensures Traced(w, heap, closed', routes, r)
  {
  }

  /** An open node becomes closed. */
  lemma Close(w: World, heap: Heap, open: set<Ref>, closed: set<Ref>, k: Known, r: Ref)
    requires Charted(w, heap, open, closed, k) && r in open
    ensures heap[r].at in k.open && Charted(w, heap, open - {r}, closed + {r}, Closing(k, heap[r].at))
  {
    var k' := Closing(k, heap[r].at);
    forall q | q in open || q in closed ensures Traced(w, heap, closed + {r}, k'.routes, q) {
      TracedStays(w, heap, closed, closed + {r}, k.routes, q);
    }
    assert Owned(open - {r}, heap, k'.open) && Owned(closed + {r}, heap, k'.closed);
  }

  lemma CloseCosts(heap: Heap, open: set<Ref>, closed: set<Ref>, k: Known, r: Ref)
    requires Owned(open, heap, k.open) && Owned(closed, heap, k.closed) && r in open
    ensures var k' := Closing(k, heap[r].at);
      && (forall c :: c in k'.open ==> k'.open[c] in heap) && (forall c :: c in k'.closed ==> k'.closed[c] in heap)
      && Costs(k'.open, heap) == Costs(k.open, heap) - {heap[r].at}
      && Costs(k'.closed, heap) == Costs(k.closed, heap)[heap[r].at := heap[r].g]
  {
  }

  /** Nodes come and go outside the lists without touching what the lists say. */
  lemma ChartedElsewhere(w: World, heap: Heap, heap': Heap, open: set<Ref>, closed: set<Ref>, k: Known)
    requires Charted(w, heap, open, closed, k)
    requires forall r :: r in open || r in closed ==> r in heap' && heap'[r] == heap[r]
    ensures Charted(w, heap', open, closed, k)
    ensures Costs(k.open, heap') == Costs(k.open, heap) && Costs(k.closed, heap') == Costs(k.closed, heap)
  {
    forall r | r in open || r in closed ensures Traced(w, heap', closed, k.routes, r) {
      assert Traced(w, heap, closed, k.routes, r);
    }
  }

  lemma RankedElsewhere(w: World, heap: Heap, heap': Heap, open: seq<Item>)
    requires Ranked(w, open, heap)
    requires forall r :: r in Refs(open) ==> r in heap' && heap'[r] == heap[r]
    ensures Ranked(w, open, heap')
  {
    assert forall i :: 0 <= i < |open| ==> open[i].node in Refs(open);
  }

  lemma RankedInserted(w: World, heap: Heap, open: seq<Item>, item: Item)
    requires Ranked(w, open, heap) && item.node in heap
    requires item.key == heap[item.node].g + w.d(heap[item.node].at, w.goal)
    ensures Ranked(w, Inserted(open, item), heap)
  {
    InsertedSorted(open, item);
    var s, k := Inserted(open, item), Slot(open, item.key);
    assert forall j :: 0 <= j < |s| ==> s[j] == if j < k then open[j] else if j == k then item else open[j - 1];
  }

  lemma RankedRemoved(w: World, heap: Heap, open: seq<Item>, k: nat)
    requires Ranked(w, open, heap) && k < |open| && Distinct(open)
    ensures Ranked(w, Removed(open, k), heap)
  {
    RemovedKeeps(open, k);
    var s := Removed(open, k);
    assert forall j :: 0 <= j < |s| ==> s[j] == open[if j < k then j else j + 1];
  }

  lemma MemoryFreed(p: Problem, heap: Heap, hi: Ref, open: set<Ref>, closed: set<Ref>, loose: set<Ref>, r: Ref)
    requires Memory(p, heap, hi, open, closed, loose) && r in loose
    ensures Memory(p, heap - {r}, hi, open, closed, loose - {r})
  {
    assert (heap - {r}).Keys == heap.Keys - {r};
  }

  lemma MemoryClosed(p: Problem, heap: Heap, hi: Ref, open: set<Ref>, closed: set<Ref>, loose: set<Ref>, r: Ref)
    requires Memory(p, heap, hi, open, closed, loose) && r in open
    ensures Memory(p, heap, hi, open - {r}, closed + {r}, loose)
  {
    assert p.base.Keys + open + closed + loose == p.base.Keys + (open - {r}) + (closed + {r}) + loose;
  }

  // ------------------------------------------------------------------------ the moves, together

  /** The state of a search between two list operations. */
  ghost predicate Sound(p: Problem, s: Snapshot) {
    && Memory(p, s.heap, s.hi, Refs(s.open), Refs(s.closed), s.loose)
    && Charted(p.w, s.heap, Refs(s.open), Refs(s.closed), s.k)
    && Ranked(p.w, s.open, s.heap) && Distinct(s.open) && Distinct(s.closed)
  }

  ghost function Freed(s: Snapshot, r: Ref): Snapshot {
    s.(heap := s.heap - {r}, loose := s.loose - {r})
  }

  lemma SoundFreed(p: Problem, s: Snapshot, r: Ref)
    requires Sound(p, s) && r in s.loose
    ensures Sound(p, Freed(s, r))
    ensures Costs(s.k.open, s.heap - {r}) == Costs(s.k.open, s.heap)
    ensures Costs(s.k.closed, s.heap - {r}) == Costs(s.k.closed, s.heap)
  {
    ChartedElsewhere(p.w, s.heap, s.heap - {r}, Refs(s.open), Refs(s.closed), s.k);
    RankedElsewhere(p.w, s.heap, s.heap - {r}, s.open);
    MemoryFreed(p, s.heap, s.hi, Refs(s.open), Refs(s.closed), s.loose, r);
  }

  ghost predicate HasHead(s: Snapshot) {
    s.open != [] && s.open[0].node in s.heap && s.heap[s.open[0].node].at in s.k.open
  }

  /** The head of the open list goes to the closed list. */
  ghost function HeadClosed(s: Snapshot, key: real): Snapshot
    requires HasHead(s)
  {
    var r := s.open[0].node;
    s.(open := s.open[1..], closed := Inserted(s.closed, Item(r, key)), k := Closing(s.k, s.heap[r].at))
  }

  lemma SoundClosed(p: Problem, s: Snapshot, key: real)
    requires Sound(p, s) && s.open != []
    ensures HasHead(s) && Sound(p, HeadClosed(s, key))
  {
    var r := s.open[0].node;
    assert r in Refs(s.open);
    RemovedKeeps(s.open, 0);
    RankedRemoved(p.w, s.heap, s.open, 0);
    Close(p.w, s.heap, Refs(s.open), Refs(s.closed), s.k, r);
    MemoryClosed(p, s.heap, s.hi, Refs(s.open), Refs(s.closed), s.loose, r);
    InsertedRefs(s.closed, Item(r, key));
    InsertedDistinct(s.closed, Item(r, key));
  }

  /** Newly made nodes are loose. */
  ghost function Grown(s: Snapshot, heap: Heap, hi: Ref, more: set<Ref>): Snapshot {
    s.(heap := heap, hi := hi, loose := s.loose + more)
  }

  lemma SoundGrown(p: Problem, s: Snapshot, heap: Heap, hi: Ref, more: set<Ref>)
    requires Sound(p, s)
    requires heap.Keys == s.heap.Keys + more && (forall r :: r in s.heap ==> heap[r] == s.heap[r])
    requires s.hi <= hi && forall r :: r in more ==> s.hi <= r < hi
    ensures Sound(p, Grown(s, heap, hi, more))
    ensures Costs(s.k.open, heap) == Costs(s.k.open, s.heap) && Costs(s.k.closed, heap) == Costs(s.k.closed, s.heap)
  {
    ChartedElsewhere(p.w, s.heap, heap, Refs(s.open), Refs(s.closed), s.k);
    RankedElsewhere(p.w, s.heap, heap, s.open);
    assert p.base.Keys + Refs(s.open) + Refs(s.closed) + (s.loose + more) == s.heap.Keys + more;
  }

  // ------------------------------------------------------------------------- one neighbour

  /** Takes the node at `at`, if the open list has one, off the list and frees it. */
  ghost function Superseded(heap: Heap, open: seq<Item>, at: Cell): (Heap, seq<Item>)
    requires Live(open, heap)
  {
    match FoundAt(open, heap, at)
    case None => (heap, open)
    case Some(r) => (heap - {r}, Without(open, heap, at))
  }

  /** Finding by coordinates finds the cell's own node. */
  lemma FindOwned(items: seq<Item>, heap: Heap, owner: map<Cell, Ref>, at: Cell)
    requires Owned(Refs(items), heap, owner)
    ensures Live(items, heap)
    ensures Find(items, heap, at) < |items| <==> at in owner
    ensures at in owner ==> items[Find(items, heap, at)].node == owner[at]
  {
    assert forall i :: 0 <= i < |items| ==> items[i].node in Refs(items);
    var k := Find(items, heap, at);
    if k < |items| {
      assert items[k].node in Refs(items);
    }
    if at in owner {
      var i :| 0 <= i < |items| && items[i].node == owner[at];
    }
  }

  /** The heap after the node at `at`, among `gone`, is freed and `r` has become the node of `at`. */
  ghost function Renewed(heap: Heap, r: Ref, node: Node, gone: set<Ref>): Heap {
    heap[r := node] - gone
  }

  /** The open node that a new node for `at` replaces. */
  ghost function Replaced(open: map<Cell, Ref>, at: Cell): set<Ref> {
    if at in open then {open[at]} else {}
  }

  lemma MemoryRenewed(p: Problem, heap: Heap, hi: Ref, open: set<Ref>, closed: set<Ref>, loose: set<Ref>,
                      r: Ref, node: Node, gone: set<Ref>)
    requires Memory(p, heap, hi, open, closed, loose) && r in loose && gone <= open
    ensures Memory(p, Renewed(heap, r, node, gone), hi, open - gone + {r}, closed, loose - {r})
  {
    assert Renewed(heap, r, node, gone).Keys == heap.Keys - gone;
    assert p.base.Keys + (open - gone + {r}) + closed + (loose - {r}) == p.base.Keys + open + closed + loose - gone;
  }

  lemma OwnedRenewed(open: set<Ref>, heap: Heap, owner: map<Cell, Ref>, r: Ref, node: Node)
    requires Owned(open, heap, owner) && r !in open
    ensures var gone := Replaced(owner, node.at);
      && gone <= open
      && Owned(open - gone + {r}, Renewed(heap, r, node, gone), owner[node.at := r])
      && Costs(owner[node.at := r], Renewed(heap, r, node, gone)) == Costs(owner, heap)[node.at := node.g]
  {
  }

  lemma OwnedKept(refs: set<Ref>, heap: Heap, owner: map<Cell, Ref>, r: Ref, node: Node, gone: set<Ref>)
    requires Owned(refs, heap, owner) && r !in refs && gone !! refs
    ensures Owned(refs, Renewed(heap, r, node, gone), owner)
    ensures Costs(owner, Renewed(heap, r, node, gone)) == Costs(owner, heap)
  {
  }

  /** The new node's route is that of the node it is linked to, and a legal move more. */
  lemma TracedRenewed(w: World, heap: Heap, closed: set<Ref>, routes: map<Ref, seq<Cell>>, r: Ref, b: Ref, node: Node,
                      gone: set<Ref>)
    requires Traced(w, heap, closed, routes, b) && b in closed && Move(w.blocked, heap[b].at, node.at)
    requires node.back == Some(b) && node.g == heap[b].g + w.d(node.at, heap[b].at) && r !in gone && r != b
    ensures Traced(w, Renewed(heap, r, node, gone), closed, routes[r := routes[b] + [node.at]], r)
  {
    RouteExtended(w.blocked, w.d, routes[b], w.start, heap[b].at, node.at);
  }

  lemma TracedKept(w: World, heap: Heap, closed: set<Ref>, routes: map<Ref, seq<Cell>>, r: Ref, node: Node,
                   gone: set<Ref>, route: seq<Cell>, q: Ref)
    requires Traced(w, heap, closed, routes, q) && q != r && q !in gone && r !in closed
    ensures Traced(w, Renewed(heap, r, node, gone), closed, routes[r := route], q)
  {
  }

  ghost function Linking(k: Known, r: Ref, b: Ref, at: Cell): Known
    requires b in k.routes
  {
    k.(open := k.open[at := r], routes := k.routes[r := k.routes[b] + [at]])
  }

  lemma ChartedRenewed(w: World, heap: Heap, open: set<Ref>, closed: set<Ref>, k: Known, r: Ref, b: Ref, node: Node)
    requires Contained(w) && Charted(w, heap, open, closed, k) && open !! closed
    requires r !in open && r !in closed && b in closed && node.at !in k.closed && Move(w.blocked, heap[b].at, node.at)
    requires node.back == Some(b) && node.g == heap[b].g + w.d(node.at, heap[b].at)
    ensures b in k.routes && Replaced(k.open, node.at) <= open
    ensures var gone := Replaced(k.open, node.at);
      Charted(w, Renewed(heap, r, node, gone), open - gone + {r}, closed, Linking(k, r, b, node.at))
  {
    var gone := Replaced(k.open, node.at);
    assert Traced(w, heap, closed, k.routes, b);
    var k', heap' := Linking(k, r, b, node.at), Renewed(heap, r, node, gone);
    OwnedRenewed(open, heap, k.open, r, node);
    OwnedKept(closed, heap, k.closed, r, node, gone);
    RouteExtended(w.blocked, w.d, k.routes[b], w.start, heap[b].at, node.at);
    assert Reachable(w, node.at);
    forall q | q in open - gone + {r} || q in closed ensures Traced(w, heap', closed, k'.routes, q) {
      if q == r {
        TracedRenewed(w, heap, closed, k.routes, r, b, node, gone);
      } else {
        TracedKept(w, heap, closed, k.routes, r, node, gone, k.routes[b] + [node.at], q);
      }
    }
  }

  /** The open list's side of it: the cell's old node leaves the list, ... */
  lemma ListSuperseded(w: World, heap: Heap, open: seq<Item>, owner: map<Cell, Ref>, r: Ref, node: Node)
    requires Owned(Refs(open), heap, owner) && Ranked(w, open, heap) && Distinct(open) && r !in Refs(open)
    ensures Live(open, heap[r := node])
    ensures var (heap', open') := Superseded(heap[r := node], open, node.at);
      && heap' == Renewed(heap, r, node, Replaced(owner, node.at))
      && Ranked(w, open', heap') && Distinct(open') && Refs(open') == Refs(open) - Replaced(owner, node.at)
  {
    var heap1 := heap[r := node];
    OwnedKept(Refs(open), heap, owner, r, node, {});
    assert Renewed(heap, r, node, {}) == heap1;
    FindOwned(open, heap1, owner, node.at);
    RankedElsewhere(w, heap, heap1, open);
    var i := Find(open, heap1, node.at);
    if i < |open| {
      RemovedKeeps(open, i);
      RankedRemoved(w, heap1, open, i);
      RankedElsewhere(w, heap1, heap1 - {open[i].node}, Removed(open, i));
    }
  }

  /** ... and the new one is inserted. */
  lemma ListRenewed(w: World, heap: Heap, open: seq<Item>, owner: map<Cell, Ref>, r: Ref, node: Node, key: real)
    requires Owned(Refs(open), heap, owner) && Ranked(w, open, heap) && Distinct(open) && r !in Refs(open)
    requires key == node.g + w.d(node.at, w.goal)
    ensures Live(open, heap[r := node])
    ensures var (heap', open1) := Superseded(heap[r := node], open, node.at);
      var open' := Inserted(open1, Item(r, key));
      && heap' == Renewed(heap, r, node, Replaced(owner, node.at))
      && Ranked(w, open', heap') && Distinct(open')
      && Refs(open') == Refs(open) - Replaced(owner, node.at) + {r}
  {
    ListSuperseded(w, heap, open, owner, r, node);
    assert r !in Replaced(owner, node.at);
    var (heap', open1) := Superseded(heap[r := node], open, node.at);
    var item := Item(r, key);
    InsertedRefs(open1, item);
    InsertedDistinct(open1, item);
    RankedInserted(w, heap', open1, item);
  }

  /** The node `r` has become the open node of its cell, linked to `b`. */
  ghost function Recorded(s: Snapshot, r: Ref, b: Ref, node: Node, open: seq<Item>): Snapshot
    requires b in s.k.routes
  {
    s.(heap := Renewed(s.heap, r, node, Replaced(s.k.open, node.at)), open := open, loose := s.loose - {r},
       k := Linking(s.k, r, b, node.at))
  }

  /** `node` is what `r` becomes when its cell is reached from the closed node `b`. */
  ghost predicate Offered(p: Problem, s: Snapshot, r: Ref, b: Ref, node: Node) {
    && r in s.loose && b in Refs(s.closed) && b in s.heap && node.at !in s.k.closed && Move(p.w.blocked, s.heap[b].at, node.at)
    && node.back == Some(b) && node.g == s.heap[b].g + p.w.d(node.at, s.heap[b].at)
  }

  lemma SoundRenewed(p: Problem, s: Snapshot, r: Ref, b: Ref, node: Node, open: seq<Item>)
    requires Sound(p, s) && Contained(p.w) && Offered(p, s, r, b, node)
    requires Ranked(p.w, open, Renewed(s.heap, r, node, Replaced(s.k.open, node.at))) && Distinct(open)
    requires Refs(open) == Refs(s.open) - Replaced(s.k.open, node.at) + {r}
    ensures b in s.k.routes && Sound(p, Recorded(s, r, b, node, open))
  {
    ChartedRenewed(p.w, s.heap, Refs(s.open), Refs(s.closed), s.k, r, b, node);
    MemoryRenewed(p, s.heap, s.hi, Refs(s.open), Refs(s.closed), s.loose, r, node, Replaced(s.k.open, node.at));
  }

  /** A cheaper way is recorded: the costs of the open cells change at one cell, those of the closed
      cells do not change. */
  lemma RecordedCosts(w: World, heap: Heap, open: set<Ref>, closed: set<Ref>, k: Known, r: Ref, b: Ref, node: Node)
    requires Owned(open, heap, k.open) && Owned(closed, heap, k.closed) && open !! closed
    requires r !in open && r !in closed && b in k.routes
    ensures var heap', k' := Renewed(heap, r, node, Replaced(k.open, node.at)), Linking(k, r, b, node.at);
      && (forall c :: c in k'.open ==> k'.open[c] in heap') && (forall c :: c in k'.closed ==> k'.closed[c] in heap')
      && Costs(k'.open, heap') == Costs(k.open, heap)[node.at := node.g]
      && Costs(k'.closed, heap') == Costs(k.closed, heap)
      && forall q :: q in heap' && q != r ==> q in heap && heap'[q] == heap[q]
  {
    OwnedRenewed(open, heap, k.open, r, node);
    OwnedKept(closed, heap, k.closed, r, node, Replaced(k.open, node.at));
  }

  ghost predicate Settling(w: World, heap: Heap, k: Known, at: Cell, todo: set<Cell>) {
    && (forall c :: c in k.open ==> k.open[c] in heap) && (forall c :: c in k.closed ==> k.closed[c] in heap)
    && Explored(w.blocked, w.d, w.start, Costs(k.closed, heap), Costs(k.open, heap), at, todo)
  }

  /** One turn of the neighbour loop keeps the state sound and settles one more move. */
  lemma RelaxedDropped(p: Problem, s: Snapshot, r: Ref, b: Ref, todo: set<Cell>)
    requires Sound(p, s) && r in s.loose && r in s.heap
    requires b in Refs(s.closed) && b in s.heap && p.w.start in s.k.closed && Settling(p.w, s.heap, s.k, s.heap[b].at, todo)
    requires var at := s.heap[r].at;
      at in s.k.closed || (at in s.k.open && s.heap[s.k.open[at]].g <= s.heap[b].g + p.w.d(at, s.heap[b].at))
    ensures Sound(p, Freed(s, r)) && Settling(p.w, s.heap - {r}, s.k, s.heap[b].at, todo - {s.heap[r].at})
  {
    SoundFreed(p, s, r);
    var cc, oo, at := Costs(s.k.closed, s.heap), Costs(s.k.open, s.heap), s.heap[b].at;
    assert at in cc && cc[at] == s.heap[b].g;
    MoveSettled(p.w.blocked, p.w.d, p.w.start, cc, oo, at, todo, s.heap[r].at, oo);
  }

  lemma RelaxedRecorded(w: World, heap: Heap, open: set<Ref>, closed: set<Ref>, k: Known, r: Ref, b: Ref, node: Node,
                        todo: set<Cell>)
    requires Owned(open, heap, k.open) && Owned(closed, heap, k.closed) && open !! closed
    requires r !in open && r !in closed && b in k.routes && b in closed
    requires w.start in k.closed && Settling(w, heap, k, heap[b].at, todo) && node.at !in k.closed
    requires node.g == heap[b].g + w.d(node.at, heap[b].at) && (node.at in k.open ==> node.g < heap[k.open[node.at]].g)
    ensures var heap' := Renewed(heap, r, node, Replaced(k.open, node.at));
      Settling(w, heap', Linking(k, r, b, node.at), heap[b].at, todo - {node.at})
  {
    RecordedCosts(w, heap, open, closed, k, r, b, node);
    var cc, oo := Costs(k.closed, heap), Costs(k.open, heap);
    assert heap[b].at in cc && cc[heap[b].at] == heap[b].g;
    MoveSettled(w.blocked, w.d, w.start, cc, oo, heap[b].at, todo, node.at, oo[node.at := node.g]);
  }

  lemma RelaxedImproved(p: Problem, s: Snapshot, r: Ref, b: Ref, node: Node, key: real)
    requires Sound(p, s) && Contained(p.w) && Offered(p, s, r, b, node) && key == node.g + p.w.d(node.at, p.w.goal)
    ensures b in s.k.routes && Live(s.open, s.heap[r := node])
    ensures var (heap, open) := Superseded(s.heap[r := node], s.open, node.at);
      && heap == Renewed(s.heap, r, node, Replaced(s.k.open, node.at))
      && Sound(p, Recorded(s, r, b, node, Inserted(open, Item(r, key))))
  {
    ListRenewed(p.w, s.heap, s.open, s.k.open, r, node, key);
    var (heap, open) := Superseded(s.heap[r := node], s.open, node.at);
    SoundRenewed(p, s, r, b, node, Inserted(open, Item(r, key)));
  }
}

/** The search of controllers/a_star.c on values alone: what is open, in order, and what is closed. It
    says for every map whether the program's list would be null when it is next read. */
module Reference {
  import opened Paths
  import opened NodeList
  import opened SearchState
  import opened Wrappers

  /** An open cell with its recorded cost and its sort value. */
  datatype Entry = Entry(at: Cell, g: real, key: real)

  datatype Stage = Stage(open: seq<Entry>, closed: set<Cell>)

  // --------------------------------------------------------------------------------- the search

  /** The first entry at a cell, the length when there is none. */
  ghost function Where(open: seq<Entry>, at: Cell): (k: nat)
    ensures k <= |open| && (k < |open| ==> open[k].at == at)
    ensures forall i :: 0 <= i < k ==> open[i].at != at
  {
    if open == [] || open[0].at == at then 0 else 1 + Where(open[1..], at)
  }

  /** Behind every smaller or equal sort value, before the first greater. */
  ghost function Placed(open: seq<Entry>, e: Entry): seq<Entry> {
    Spliced(open, Slot(seq(|open|, i requires 0 <= i < |open| => Item(0, open[i].key)), e.key), e)
  }

  ghost function Dropped(open: seq<Entry>, at: Cell): seq<Entry> {
    if Where(open, at) < |open| then Removed(open, Where(open, at)) else open
  }

  /** What the neighbour `n` costs through `u`. */
  ghost function Tentative(w: World, u: Entry, n: Cell): real {
    u.g + w.d(n, u.at)
  }

  /** The neighbour is recorded anew: it is not closed, and not open already at that cost. */
  ghost predicate Offers(w: World, st: Stage, u: Entry, n: Cell) {
    && n !in st.closed
    && (Where(st.open, n) < |st.open| ==> Tentative(w, u, n) < st.open[Where(st.open, n)].g)
  }

  ghost function Relax(w: World, st: Stage, u: Entry, n: Cell): Stage {
    if Offers(w, st, u, n) then
      var g := Tentative(w, u, n);
      st.(open := Placed(Dropped(st.open, n), Entry(n, g, g + w.d(n, w.goal))))
    else st
  }

  /** Recording the neighbour takes out the only open entry, which leaves the program a null list. */
  ghost predicate Nulls(w: World, st: Stage, u: Entry, n: Cell) {
    Offers(w, st, u, n) && |st.open| == 1 && st.open[0].at == n
  }

  ghost function RelaxAll(w: World, st: Stage, u: Entry, ns: seq<Cell>): Stage
    decreases |ns|
  {
    if ns == [] then st else RelaxAll(w, Relax(w, st, u, ns[0]), u, ns[1..])
  }

  ghost predicate NullsIn(w: World, st: Stage, u: Entry, ns: seq<Cell>)
    decreases |ns|
  {
    ns != [] && (Nulls(w, st, u, ns[0]) || NullsIn(w, Relax(w, st, u, ns[0]), u, ns[1..]))
  }

  /** The first `n` of the three steps of genNeighbors' inner loop that are legal. */
  ghost function Row(blocked: set<Cell>, at: Cell, i: int, n: nat): seq<Cell> {
    if n == 0 then []
    else
      var c := Cell(at.x + i, at.y + (n - 2));
      Row(blocked, at, i, n - 1) + if Move(blocked, at, c) then [c] else []
  }

  /** The first `m` of its three rows. */
  ghost function Rows(blocked: set<Cell>, at: Cell, m: nat): seq<Cell> {
    if m == 0 then [] else Rows(blocked, at, m - 1) + Row(blocked, at, m - 2, 3)
  }

  /** The legal moves from a cell in the order of genNeighbors. */
  ghost function Moves(blocked: set<Cell>, at: Cell): seq<Cell> {
    Rows(blocked, at, 3)
  }

  /** The search goes on: the list is not empty and its head is not the goal. */
  ghost predicate Continues(w: World, st: Stage) {
    st.open != [] && st.open[0].at != w.goal
  }

  ghost function Closed(st: Stage): Stage
    requires st.open != []
  {
    Stage(st.open[1..], st.closed + {st.open[0].at})
  }

  /** One turn of the main loop. */
  ghost function Expand(w: World, st: Stage): Stage
    requires st.open != []
  {
    RelaxAll(w, Closed(st), st.open[0], Moves(w.blocked, st.open[0].at))
  }

  /** Some neighbour of the head leaves a null list. */
  ghost predicate Fails(w: World, st: Stage) {
    Continues(w, st) && NullsIn(w, Closed(st), st.open[0], Moves(w.blocked, st.open[0].at))
  }

  ghost function Begins(w: World): Stage {
    Stage([Entry(w.start, 0.0, w.d(w.start, w.goal))], {})
  }

  /** Stage `i` is a turn of the main loop after the one before it. */
  ghost predicate Follows(w: World, tr: seq<Stage>, i: nat)
    requires 0 < i < |tr|
  {
    Continues(w, tr[i - 1]) && tr[i] == Expand(w, tr[i - 1])
  }

  /** The stages at the head of the main loop, from the first on. */
  ghost predicate Trace(w: World, tr: seq<Stage>) {
    && tr != [] && tr[0] == Begins(w)
    && forall i :: 0 < i < |tr| ==> Follows(w, tr, i)
  }

  /** The search of `w` comes to a relaxation after which the program reads through a null list. */
  ghost predicate Crashes(w: World) {
    exists tr :: Trace(w, tr) && Fails(w, tr[|tr| - 1])
  }

  /** A search takes one course. */
  lemma {:induction false} TraceUnique(w: World, a: seq<Stage>, b: seq<Stage>, n: nat)
    requires Trace(w, a) && Trace(w, b) && n < |a| && n < |b|
    ensures a[n] == b[n]
  {
    if n > 0 {
      TraceUnique(w, a, b, n - 1);
      assert Follows(w, a, n) && Follows(w, b, n);
    }
  }

  /** A search that has come to its end took no longer course. */
  lemma TraceEnds(w: World, tr: seq<Stage>, t: seq<Stage>)
    requires Trace(w, tr) && !Continues(w, tr[|tr| - 1]) && Trace(w, t)
    ensures |t| <= |tr|
  {
    if |t| > |tr| {
      assert Follows(w, t, |tr|);
      TraceUnique(w, t, tr, |tr| - 1);
      assert false;
    }
  }

  lemma TraceExtended(w: World, tr: seq<Stage>, st: Stage)
    requires Trace(w, tr) && Continues(w, tr[|tr| - 1]) && st == Expand(w, tr[|tr| - 1])
    ensures Trace(w, tr + [st])
  {
    forall i | 0 < i < |tr| + 1 ensures Follows(w, tr + [st], i) {
      if i < |tr| {
        assert Follows(w, tr, i);
      }
    }
  }

  lemma TracePrefix(w: World, tr: seq<Stage>, n: nat)
    requires Trace(w, tr) && 0 < n <= |tr|
    ensures Trace(w, tr[..n])
  {
    forall i | 0 < i < n ensures Follows(w, tr[..n], i) {
      assert Follows(w, tr, i);
    }
  }

  /** A search that has come to its end crashes exactly when one of its stages fails. */
  lemma CrashesExactly(w: World, tr: seq<Stage>)
    requires Trace(w, tr) && !Continues(w, tr[|tr| - 1])
    ensures Crashes(w) <==> exists i :: 0 <= i < |tr| && Fails(w, tr[i])
  {
    if Crashes(w) {
      var t :| Trace(w, t) && Fails(w, t[|t| - 1]);
      TraceEnds(w, tr, t);
      TraceUnique(w, t, tr, |t| - 1);
      assert Fails(w, tr[|t| - 1]);
    }
    if i :| 0 <= i < |tr| && Fails(w, tr[i]) {
      TracePrefix(w, tr, i + 1);
      assert Fails(w, tr[..i + 1][i]);
    }
  }

  // ----------------------------------------------------------------------- the moves, in order

  lemma {:induction false} RowMoves(blocked: set<Cell>, at: Cell, i: int, n: nat)
    requires -1 <= i <= 1 && n <= 3
    ensures forall c :: c in Row(blocked, at, i, n) <==> Move(blocked, at, c) && c.x == at.x + i && c.y - at.y < n - 1
  {
    if n > 0 {
      RowMoves(blocked, at, i, n - 1);
    }
  }

  lemma {:induction false} RowsMoves(blocked: set<Cell>, at: Cell, m: nat)
    requires m <= 3
    ensures forall c :: c in Rows(blocked, at, m) <==> Move(blocked, at, c) && c.x - at.x < m - 1
  {
    if m > 0 {
      RowsMoves(blocked, at, m - 1);
      RowMoves(blocked, at, m - 2, 3);
    }
  }

  lemma MovesAreMoves(blocked: set<Cell>, at: Cell)
    ensures forall c :: c in Moves(blocked, at) <==> Move(blocked, at, c)
  {
    RowsMoves(blocked, at, 3);
  }

  // ------------------------------------------------------------------ lists and heap as a stage

  ghost function EntryOf(item: Item, heap: Heap): Entry {
    if item.node in heap then Entry(heap[item.node].at, heap[item.node].g, item.key)
    else Entry(Cell(0, 0), 0.0, item.key)
  }

  ghost function Entries(items: seq<Item>, heap: Heap): (es: seq<Entry>)
    ensures |es| == |items| && forall i :: 0 <= i < |es| ==> es[i] == EntryOf(items[i], heap)
  {
    seq(|items|, i requires 0 <= i < |items| => EntryOf(items[i], heap))
  }

  ghost function StageOf(s: Snapshot): Stage {
    Stage(Entries(s.open, s.heap), s.k.closed.Keys)
  }

  lemma EntriesElsewhere(items: seq<Item>, heap: Heap, heap': Heap)
    requires Live(items, heap)
    requires forall r :: r in Refs(items) ==> r in heap' && heap'[r] == heap[r]
    ensures Entries(items, heap') == Entries(items, heap)
  {
    assert forall i :: 0 <= i < |items| ==> items[i].node in Refs(items);
  }

  lemma WhereIsFind(items: seq<Item>, heap: Heap, at: Cell)
    requires Live(items, heap)
    ensures Where(Entries(items, heap), at) == Find(items, heap, at)
  {
    var es, j, k := Entries(items, heap), Where(Entries(items, heap), at), Find(items, heap, at);
    assert j < |items| ==> es[j].at == at && !(j < k);
    assert k < |items| ==> es[k].at == at && !(k < j);
  }

  lemma EntriesDropped(items: seq<Item>, heap: Heap, at: Cell)
    requires Live(items, heap)
    ensures Entries(Without(items, heap, at), heap) == Dropped(Entries(items, heap), at)
  {
    WhereIsFind(items, heap, at);
  }

  /** The slot depends on the sort values alone. */
  lemma SlotByKeys(a: seq<Item>, b: seq<Item>, key: real)
    requires |a| == |b| && forall i :: 0 <= i < |a| ==> a[i].key == b[i].key
    ensures Slot(a, key) == Slot(b, key)
  {
  }

  lemma EntriesPlaced(items: seq<Item>, heap: Heap, item: Item)
    ensures Entries(Inserted(items, item), heap) == Placed(Entries(items, heap), EntryOf(item, heap))
  {
    var es := Entries(items, heap);
    SlotByKeys(items, seq(|es|, i requires 0 <= i < |es| => Item(0, es[i].key)), item.key);
  }

  // ----------------------------------------------------------------- the planner's steps on stages

  /** The node `b` is where the entry `u` says. */
  ghost predicate Stands(heap: Heap, b: Ref, u: Entry) {
    b in heap && heap[b].at == u.at && heap[b].g == u.g
  }

  lemma EntryOfOwn(items: seq<Item>, heap: Heap, owner: map<Cell, Ref>, at: Cell)
    requires Owned(Refs(items), heap, owner)
    ensures Live(items, heap)
    ensures var es := Entries(items, heap);
      && (Where(es, at) < |es| <==> at in owner)
      && (at in owner ==> es[Where(es, at)].g == heap[owner[at]].g)
  {
    FindOwned(items, heap, owner, at);
    WhereIsFind(items, heap, at);
  }

  /** A neighbour that is freed changes nothing, and is not one that the search would record. */
  lemma StageDropped(p: Problem, s: Snapshot, r: Ref, b: Ref, u: Entry)
    requires Sound(p, s) && r in s.loose && r in s.heap && Stands(s.heap, b, u)
    requires var at := s.heap[r].at;
      at in s.k.closed || (at in s.k.open && s.heap[s.k.open[at]].g <= s.heap[b].g + p.w.d(at, s.heap[b].at))
    ensures StageOf(Freed(s, r)) == StageOf(s) == Relax(p.w, StageOf(s), u, s.heap[r].at)
    ensures !Nulls(p.w, StageOf(s), u, s.heap[r].at)
  {
    EntryOfOwn(s.open, s.heap, s.k.open, s.heap[r].at);
    EntriesElsewhere(s.open, s.heap, s.heap - {r});
  }

  /** The open list of a sound state has one entry exactly when there is one open cell. */
  lemma OnlyOpen(items: seq<Item>, heap: Heap, owner: map<Cell, Ref>, at: Cell)
    requires Owned(Refs(items), heap, owner) && Distinct(items)
    ensures Live(items, heap) && (|items| == 1 && heap[items[0].node].at == at <==> owner.Keys == {at})
  {
    assert forall i :: 0 <= i < |items| ==> items[i].node in Refs(items);
    if owner.Keys == {at} {
      assert owner[at] in Refs(items);
      forall i | 0 <= i < |items| ensures items[i].node == owner[at] && i < 1 {
        assert heap[items[i].node].at in owner.Keys && heap[items[0].node].at in owner.Keys;
      }
      assert items[|items| - 1].node == owner[at];
    }
    if |items| == 1 && heap[items[0].node].at == at {
      forall c | c in owner ensures c == at {
        assert owner[c] in Refs(items);
      }
    }
  }

  lemma EntriesSuperseded(heap: Heap, open: seq<Item>, at: Cell)
    requires Live(open, heap) && Distinct(open)
    ensures var (heap', left) := Superseded(heap, open, at); Entries(left, heap') == Dropped(Entries(open, heap), at)
  {
    EntriesDropped(open, heap, at);
    var k := Find(open, heap, at);
    if k < |open| {
      RemovedKeeps(open, k);
      assert Live(Removed(open, k), heap);
      EntriesElsewhere(Removed(open, k), heap, heap - {open[k].node});
    }
  }

  lemma EntriesRecorded(heap: Heap, open: seq<Item>, r: Ref, node: Node, key: real)
    requires Live(open, heap) && Distinct(open) && r !in Refs(open) && Live(open, heap[r := node])
    ensures var (heap', left) := Superseded(heap[r := node], open, node.at);
      r in heap' && heap'[r] == node ==>
      Entries(Inserted(left, Item(r, key)), heap') == Placed(Dropped(Entries(open, heap), node.at), Entry(node.at, node.g, key))
  {
    EntriesElsewhere(open, heap, heap[r := node]);
    EntriesSuperseded(heap[r := node], open, node.at);
    var (heap', left) := Superseded(heap[r := node], open, node.at);
    EntriesPlaced(left, heap', Item(r, key));
  }

  lemma Offering(w: World, heap: Heap, open: seq<Item>, closed: set<Cell>, owner: map<Cell, Ref>, u: Entry, at: Cell, g: real)
    requires Owned(Refs(open), heap, owner) && Distinct(open) && at !in closed && g == Tentative(w, u, at)
    requires at in owner ==> g < heap[owner[at]].g
    ensures Offers(w, Stage(Entries(open, heap), closed), u, at)
    ensures Nulls(w, Stage(Entries(open, heap), closed), u, at) <==> owner.Keys == {at}
  {
    EntryOfOwn(open, heap, owner, at);
    OnlyOpen(open, heap, owner, at);
  }

  /** A neighbour that is recorded is recorded as the search says. */
  lemma StageRecorded(w: World, heap: Heap, open: seq<Item>, st: Stage, r: Ref, node: Node, key: real, u: Entry,
                      heap': Heap, open': seq<Item>)
    requires Live(open, heap) && Distinct(open) && r !in Refs(open) && Live(open, heap[r := node])
    requires st.open == Entries(open, heap) && Offers(w, st, u, node.at)
    requires node.g == Tentative(w, u, node.at) && key == node.g + w.d(node.at, w.goal)
    requires heap' == Superseded(heap[r := node], open, node.at).0 && r in heap' && heap'[r] == node
    requires open' == Inserted(Superseded(heap[r := node], open, node.at).1, Item(r, key))
    ensures Stage(Entries(open', heap'), st.closed) == Relax(w, st, u, node.at)
  {
    EntriesRecorded(heap, open, r, node, key);
    RelaxRecords(w, st, u, node.at, node.g, key);
  }

  lemma RelaxRecords(w: World, st: Stage, u: Entry, n: Cell, g: real, key: real)
    requires Offers(w, st, u, n) && g == Tentative(w, u, n) && key == g + w.d(n, w.goal)
    ensures Relax(w, st, u, n) == Stage(Placed(Dropped(st.open, n), Entry(n, g, key)), st.closed)
  {
  }

  /** The head leaves the open list for the closed cells. */
  lemma StageClosed(s: Snapshot, s': Snapshot)
    requires Live(s.open, s.heap) && s.open != []
    requires forall r :: r in s.heap ==> r in s'.heap && s'.heap[r] == s.heap[r]
    requires s'.open == s.open[1..] && s'.k.closed.Keys == s.k.closed.Keys + {s.heap[s.open[0].node].at}
    ensures StageOf(s').open == Closed(StageOf(s)).open && StageOf(s').closed == Closed(StageOf(s)).closed
  {
    EntriesElsewhere(s.open, s.heap, s'.heap);
    assert Entries(s'.open, s'.heap) == Entries(s.open, s'.heap)[1..];
  }
}

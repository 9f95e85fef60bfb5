/** The lists of controllers/mapping.c: chains of cells that hold a node and a sort value, changed in
    place, against the sequence of what the cells hold. Nodes live in an explicit heap. */
module NodeList {
  import opened Paths
  import opened Wrappers

  type Ref = nat

  datatype Node = Node(at: Cell, g: real, back: Option<Ref>)

  type Heap = map<Ref, Node>

  datatype Item = Item(node: Ref, key: real)

  ghost predicate Live(items: seq<Item>, heap: Heap) {
    forall i :: 0 <= i < |items| ==> items[i].node in heap
  }

  ghost function Refs(items: seq<Item>): set<Ref> {
    set i | 0 <= i < |items| :: items[i].node
  }

  ghost predicate Sorted(items: seq<Item>) {
    forall i, j :: 0 <= i < j < |items| ==> items[i].key <= items[j].key
  }

  /** Where addNode puts a sort value: behind every smaller or equal one, before the first greater. */
  function Slot(items: seq<Item>, key: real): (k: nat)
    ensures k <= |items|
    ensures forall i :: 0 <= i < k ==> items[i].key <= key
    ensures k < |items| ==> items[k].key > key
  {
    if items == [] || items[0].key > key then 0 else 1 + Slot(items[1..], key)
  }

  /** `s` with `x` put in at position `i`. */
  ghost function Spliced<T>(s: seq<T>, i: nat, x: T): (r: seq<T>)
    requires i <= |s|
    ensures |r| == |s| + 1 && r[i] == x
    ensures forall j :: 0 <= j < i ==> r[j] == s[j]
    ensures forall j :: i < j < |r| ==> r[j] == s[j - 1]
  {
    s[..i] + [x] + s[i..]
  }

  ghost predicate Unrepeated<T>(s: seq<T>) {
    forall i, j :: 0 <= i < j < |s| ==> s[i] != s[j]
  }

  lemma SplicedUnrepeated<T>(s: seq<T>, i: nat, x: T)
    requires Unrepeated(s) && i <= |s| && x !in s
    ensures Unrepeated(Spliced(s, i, x))
  {
  }

  ghost function Inserted(items: seq<Item>, item: Item): seq<Item> {
    Spliced(items, Slot(items, item.key), item)
  }

  /** Insertion keeps a sorted list sorted and is stable: the new item is the last of its key. */
  lemma InsertedSorted(items: seq<Item>, item: Item)
    requires Sorted(items)
    ensures Sorted(Inserted(items, item))
    ensures forall i :: 0 <= i < |items| && items[i].key == item.key ==> i < Slot(items, item.key)
  {
    var k := Slot(items, item.key);
    forall i | k <= i < |items| ensures items[i].key > item.key {
      assert i > k ==> items[k].key <= items[i].key;
    }
  }

  lemma InsertedRefs(items: seq<Item>, item: Item)
    ensures Refs(Inserted(items, item)) == Refs(items) + {item.node}
  {
    var k, s := Slot(items, item.key), Inserted(items, item);
    assert s[k] == item;
    forall i | 0 <= i < |items| ensures items[i].node in Refs(s) {
      assert items[i] == s[if i < k then i else i + 1];
    }
  }

  ghost predicate Distinct(items: seq<Item>) {
    forall i, j :: 0 <= i < j < |items| ==> items[i].node != items[j].node
  }

  lemma InsertedDistinct(items: seq<Item>, item: Item)
    requires Distinct(items) && item.node !in Refs(items)
    ensures Distinct(Inserted(items, item))
  {
    assert forall i :: 0 <= i < |items| ==> items[i].node in Refs(items);
  }

  ghost function Removed<T>(s: seq<T>, k: nat): (r: seq<T>)
    requires k < |s|
    ensures |r| == |s| - 1
    ensures forall j :: 0 <= j < k ==> r[j] == s[j]
    ensures forall j :: k <= j < |r| ==> r[j] == s[j + 1]
  {
    s[..k] + s[k + 1..]
  }

  /** Removal takes out one node, nothing else, and keeps the order. */
  lemma RemovedKeeps(items: seq<Item>, k: nat)
    requires k < |items| && Distinct(items)
    ensures Refs(Removed(items, k)) == Refs(items) - {items[k].node}
    ensures Distinct(Removed(items, k)) && (Sorted(items) ==> Sorted(Removed(items, k)))
    ensures k == 0 ==> Removed(items, k) == items[1..]
  {
    var s := Removed(items, k);
    assert forall i :: 0 <= i < |s| ==> s[i] == items[if i < k then i else i + 1];
    forall i | 0 <= i < |items| && i != k ensures items[i].node in Refs(s) {
      assert items[i] == s[if i < k then i else i - 1];
    }
  }

  lemma HeadOff(items: seq<Item>)
    requires items != [] && Distinct(items)
    ensures items[0].node in Refs(items) && Refs(items[1..]) == Refs(items) - {items[0].node} && Distinct(items[1..])
  {
    RemovedKeeps(items, 0);
  }

  /** findNode: the first item at a cell, the length when there is none. */
  function Find(items: seq<Item>, heap: Heap, at: Cell): (k: nat)
    requires Live(items, heap)
    ensures k <= |items|
    ensures k < |items| ==> heap[items[k].node].at == at
    ensures forall i :: 0 <= i < k ==> heap[items[i].node].at != at
  {
    if items == [] then 0
    else if heap[items[0].node].at == at then 0
    else
      assert forall i :: 1 <= i < |items| ==> items[i] == items[1..][i - 1];
      1 + Find(items[1..], heap, at)
  }

  /** What findNode returns. */
  function FoundAt(items: seq<Item>, heap: Heap, at: Cell): Option<Ref>
    requires Live(items, heap)
  {
    var k := Find(items, heap, at);
    if k < |items| then Some(items[k].node) else None
  }

  /** The list without the first node at a cell. */
  ghost function Without(items: seq<Item>, heap: Heap, at: Cell): seq<Item>
    requires Live(items, heap)
  {
    var k := Find(items, heap, at);
    if k < |items| then Removed(items, k) else items
  }

  /** l_list_t. A cell without a head is the empty list that `newList` makes. A cell stays in the list
      that made it. */
  class ListCell {
    var head: Option<Ref>
    var key: real
    var tail: ListCell?
    ghost const owner: List

    constructor (list: List)
      ensures owner == list && head == None && tail == null
    {
      owner, head, key, tail := list, None, 0.0, null;
    }
  }

  /** A variable of type l_list_t*, which may be null. Its chain holds the items in order and may end
      in an empty cell. */
  class List {
    var first: ListCell?
    ghost var cells: seq<ListCell>
    ghost var items: seq<Item>

    /** The chain from `first` on, and what its cells hold. */
    ghost predicate Chain()
      requires |items| <= |cells| <= |items| + 1
      reads this, cells
    {
      && first == (if cells == [] then null else cells[0])
      && Unrepeated(cells)
      && (forall i {:trigger cells[i].tail} :: 0 <= i < |cells| ==>
            cells[i].tail == if i + 1 < |cells| then cells[i + 1] else null)
      && (forall i {:trigger cells[i].head} :: 0 <= i < |cells| ==>
            cells[i].head == if i < |items| then Some(items[i].node) else None)
      && (forall i {:trigger cells[i].key} :: 0 <= i < |items| ==> cells[i].key == items[i].key)
    }

    ghost predicate Valid()
      reads this, cells
    {
      && |items| <= |cells| <= |items| + 1
      && (forall i :: 0 <= i < |cells| ==> cells[i].owner == this)
      && (forall t {:trigger Look(t)} :: Look(t) ==> Chain())
    }

    /** No empty cell behind an item: what the lists are that are never pushed to. */
    ghost predicate Tight()
      reads this
    {
      items != [] ==> |cells| == |items|
    }

    constructor ()
      ensures Valid() && Tight() && items == [] && first != null && fresh(first)
    {
      new;
      first := new ListCell(this);
      cells, items := [first], [];
    }

    /** Makes a null variable point to a new empty list. */
    method Renew()
      requires Valid() && first == null
      modifies this
      ensures Valid() && Tight() && items == [] && first != null
    {
      assert Look(0);
      first := new ListCell(this);
      cells := [first];
    }

    /** An empty cell, the last of its chain, takes the node. */
    method Fill(at: ListCell, node: Ref, key: real)
      requires Valid() && |cells| == |items| + 1 && at == cells[|items|]
      modifies this`items, at
      ensures Valid() && items == old(items) + [Item(node, key)]
    {
      assert Look(0);
      at.head, at.key := Some(node), key;
      items := items + [Item(node, key)];
    }

    /** A new cell behind `at` holds what `at` holds. */
    method Duplicate(at: ListCell, ghost i: nat)
      requires Valid() && i < |items| && at == cells[i]
      modifies this`items, this`cells, at`tail
      ensures Valid() && items == Spliced(old(items), i, old(items)[i]) && at == cells[i]
      ensures |cells| == |old(cells)| + 1
    {
      assert Look(0);
      var moved := new ListCell(this);
      moved.head, moved.key, moved.tail := at.head, at.key, at.tail;
      at.tail := moved;
      SplicedUnrepeated(cells, i + 1, moved);
      cells, items := Spliced(cells, i + 1, moved), Spliced(items, i, items[i]);
    }

    /** A cell takes the node and passes what it held on to a new cell behind it. */
    method Swap(at: ListCell, ghost i: nat, node: Ref, key: real)
      requires Valid() && i < |items| && at == cells[i]
      modifies this`items, this`cells, at
      ensures Valid() && items == Spliced(old(items), i, Item(node, key))
      ensures |cells| == |old(cells)| + 1
    {
      assert Look(0);
      Duplicate(at, i);
      at.head, at.key := Some(node), key;
      items := items[i := Item(node, key)];
    }

    /** The last cell gets an empty cell behind it. */
    method Extend(at: ListCell)
      requires Valid() && |cells| == |items| && cells != [] && at == cells[|cells| - 1]
      modifies this`cells, at
      ensures Valid() && |cells| == |old(cells)| + 1 && at.tail == cells[|items|] && cells[..|items|] == old(cells)
    {
      assert Look(0);
      at.tail := new ListCell(this);
      cells := cells + [at.tail];
    }

    /** addNode from the cell `at` on. */
    method AddFrom(at: ListCell, ghost i: nat, node: Ref, key: real)
      requires Valid() && i < |cells| && at == cells[i]
      requires i <= Slot(items, key)
      modifies this`items, this`cells, iset c: ListCell | c.owner == this
      ensures Valid() && items == Inserted(old(items), Item(node, key))
      ensures |cells| - |items| == if Slot(old(items), key) == |old(items)| then 0 else |old(cells)| - |old(items)|
      decreases |items| - i
    {
      assert Look(0);
      if at.head == None {
        Fill(at, node, key);
      } else if at.key > key {
        Swap(at, i, node, key);
      } else {
        if at.tail == null {
          Extend(at);
        }
        AddFrom(at.tail, i + 1, node, key);
      }
    }

    /** The node goes behind every item whose sort value is not greater, in the cell that was there. */
    method AddNode(node: Ref, key: real)
      requires Valid() && first != null
      modifies this`items, this`cells, iset c: ListCell | c.owner == this
      ensures Valid() && first != null && items == Inserted(old(items), Item(node, key))
      ensures old(Tight()) ==> Tight()
    {
      assert Look(0);
      AddFrom(first, 0, node, key);
    }

    /** findNode from a cell on. */
    method FindFrom(at: ListCell?, ghost i: nat, heap: Heap, cell: Cell) returns (found: Option<Ref>)
      requires Valid() && Live(items, heap) && i <= |items| && at == (if i == |cells| then null else cells[i])
      requires Find(items, heap, cell) >= i
      ensures found == FoundAt(items, heap, cell)
      decreases |cells| - i
    {
      assert Look(0);
      if at == null || at.head == None {
        found := None;
      } else if heap[at.head.value].at == cell {
        found := at.head;
      } else {
        found := FindFrom(at.tail, i + 1, heap, cell);
      }
    }

    method FindNode(heap: Heap, cell: Cell) returns (found: Option<Ref>)
      requires Valid() && Live(items, heap)
      ensures found == FoundAt(items, heap, cell)
    {
      assert Look(0);
      found := FindFrom(first, 0, heap, cell);
    }

    /** The cell `at` is unlinked: the variable or the cell before it is pointed to what follows. */
    method Unlink(before: ListCell?, at: ListCell, ghost i: nat)
      requires Valid() && i < |items| && at == cells[i] && before == (if i == 0 then null else cells[i - 1])
      modifies this, iset c: ListCell | c.owner == this
      ensures Valid() && cells == Removed(old(cells), i) && items == Removed(old(items), i)
    {
      assert Look(0);
      if before == null {
        first := at.tail;
      } else {
        before.tail := at.tail;
      }
      cells, items := Removed(cells, i), Removed(items, i);
    }

    /** removeNode from the cell `at` on, which `before` points to, or the variable itself. */
    method RemoveFrom(before: ListCell?, at: ListCell?, ghost i: nat, heap: Heap, cell: Cell) returns (removed: Option<Ref>)
      requires Valid() && Live(items, heap) && i <= |items| && at == (if i == |cells| then null else cells[i])
      requires before == (if i == 0 then null else cells[i - 1])
      requires Find(items, heap, cell) >= i
      modifies this, iset c: ListCell | c.owner == this
      ensures Valid() && removed == FoundAt(old(items), heap, cell)
      ensures var k := Find(old(items), heap, cell);
        if k == |old(items)| then cells == old(cells) && items == old(items)
        else cells == Removed(old(cells), k) && items == Removed(old(items), k)
      decreases |cells| - i
    {
      assert Look(0);
      if at == null || at.head == None {
        removed := None;
      } else if heap[at.head.value].at == cell {
        removed := at.head;
        Unlink(before, at, i);
      } else {
        removed := RemoveFrom(at, at.tail, i + 1, heap, cell);
      }
    }

    /** Unlinks the first node at a cell and says which one it was. A list that is never pushed to is
        left null exactly when that was its only item. */
    method RemoveNode(heap: Heap, cell: Cell) returns (removed: Option<Ref>)
      requires Valid() && Live(items, heap)
      modifies this, iset c: ListCell | c.owner == this
      ensures Valid() && removed == FoundAt(old(items), heap, cell)
      ensures items == Without(old(items), heap, cell)
      ensures old(Tight()) && old(first) != null ==>
        Tight() && (first == null <==> |old(items)| == 1 && heap[old(items)[0].node].at == cell)
    {
      assert Look(0);
      removed := RemoveFrom(null, first, 0, heap, cell);
    }

    /** Unlinks the first cell; the variable is never null afterwards. */
    method Pop() returns (head: Option<Ref>)
      requires Valid() && first != null
      modifies this
      ensures Valid() && first != null && (old(Tight()) ==> Tight())
      ensures if old(items) == [] then head == None && items == []
              else head == Some(old(items)[0].node) && items == old(items)[1..]
    {
      assert Look(0);
      head := first.head;
      first := first.tail;
      cells := cells[1..];
      if items != [] {
        items := items[1..];
      }
      if first == null {
        first := new ListCell(this);
        cells := [first];
      }
    }

    /** A new cell in front of whatever the variable points to. */
    method Push(node: Ref)
      requires Valid()
      modifies this
      ensures Valid() && first != null && items == [Item(node, 0.0)] + old(items)
    {
      assert Look(0);
      var cell := new ListCell(this);
      cell.head, cell.key, cell.tail := Some(node), 0.0, first;
      first := cell;
      cells, items := [cell] + cells, [Item(node, 0.0)] + items;
    }
  }
}

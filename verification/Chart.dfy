/** The planner's side of the map updates of controllers/a_star.c: its map, and the message it receives
    them in. */
module Charts {
  import opened Paths
  import opened MapStream

  const RECV_ENTRIES := 200

  class Chart {
    const size: nat
    const blocked: array2<bool>
    const obsX: array<int>
    const obsY: array<int>
    var sentPose: Cell
    var sentCount: int

    ghost predicate Valid() {
      && blocked.Length0 == blocked.Length1 == size
      && obsX.Length == obsY.Length == RECV_ENTRIES && obsX != obsY
    }

    ghost function Blocked(): set<Cell>
      requires Valid()
      reads blocked
    {
      set x: int, y: int | 0 <= x < size && 0 <= y < size && blocked[x, y] :: Cell(x, y)
    }

    constructor (n: nat)
      ensures Valid() && size == n && Blocked() == {} && sentCount == 0
      ensures fresh(blocked) && fresh(obsX) && fresh(obsY)
    {
      size := n;
      blocked := new bool[n, n]((i, j) => false);
      obsX := new int[RECV_ENTRIES](i => 0);
      obsY := new int[RECV_ENTRIES](i => 0);
      sentPose, sentCount := Cell(0, 0), 0;
    }

    /** The first cells that the message lists. */
    ghost function Held(count: int): seq<Cell>
      requires Valid() && count <= RECV_ENTRIES
      reads obsX, obsY
    {
      if count <= 0 then [] else Listed(obsX[..], obsY[..], count)
    }

    ghost predicate OnChart(cells: seq<Cell>) {
      forall c :: c in cells ==> 0 <= c.x < size && 0 <= c.y < size
    }

    /** Marks the first `count` listed cells. */
    method MarkAll(count: int)
      requires Valid() && count <= RECV_ENTRIES && OnChart(Held(count))
      modifies blocked
      ensures Blocked() == old(Blocked()) + set c | c in Held(count)
    {
      ghost var cells := Held(count);
      var i := 0;
      while i < count
        invariant 0 <= i <= |cells| && Blocked() == old(Blocked()) + set c | c in cells[..i]
      {
        assert cells[i] in cells && cells[i] == Cell(obsX[i], obsY[i]);
        assert cells[..i + 1] == cells[..i] + [cells[i]];
        ghost var seen := Blocked();
        blocked[obsX[i], obsY[i]] := true;
        assert Blocked() == seen + {cells[i]};
        i := i + 1;
      }
      assert cells[..|cells|] == cells;
    }

    /** What fits the message: neither count exceeds its arrays. */
    ghost predicate Fits(wire: seq<int>)
      reads this
    {
      sentCount <= RECV_ENTRIES && (|wire| >= HEADER ==> wire[2] <= RECV_ENTRIES)
    }

    /** The cells that an update marks: its own, but after a short read those that the message still
        lists from before, as many as it counts now. */
    ghost function Marks(wire: seq<int>): seq<Cell>
      requires Valid() && Fits(wire)
      reads this, obsX, obsY
    {
      if Decode(wire).Decoded? then Decode(wire).update.obstacles
      else if Truncated(wire) then Held(if |wire| < HEADER then sentCount else wire[2])
      else []
    }

    /** Takes one update off the wire and marks what the message then lists. */
    method Receive(wire: seq<int>) returns (taken: bool, rest: seq<int>)
      requires Valid() && Fits(wire) && OnChart(Marks(wire))
      modifies this, blocked, obsX, obsY
      ensures taken <==> Decode(wire).Decoded? || Truncated(wire)
      ensures rest == Decode(wire).rest
      ensures Blocked() == old(Blocked()) + set c | c in old(Marks(wire))
      ensures |wire| >= HEADER ==> sentPose == Cell(wire[0], wire[1]) && sentCount == wire[2]
      ensures |wire| < HEADER ==> sentPose == old(sentPose) && sentCount == old(sentCount)
    {
      var ret, at, count, left := RecvMapUpdate(wire, obsX, obsY, sentPose, sentCount);
      sentPose, sentCount, taken, rest := at, count, ret > 0, left;
      if taken {
        MarkAll(count);
      }
    }
  }
}

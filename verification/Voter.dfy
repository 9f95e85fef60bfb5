/** The voter of voter/voterd.c with its replica table of src/replicas.c, in place: vote rings on the
    heap, updated by the loops of the original, each proved against the state machine on values. */
module Voter {
  import opened VoteBuff
  import opened VoterModel
  import opened Ranking
  import opened Wrappers

  /** `s` with entry `r` of row `p` replaced. */
  ghost function Put<T>(s: seq<seq<T>>, p: nat, r: nat, x: T): (t: seq<seq<T>>)
    requires p < |s| && r < |s[p]|
  {
    s[p := s[p][r := x]]
  }

  lemma PutWellFormed(c: Config, s: State, p: nat, r: nat, q: Queue)
    requires WellFormed(c, s) && InRange(c, r, p) && q.index < c.cap && |q.bytes| < c.cap
    requires c.outward[p] || q == EMPTY
    ensures WellFormed(c, s.(rings := Put(s.rings, p, r, q)))
  {
  }

  lemma PendingWellFormed(c: Config, s: State, p: nat, r: nat, queue: seq<byte>)
    requires WellFormed(c, s) && InRange(c, r, p) && (c.outward[p] ==> queue == [])
    ensures WellFormed(c, s.(pending := Put(s.pending, p, r, queue)))
  {
  }

  /** What a restart does to the rings of a pipe and emits on it, whichever way the pipe goes. */
  ghost function FlushRow(c: Config, col: seq<Queue>, outward: bool, restartee: nat, restarter: nat): seq<Queue>
    requires c.Valid() && ColumnOk(c, col) && restartee < |col| && restarter < |col|
  {
    if outward then Flush(c, col, restartee, restarter) else col
  }

  ghost function FlushOut(c: Config, col: seq<Queue>, outward: bool, restartee: nat, restarter: nat): seq<byte>
    requires c.Valid() && ColumnOk(c, col) && restartee < |col| && restarter < |col|
  {
    if outward then Flushed(col, restartee, restarter) else []
  }

  /** `m` is `b` up to position `n` and `a` from there on. */
  ghost predicate Upto<T(!new)>(a: seq<T>, b: seq<T>, m: seq<T>, n: nat) {
    && |a| == |b| == |m| && n <= |m|
    && (forall i :: 0 <= i < n ==> m[i] == b[i]) && (forall i :: n <= i < |m| ==> m[i] == a[i])
  }

  lemma UptoNext<T(!new)>(a: seq<T>, b: seq<T>, m: seq<T>, m': seq<T>, n: nat)
    requires Upto(a, b, m, n) && n < |m| && m' == m[n := b[n]]
    ensures Upto(a, b, m', n + 1)
  {
  }

  /** What flushing makes of the rings and of the output, pipe by pipe. */
  ghost function FlushRows(c: Config, s: State, restartee: nat, restarter: nat): (rows: seq<seq<Queue>>)
    requires WellFormed(c, s) && restartee < c.mode.Count() && restarter < c.mode.Count()
    ensures |rows| == |s.rings|
    ensures forall p :: 0 <= p < |rows| ==> rows[p] == FlushRow(c, s.rings[p], c.outward[p], restartee, restarter)
  {
    seq(|s.rings|, p requires 0 <= p < |s.rings| => FlushRow(c, s.rings[p], c.outward[p], restartee, restarter))
  }

  ghost function FlushOuts(c: Config, s: State, restartee: nat, restarter: nat): (outs: seq<seq<byte>>)
    requires WellFormed(c, s) && restartee < c.mode.Count() && restarter < c.mode.Count()
    ensures |outs| == |s.emitted|
    ensures forall p :: 0 <= p < |outs| ==>
      outs[p] == s.emitted[p] + FlushOut(c, s.rings[p], c.outward[p], restartee, restarter)
  {
    seq(|s.rings|, p requires 0 <= p < |s.rings| =>
      s.emitted[p] + FlushOut(c, s.rings[p], c.outward[p], restartee, restarter))
  }

  /** The first `n` pipes have been flushed and the others have not. */
  ghost predicate FlushedTo(c: Config, s: State, s': State, n: nat, restartee: nat, restarter: nat) {
    forall t {:trigger See(t)} :: See(t) ==>
      && WellFormed(c, s) && restartee < c.mode.Count() && restarter < c.mode.Count()
      && Upto(s.rings, FlushRows(c, s, restartee, restarter), s'.rings, n)
      && Upto(s.emitted, FlushOuts(c, s, restartee, restarter), s'.emitted, n)
  }

  lemma FlushedNext(c: Config, s: State, s1: State, s': State, n: nat, restartee: nat, restarter: nat)
    requires FlushedTo(c, s, s1, n, restartee, restarter) && WellFormed(c, s1) && n < |c.outward|
    requires restartee < c.mode.Count() && restarter < c.mode.Count()
    requires s'.rings == s1.rings[n := FlushRow(c, s1.rings[n], c.outward[n], restartee, restarter)]
    requires s'.emitted == s1.emitted[n := s1.emitted[n] + FlushOut(c, s1.rings[n], c.outward[n], restartee, restarter)]
    ensures FlushedTo(c, s, s', n + 1, restartee, restarter)
  {
    assert See(0);
    UptoNext(s.rings, FlushRows(c, s, restartee, restarter), s1.rings, s'.rings, n);
    UptoNext(s.emitted, FlushOuts(c, s, restartee, restarter), s1.emitted, s'.emitted, n);
  }

  /** Resetting a slot, copying the donor's ring over it and flushing is one flush of the old rings. */
  lemma FlushAfterReset(c: Config, col: seq<Queue>, restartee: nat, restarter: nat)
    requires c.Valid() && ColumnOk(c, col) && restartee < |col| && restarter < |col| && restartee != restarter
    ensures Flush(c, col[restartee := EMPTY], restartee, restarter) == Flush(c, col, restartee, restarter)
    ensures Flushed(col[restartee := EMPTY], restartee, restarter) == Flushed(col, restartee, restarter)
  {
    assert col[restartee := EMPTY][restartee := col[restarter]] == col[restartee := col[restarter]];
  }

  /** The restarter's queue is stolen from, the restartee's replaced by an empty one, and the stolen
      bytes written to both. */
  ghost function GivenBoth(queues: seq<seq<byte>>, stolen: seq<byte>, restartee: nat, restarter: nat): seq<seq<byte>>
    requires restartee < |queues| && restarter < |queues| && |stolen| <= |queues[restarter]|
  {
    var held := queues[restarter := queues[restarter][|stolen|..]][restartee := []];
    var given := held[restartee := held[restartee] + stolen];
    given[restarter := given[restarter] + stolen]
  }

  lemma NothingGiven(queues: seq<seq<byte>>, restartee: nat, restarter: nat)
    requires restartee < |queues| && restarter < |queues| && restartee != restarter && queues[restartee] == []
    ensures GivenBoth(queues, [], restartee, restarter) == queues
  {
    var no: seq<byte> := [];
    assert queues[restarter][0..] == queues[restarter] && queues[restarter] + no == queues[restarter] && no + no == no;
    assert GivenBoth(queues, [], restartee, restarter) == queues[restarter := queues[restarter]][restartee := []];
  }

  lemma GivenIsHandOver(cap: nat, queues: seq<seq<byte>>, restartee: nat, restarter: nat)
    requires restartee < |queues| && restarter < |queues| && restartee != restarter
    ensures GivenBoth(queues, Stolen(cap, queues[restarter]), restartee, restarter)
      == HandOver(cap, queues, restartee, restarter)
  {
    assert [] + Stolen(cap, queues[restarter]) == Stolen(cap, queues[restarter]);
  }

  lemma RestartByPieces(c: Config, s: State, s': State, restartee: nat, restarter: nat)
    requires WellFormed(c, s) && restartee < c.mode.Count() && restarter < c.mode.Count() && restartee != restarter
    requires |s'.rings| == |s'.emitted| == |s'.pending| == |c.outward| && s'.lastInput == s.lastInput && !s'.timer
    requires forall p :: 0 <= p < |c.outward| ==>
      var reset := s.rings[p][restartee := EMPTY];
      && s'.rings[p] == FlushRow(c, reset, c.outward[p], restartee, restarter)
      && s'.emitted[p] == s.emitted[p] + FlushOut(c, reset, c.outward[p], restartee, restarter)
    requires forall p :: 0 <= p < |c.outward| ==>
      s'.pending[p] == GivenBoth(s.pending[p], if c.outward[p] then [] else Stolen(c.cap, s.pending[p][restarter]), restartee, restarter)
    ensures s' == RestartPrep(c, s, restartee, restarter)
  {
    var t := RestartPrep(c, s, restartee, restarter);
    forall p | 0 <= p < |c.outward|
      ensures s'.rings[p] == t.rings[p] && s'.emitted[p] == t.emitted[p] && s'.pending[p] == t.pending[p]
    {
      if c.outward[p] {
        FlushAfterReset(c, s.rings[p], restartee, restarter);
        NothingGiven(s.pending[p], restartee, restarter);
      } else {
        GivenIsHandOver(c.cap, s.pending[p], restartee, restarter);
        assert s.rings[p][restartee := EMPTY] == s.rings[p];
      }
    }
    assert s'.rings == t.rings && s'.emitted == t.emitted && s'.pending == t.pending;
  }

  lemma InputsNext(c: Config, es: seq<Event>, external: seq<Ready>, p: nat)
    requires p < |external| == |c.outward|
    ensures es + Inputs(c, external, p + 1)
         == if !c.outward[p] && external[p].Data? then es + Inputs(c, external, p) + [Input(p, external[p].chunk)]
            else es + Inputs(c, external, p)
  {
  }

  lemma RowOutputsNext(es: seq<Event>, row: seq<Ready>, p: nat, r: nat)
    requires r < |row|
    ensures es + RowOutputs(row, p, r + 1)
         == if row[r].Data? then es + RowOutputs(row, p, r) + [Output(r, p, row[r].chunk)]
            else es + RowOutputs(row, p, r)
  {
  }

  lemma OutputsNext(c: Config, es: seq<Event>, replies: seq<seq<Ready>>, p: nat)
    requires p < |replies| == |c.outward|
    ensures es + Outputs(c, replies, p + 1)
         == if c.outward[p] then es + Outputs(c, replies, p) + RowOutputs(replies[p], p, |replies[p]|)
            else es + Outputs(c, replies, p)
  {
  }

  /** What the replicas' descriptors report: one entry for each pipe and replica, none longer than a read. */
  ghost predicate Readable(c: Config, replies: seq<seq<Ready>>) {
    && |replies| == |c.outward|
    && forall p :: 0 <= p < |replies| ==>
         |replies[p]| == c.mode.Count()
         && forall r :: 0 <= r < |replies[p]| && replies[p][r].Data? ==> |replies[p][r].chunk| <= c.cap
  }

  lemma RestartsRun(c: Config, s: State, priority: seq<int>, exited: bool, expired: bool)
    requires WellFormed(c, s) && |priority| == c.mode.Count()
    ensures Run(c, s, Restarts(c, s, priority, exited, expired), AfterRestarts(c, s, priority, exited, expired))
  {
  }

  /** The selection loop of balanceReps over the replicas' gaps; there are always two slots to look at. */
  method PickLagging(gaps: seq<int>, num: nat) returns (starting: nat, second: nat)
    requires 0 < num <= |gaps| && 2 <= |gaps|
    ensures starting < num
    ensures forall i :: 0 <= i < num ==> gaps[i] <= gaps[starting]
    ensures forall i :: 0 <= i < starting ==> gaps[i] < gaps[starting]
    ensures SecondPick(gaps, num, second)
  {
    starting, second := 0, 1;
    for i := 0 to num
      invariant starting < num && second < |gaps| && (starting < i || i == starting == 0)
      invariant forall q :: 0 <= q < i ==> gaps[q] <= gaps[starting]
      invariant forall q :: 0 <= q < starting ==> gaps[q] < gaps[starting]
      invariant SecondPick(gaps, i, second)
    {
      if gaps[i] > gaps[starting] {
        assert Exceeds(gaps, i);
        starting := i;
      } else {
        assert i > 0 ==> !Exceeds(gaps, i);
        if gaps[i] > gaps[second] {
          if i != starting {
            second := i;
          }
        }
      }
    }
  }

  /** A vote on these rings expels a replica. */
  ghost predicate Expels(c: Config, col: seq<Queue>) {
    |col| == 3 && c.mode == TMR && Least(col) > 0 && JudgeFrom(col, Least(col), 0).Expel?
  }

  /** The scheduling loop of balanceReps; `alive` tells which calls succeed. */
  method SetPriorities(before: seq<int>, alive: seq<bool>, base: int, starting: nat, second: nat)
    returns (after: seq<int>)
    requires |before| == |alive|
    ensures Balanced(before, after, alive, base, starting, second)
  {
    after := before;
    for i := 0 to |before|
      invariant |after| == |before|
      invariant forall q :: i <= q < |after| ==> after[q] == before[q]
      invariant Balanced(before[..i], after[..i], alive[..i], base, starting, second)
    {
      var wanted := if i == starting then base + 2 else if i == second then base + 1 else base;
      if alive[i] {
        after := after[i := wanted];
      }
    }
  }

  /** Which pipe and replica a ring or a ring's buffer belongs to. */
  type Home = map<object, (int, int)>

  ghost predicate NewRing(cap: nat, ring: VotePipe, home: Home, p: int, r: int)
    reads home.Keys
  {
    && ring in home && ring.buffer in home && home[ring] == home[ring.buffer] == (p, r)
    && ring.Capacity() == cap && ring.Valid() && ring.index == 0 && ring.count == 0
  }

  ghost predicate NewRow(cap: nat, row: seq<VotePipe>, home: Home, p: int)
    reads home.Keys
  {
    forall r :: 0 <= r < |row| ==> NewRing(cap, row[r], home, p, r)
  }

  ghost predicate NewTable(config: Config, table: seq<seq<VotePipe>>, home: Home)
    reads home.Keys
  {
    forall p :: 0 <= p < |table| ==> |table[p]| == config.mode.Count() && NewRow(config.cap, table[p], home, p)
  }

  /** One pipe's rings, all new. */
  method CreateRow(cap: nat, n: nat, p: int) returns (row: seq<VotePipe>, ghost home: Home)
    requires cap > 0
    ensures |row| == n && NewRow(cap, row, home, p) && fresh(home.Keys)
  {
    row, home := [], map[];
    while |row| < n
      invariant |row| <= n && NewRow(cap, row, home, p) && fresh(home.Keys)
    {
      var ring := new VotePipe(cap);
      home := home[ring := (p, |row|)][ring.buffer := (p, |row|)];
      row := row + [ring];
    }
  }

  class Voter {
    const c: Config
    const basePriority: int
    const vot: seq<seq<VotePipe>> // vot[p][r] is replicas[r].vot_pipes[p]
    ghost const home: Home
    ghost const Repr: set<object>
    ghost var rings: seq<seq<Queue>>
    var emitted: seq<seq<byte>>
    var pending: seq<seq<seq<byte>>>
    var lastInput: seq<seq<byte>>
    var timer: bool
    var priority: seq<int>
    var alive: seq<bool> // whether the scheduler accepts calls about this replica

    ghost predicate At(p: int, r: int) {
      0 <= p < |c.outward| && 0 <= r < c.mode.Count()
    }

    /** The rings and their buffers are all different objects. */
    ghost predicate Layout() {
      && c.Valid() && |vot| == |c.outward| && Repr == home.Keys && this !in Repr
      && (forall p :: 0 <= p < |vot| ==> |vot[p]| == c.mode.Count())
      && (forall p, r :: At(p, r) ==>
            && vot[p][r] in Repr && home[vot[p][r]] == (p, r)
            && vot[p][r].buffer in Repr && home[vot[p][r].buffer] == (p, r)
            && vot[p][r].Capacity() == c.cap)
    }

    ghost function View(): State
      reads this
    {
      State(rings, emitted, pending, lastInput, timer)
    }

    ghost predicate Tied(p: nat, r: nat)
      requires Layout() && At(p, r)
      reads this`rings, vot[p][r], vot[p][r].buffer
    {
      && vot[p][r].Valid()
      && p < |rings| && r < |rings[p]|
      && rings[p][r] == Queue(vot[p][r].index, vot[p][r].Contents())
    }

    ghost predicate RingsTied()
      reads this`rings, Repr
    {
      Layout() && forall t {:trigger See(t)} :: See(t) ==> forall p, r :: At(p, r) ==> Tied(p, r)
    }

    ghost predicate Valid()
      reads this, Repr
    {
      RingsTied() && WellFormed(c, View()) && |priority| == |alive| == c.mode.Count()
    }

    // -------------------------------------------------------------- single rings, in place

    method Drop(p: nat, r: nat, n: nat)
      requires Valid() && At(p, r) && n <= |rings[p][r].bytes|
      modifies this`rings, vot[p][r]
      ensures Valid() && rings == Put(old(rings), p, r, Advance(c.cap, old(rings)[p][r], n))
    {
      assert See(0);
      PutWellFormed(c, View(), p, r, Advance(c.cap, rings[p][r], n));
      vot[p][r].FakeToPipe(n);
      rings := Put(rings, p, r, Advance(c.cap, rings[p][r], n));
      forall q, o | At(q, o) ensures Tied(q, o) {
        if q != p || o != r {
          assert vot[q][o] != vot[p][r];
        }
      }
    }

    /** Takes the oldest bytes off a ring to be written out. */
    method Draw(p: nat, r: nat, n: nat) returns (out: seq<byte>)
      requires Valid() && At(p, r) && n <= |rings[p][r].bytes|
      modifies this`rings, vot[p][r]
      ensures Valid() && rings == Put(old(rings), p, r, Advance(c.cap, old(rings)[p][r], n))
      ensures out == old(rings)[p][r].bytes[..n]
    {
      assert See(0);
      PutWellFormed(c, View(), p, r, Advance(c.cap, rings[p][r], n));
      ghost var was := rings[p][r].bytes;
      var ok, taken := vot[p][r].BuffToPipe(n);
      out := taken;
      assert out == was[..n] && vot[p][r].Contents() == was[n..];
      rings := Put(rings, p, r, Advance(c.cap, rings[p][r], n));
      forall q, o | At(q, o) ensures Tied(q, o) {
        if q != p || o != r {
          assert vot[q][o] != vot[p][r];
        }
      }
    }

    method Emit(p: nat, r: nat, n: nat)
      requires Valid() && At(p, r) && n <= |rings[p][r].bytes|
      modifies this`rings, this`emitted, vot[p][r]
      ensures Valid() && rings == Put(old(rings), p, r, Advance(c.cap, old(rings)[p][r], n))
      ensures emitted == old(emitted)[p := old(emitted)[p] + old(rings)[p][r].bytes[..n]]
    {
      var out := Draw(p, r, n);
      emitted := emitted[p := emitted[p] + out];
    }

    method Append(p: nat, r: nat, chunk: seq<byte>) returns (ok: bool)
      requires Valid() && At(p, r) && |chunk| <= c.cap && c.outward[p]
      modifies this`rings, vot[p][r], vot[p][r].buffer
      ensures Valid() && ok == Fits(c, old(View()), r, p, chunk)
      ensures View() == if ok then Receive(c, old(View()), r, p, chunk) else old(View())
    {
      assert See(0);
      ok := vot[p][r].PipeToBuff(chunk);
      if ok {
        PutWellFormed(c, View(), p, r, Queue(rings[p][r].index, rings[p][r].bytes + chunk));
        rings := Put(rings, p, r, Queue(rings[p][r].index, rings[p][r].bytes + chunk));
      }
      forall q, o | At(q, o) ensures Tied(q, o) {
        if q != p || o != r {
          assert vot[q][o] != vot[p][r] && vot[q][o].buffer != vot[p][r].buffer;
        }
      }
    }

    method Clone(p: nat, restartee: nat, restarter: nat)
      requires Valid() && At(p, restartee) && At(p, restarter) && restartee != restarter
      modifies this`rings, vot[p][restartee], vot[p][restartee].buffer
      ensures Valid() && rings == Put(old(rings), p, restartee, old(rings)[p][restarter])
    {
      assert See(0);
      PutWellFormed(c, View(), p, restartee, rings[p][restarter]);
      CopyPipe(vot[p][restartee], vot[p][restarter]);
      rings := Put(rings, p, restartee, rings[p][restarter]);
      forall q, o | At(q, o) ensures Tied(q, o) {
        if q != p || o != restartee {
          assert vot[q][o] != vot[p][restartee] && vot[q][o].buffer != vot[p][restartee].buffer;
        }
      }
    }

    method Clear(p: nat, r: nat)
      requires Valid() && At(p, r)
      modifies this`rings, vot[p][r]
      ensures Valid() && rings == Put(old(rings), p, r, EMPTY)
    {
      assert See(0);
      PutWellFormed(c, View(), p, r, EMPTY);
      vot[p][r].Reset();
      rings := Put(rings, p, r, EMPTY);
      forall q, o | At(q, o) ensures Tied(q, o) {
        if q != p || o != r {
          assert vot[q][o] != vot[p][r];
        }
      }
    }

    /** Replaces one replica's pending input on one pipe. */
    method SetPending(p: nat, r: nat, queue: seq<byte>)
      requires Valid() && At(p, r) && (c.outward[p] ==> queue == [])
      modifies this`pending
      ensures Valid() && pending == Put(old(pending), p, r, queue)
    {
      PendingWellFormed(c, View(), p, r, queue);
      pending := pending[p := pending[p][r := queue]];
    }

    // ---------------------------------------------------------------- src/replicas.c, ranking

    method BytesReady(p: nat) returns (n: nat)
      requires Valid() && p < |c.outward|
      ensures n == Least(rings[p])
    {
      assert See(0);
      n := c.cap;
      for r := 0 to c.mode.Count()
        invariant forall q :: 0 <= q < r ==> n <= |rings[p][q].bytes|
        invariant if r == 0 then n == c.cap else exists q :: 0 <= q < r && n == |rings[p][q].bytes|
      {
        assert Tied(p, r);
        if vot[p][r].count < n {
          n := vot[p][r].count;
        }
      }
    }

    method AheadRep(p: nat) returns (k: nat)
      requires Valid() && p < |c.outward|
      ensures FirstAhead(rings[p], k)
    {
      assert See(0);
      k := 0;
      for r := 0 to c.mode.Count()
        invariant k < c.mode.Count() && (r == 0 ==> k == 0) && k <= r
        invariant forall q :: 0 <= q < r ==> |rings[p][q].bytes| <= |rings[p][k].bytes|
        invariant forall q :: 0 <= q < k ==> |rings[p][q].bytes| < |rings[p][k].bytes|
      {
        assert Tied(p, r) && Tied(p, k);
        if vot[p][r].count > vot[p][k].count {
          k := r;
        }
      }
    }

    method BehindRep(p: nat) returns (k: nat)
      requires Valid() && p < |c.outward|
      ensures k == VoterModel.BehindRep(rings[p], priority, c.mode.Count())
    {
      assert See(0);
      k := 0;
      for r := 1 to c.mode.Count()
        invariant k == VoterModel.BehindRep(rings[p], priority, r)
      {
        assert Tied(p, r) && Tied(p, k);
        if vot[p][r].count < vot[p][k].count {
          k := r;
        } else if vot[p][r].count == vot[p][k].count {
          if priority[r] > priority[k] {
            k := r;
          }
        }
      }
    }

    /** The summed lag of slot `r`, which may lie beyond the running replicas. */
    method RepGap(r: nat) returns (gap: int)
      requires Valid()
      ensures gap == Gap(c, rings, r, |rings|)
    {
      assert See(0);
      gap := 0;
      for p := 0 to |c.outward|
        invariant gap == Gap(c, rings, r, p)
      {
        if c.outward[p] {
          var ahead := AheadRep(p);
          assert Tied(p, ahead);
          assert Most(rings[p]) == vot[p][ahead].count;
          var mine := 0;
          if r < c.mode.Count() {
            assert Tied(p, r);
            mine := vot[p][r].count;
          }
          gap := gap + (vot[p][ahead].count - mine);
        }
      }
    }

    method Gaps() returns (gaps: seq<int>)
      requires Valid()
      ensures gaps == Ranking.Gaps(c, rings)
    {
      gaps := [];
      var slots := if c.mode.Count() < 2 then 2 else c.mode.Count();
      for i := 0 to slots
        invariant |gaps| == i && forall q :: 0 <= q < i ==> gaps[q] == Gap(c, rings, q, |rings|)
      {
        var gap := RepGap(i);
        gaps := gaps + [gap];
      }
    }

    method BalanceReps() returns (ghost starting: nat, ghost second: nat)
      requires Valid()
      modifies this`priority
      ensures Valid() && FirstLagging(c, rings, c.mode.Count(), starting)
      ensures SecondPick(Ranking.Gaps(c, rings), c.mode.Count(), second)
      ensures Balanced(old(priority), priority, alive, basePriority, starting, second)
    {
      var gaps := Gaps();
      var start, next := PickLagging(gaps, c.mode.Count());
      LaggingByGaps(c, rings, start);
      priority := SetPriorities(priority, alive, basePriority, start, next);
      starting, second := start, next;
    }

    // ------------------------------------------------------------------------------- voting

    /** One turn of sendPipe's loop: the sender's ring is written out, another's only advanced. */
    method AdvanceRing(p: nat, r: nat, sender: nat, n: nat)
      requires Valid() && At(p, r) && n <= |rings[p][r].bytes|
      modifies this`rings, this`emitted, Repr
      ensures Valid() && rings == Put(old(rings), p, r, Advance(c.cap, old(rings)[p][r], n))
      ensures emitted == if r == sender then old(emitted)[p := old(emitted)[p] + old(rings)[p][r].bytes[..n]]
                         else old(emitted)
    {
      if sender == r {
        Emit(p, r, n);
      } else {
        Drop(p, r, n);
      }
    }

    /** The loop of sendPipe: one ring is written out, the others are advanced as far. */
    method AdvanceRings(p: nat, sender: nat, n: nat)
      requires Valid() && At(p, sender) && forall q :: 0 <= q < |rings[p]| ==> n <= |rings[p][q].bytes|
      modifies this`rings, this`emitted, Repr
      ensures Valid() && rings == old(rings)[p := AdvanceAll(c.cap, old(rings)[p], n)]
      ensures emitted == old(emitted)[p := old(emitted)[p] + old(rings)[p][sender].bytes[..n]]
    {
      ghost var was := rings[p];
      for r := 0 to c.mode.Count()
        invariant Valid() && rings == old(rings)[p := rings[p]]
        invariant forall q :: 0 <= q < r ==> rings[p][q] == Advance(c.cap, was[q], n)
        invariant forall q :: r <= q < |was| ==> rings[p][q] == was[q]
        invariant emitted == if sender < r then old(emitted)[p := old(emitted)[p] + was[sender].bytes[..n]]
                             else old(emitted)
      {
        AdvanceRing(p, r, sender, n);
      }
      assert rings[p] == AdvanceAll(c.cap, was, n);
    }

    method SendPipe(p: nat, sender: nat)
      requires Valid() && At(p, sender)
      modifies this`rings, this`emitted, this`timer, Repr
      ensures Valid() && View() == VoterModel.SendPipe(c, old(View()), p, sender)
    {
      var n := BytesReady(p);
      if n == 0 {
        return;
      }
      if p == c.timerStop {
        timer := false;
      }
      AdvanceRings(p, sender, n);
    }

    /** Whether two replicas' oldest bytes on a pipe agree. */
    method Agree(p: nat, a: nat, b: nat, n: nat) returns (same: bool)
      requires Valid() && At(p, a) && At(p, b) && n <= |rings[p][a].bytes| && n <= |rings[p][b].bytes|
      ensures same <==> Same(rings[p][a], rings[p][b], n)
    {
      assert See(0);
      assert Tied(p, a) && Tied(p, b);
      var r := CompareBuffs(vot[p][a], vot[p][b], n);
      same := r == 0;
    }

    /** The TMR comparison loop of checkSDC. */
    method Judge(p: nat, n: nat) returns (v: Verdict)
      requires Valid() && c.mode == TMR && p < |c.outward| && n == Least(rings[p])
      ensures v == JudgeFrom(rings[p], n, 0)
    {
      for r := 0 to 3
        invariant JudgeFrom(rings[p], n, 0) == JudgeFrom(rings[p], n, r)
      {
        var next := Agree(p, r, (r + 1) % 3, n);
        if next {
          var third := Agree(p, r, (r + 2) % 3, n);
          if !third {
            return Expel((r + 2) % 3, r);
          } else {
            return Verdict.Agree(r);
          }
        }
      }
      v := Split;
    }

    method CheckSDC(p: nat)
      requires Valid() && p < |c.outward|
      modifies this, Repr
      ensures Valid() && View() == VoterModel.CheckSDC(c, old(View()), p)
      ensures !old(Expels(c, rings[p])) ==> priority == old(priority) && alive == old(alive)
    {
      var n := BytesReady(p);
      if n == 0 {
        return;
      }
      match c.mode {
        case SMR => SendPipe(p, 0);
        case DMR => SendPipe(p, 0);
        case TMR =>
          var v := Judge(p, n);
          match v {
            case Agree(sender) => SendPipe(p, sender);
            case Expel(restartee, restarter) => RestartPrep(restartee, restarter);
            case Split =>
          }
      }
    }

    /** A chunk that fits is taken and voted on. The priorities are balanced for the rings with the chunk
        in them, and stay so unless the vote expels a replica. */
    method ProcessFromRep(r: nat, p: nat, chunk: seq<byte>) returns (ghost starting: nat, ghost second: nat)
      requires Valid() && At(p, r) && c.outward[p] && |chunk| <= c.cap
      modifies this, Repr
      ensures Valid() && View() == VoterModel.ProcessFromRep(c, old(View()), r, p, chunk)
      ensures !Fits(c, old(View()), r, p, chunk) ==> priority == old(priority)
      ensures Fits(c, old(View()), r, p, chunk) ==>
        var after := Receive(c, old(View()), r, p, chunk).rings;
        && FirstLagging(c, after, c.mode.Count(), starting) && SecondPick(Ranking.Gaps(c, after), c.mode.Count(), second)
        && (!Expels(c, after[p]) ==> Balanced(old(priority), priority, alive, basePriority, starting, second))
    {
      var ok := Append(p, r, chunk);
      if ok {
        starting, second := BalanceReps();
        CheckSDC(p);
      } else {
        starting, second := 0, 0;
      }
    }

    // ------------------------------------------------------------------------------ restart

    /** Reads at most one buffer of each of the replica's pending inputs. */
    method StealPipes(r: nat) returns (stolen: seq<seq<byte>>)
      requires Valid() && r < c.mode.Count()
      modifies this`pending
      ensures Valid() && |stolen| == |c.outward| && |pending| == |old(pending)|
      ensures forall p :: 0 <= p < |stolen| ==>
        && stolen[p] == (if c.outward[p] then [] else Stolen(c.cap, old(pending)[p][r]))
        && pending[p] == old(pending)[p][r := old(pending)[p][r][|stolen[p]|..]]
    {
      stolen := [];
      for p := 0 to |c.outward|
        invariant Valid() && |stolen| == p && |pending| == |old(pending)|
        invariant forall q :: p <= q < |pending| ==> pending[q] == old(pending)[q]
        invariant forall q :: 0 <= q < p ==>
          && stolen[q] == (if c.outward[q] then [] else Stolen(c.cap, old(pending)[q][r]))
          && pending[q] == old(pending)[q][r := old(pending)[q][r][|stolen[q]|..]]
      {
        if !c.outward[p] {
          var taken := Stolen(c.cap, pending[p][r]);
          SetPending(p, r, pending[p][r][|taken|..]);
          stolen := stolen + [taken];
        } else {
          stolen := stolen + [[]];
        }
      }
    }

    /** Writes stolen input to a replica. */
    method ReturnPipes(r: nat, stolen: seq<seq<byte>>)
      requires Valid() && r < c.mode.Count() && |stolen| == |c.outward|
      requires forall p :: 0 <= p < |stolen| && c.outward[p] ==> stolen[p] == []
      modifies this`pending
      ensures Valid() && |pending| == |old(pending)|
      ensures forall p :: 0 <= p < |stolen| ==> pending[p] == old(pending)[p][r := old(pending)[p][r] + stolen[p]]
    {
      for p := 0 to |c.outward|
        invariant Valid() && |pending| == |old(pending)|
        invariant forall q :: p <= q < |pending| ==> pending[q] == old(pending)[q]
        invariant forall q :: 0 <= q < p ==> pending[q] == old(pending)[q][r := old(pending)[q][r] + stolen[q]]
      {
        if |stolen[p]| > 0 {
          SetPending(p, r, pending[p][r] + stolen[p]);
        } else {
          assert pending[p][r] + stolen[p] == pending[p][r];
        }
      }
    }

    /** A fresh replica in slot `r`: empty rings, new pipes with nothing in them. */
    method InitReplica(r: nat)
      requires Valid() && r < c.mode.Count()
      modifies this`rings, this`pending, this`priority, this`alive, Repr
      ensures Valid() && |rings| == |old(rings)| && |pending| == |old(pending)|
      ensures forall p :: 0 <= p < |rings| ==> rings[p] == old(rings)[p][r := EMPTY]
      ensures forall p :: 0 <= p < |pending| ==> pending[p] == old(pending)[p][r := []]
      ensures priority == old(priority)[r := basePriority] && alive == old(alive)[r := true]
    {
      priority, alive := priority[r := basePriority], alive[r := true];
      for p := 0 to |c.outward|
        invariant priority == old(priority)[r := basePriority] && alive == old(alive)[r := true]
        invariant Valid() && |rings| == |old(rings)| && |pending| == |old(pending)|
        invariant forall q :: 0 <= q < p ==> rings[q] == old(rings)[q][r := EMPTY]
        invariant forall q :: 0 <= q < p ==> pending[q] == old(pending)[q][r := []]
        invariant forall q :: p <= q < |rings| ==> rings[q] == old(rings)[q] && pending[q] == old(pending)[q]
      {
        Clear(p, r);
        SetPending(p, r, []);
      }
    }

    method RestartReplica(restartee: nat, restarter: nat) returns (ghost starting: nat, ghost second: nat)
      requires Valid() && restartee < c.mode.Count() && restarter < c.mode.Count() && restartee != restarter
      modifies this`rings, this`pending, this`priority, this`alive, Repr
      ensures Valid() && |rings| == |old(rings)| && |pending| == |old(pending)|
      ensures forall p :: 0 <= p < |rings| ==> rings[p] == old(rings)[p][restartee := EMPTY]
      ensures forall p :: 0 <= p < |pending| ==> pending[p] == old(pending)[p][restartee := []]
      ensures alive == old(alive)[restartee := true] && FirstLagging(c, rings, c.mode.Count(), starting)
      ensures Balanced(old(priority), priority, alive, basePriority, starting, second)
    {
      for i := 0 to c.mode.Count()
        invariant Valid() && rings == old(rings) && pending == old(pending)
        invariant alive == old(alive)
        invariant forall q :: 0 <= q < |priority| && !alive[q] ==> priority[q] == old(priority)[q]
      {
        if i != restartee && alive[i] {
          priority := priority[i := if i == restarter then basePriority + 2 else basePriority];
        }
      }
      InitReplica(restartee);
      starting, second := BalanceReps();
    }

    /** Copies the restarter's ring of an output pipe and sends what every replica then holds. */
    method FlushPipe(p: nat, restartee: nat, restarter: nat)
      requires Valid() && At(p, restartee) && At(p, restarter) && restartee != restarter && !timer
      modifies this`rings, this`emitted, this`timer, Repr
      ensures Valid() && !timer
      ensures rings == old(rings)[p := Flush(c, old(rings)[p], restartee, restarter)]
      ensures emitted == old(emitted)[p := old(emitted)[p] + Flushed(old(rings)[p], restartee, restarter)]
    {
      Clone(p, restartee, restarter);
      SendAlways(c, View(), p, restarter);
      SendPipe(p, restarter);
    }

    method FlushPipes(restartee: nat, restarter: nat)
      requires Valid() && restartee < c.mode.Count() && restarter < c.mode.Count() && restartee != restarter && !timer
      modifies this`rings, this`emitted, this`timer, Repr
      ensures Valid() && !timer && |rings| == |old(rings)| && |emitted| == |old(emitted)|
      ensures forall p :: 0 <= p < |c.outward| ==>
        && rings[p] == FlushRow(c, old(rings)[p], c.outward[p], restartee, restarter)
        && emitted[p] == old(emitted)[p] + FlushOut(c, old(rings)[p], c.outward[p], restartee, restarter)
    {
      ghost var before := View();
      for p := 0 to |c.outward|
        invariant Valid() && !timer && FlushedTo(c, before, View(), p, restartee, restarter)
      {
        ghost var s := View();
        if c.outward[p] {
          FlushPipe(p, restartee, restarter);
        } else {
          assert emitted[p] + [] == emitted[p];
        }
        FlushedNext(c, before, s, View(), p, restartee, restarter);
      }
      assert See(1);
    }

    method RestartPrep(restartee: nat, restarter: nat)
      requires Valid() && restartee < c.mode.Count() && restarter < c.mode.Count() && restartee != restarter
      modifies this, Repr
      ensures Valid() && View() == VoterModel.RestartPrep(c, old(View()), restartee, restarter)
    {
      var stolen := StealPipes(restarter);
      timer := false;
      ghost var starting, second := RestartReplica(restartee, restarter);
      ghost var reset := View();
      FlushPipes(restartee, restarter);
      assert pending == reset.pending;
      ReturnPipes(restartee, stolen);
      ReturnPipes(restarter, stolen);
      RestartByPieces(c, old(View()), View(), restartee, restarter);
    }

    // ---------------------------------------------------------------------- input, timeouts

    method ProcessData(p: nat, chunk: seq<byte>) returns (ghost starting: nat, ghost second: nat)
      requires Valid() && p < |c.outward| && !c.outward[p]
      modifies this`pending, this`timer, this`priority
      ensures Valid() && View() == VoterModel.ProcessData(c, old(View()), p, chunk)
      ensures FirstLagging(c, rings, c.mode.Count(), starting) && SecondPick(Ranking.Gaps(c, rings), c.mode.Count(), second)
      ensures Balanced(old(priority), priority, alive, basePriority, starting, second)
    {
      if p == c.timerStart {
        timer := true;
      }
      starting, second := BalanceReps();
      GiveAll(p, chunk);
    }

    /** Writes a chunk to every replica. */
    method GiveAll(p: nat, chunk: seq<byte>)
      requires Valid() && p < |c.outward| && !c.outward[p]
      modifies this`pending
      ensures Valid() && View() == VoterModel.ProcessData(c, old(View()), p, chunk).(timer := timer)
    {
      for r := 0 to c.mode.Count()
        invariant Valid() && |pending| == |old(pending)|
        invariant forall q :: 0 <= q < |pending| && q != p ==> pending[q] == old(pending)[q]
        invariant forall q :: 0 <= q < r ==> pending[p][q] == old(pending)[p][q] + chunk
        invariant forall q :: r <= q < |pending[p]| ==> pending[p][q] == old(pending)[p][q]
      {
        SetPending(p, r, pending[p][r] + chunk);
      }
      ghost var s' := VoterModel.ProcessData(c, old(View()), p, chunk);
      assert pending[p] == s'.pending[p];
      assert pending == s'.pending;
    }

    method ReadExternal(p: nat, chunk: seq<byte>)
      requires Valid() && p < |c.outward| && !c.outward[p]
      modifies this`pending, this`timer, this`priority, this`lastInput
      ensures Valid() && View() == VoterModel.ReadExternal(c, old(View()), p, chunk)
    {
      lastInput := lastInput[p := chunk];
      if |chunk| > 0 {
        ghost var starting, second := ProcessData(p, chunk);
      }
    }

    /** Sends the last chunk of every input pipe to the single replica again. */
    method Resend()
      requires Valid() && c.mode == SMR
      modifies this`pending, this`timer, this`priority
      ensures Valid() && |pending| == |old(pending)|
      ensures timer == (old(timer) || !c.outward[c.timerStart])
      ensures forall p :: 0 <= p < |pending| ==>
        pending[p] == [old(pending)[p][0] + if c.outward[p] then [] else lastInput[p]]
    {
      for p := 0 to |c.outward|
        invariant Valid() && |pending| == |old(pending)|
        invariant timer == (old(timer) || (c.timerStart < p && !c.outward[c.timerStart]))
        invariant forall q :: 0 <= q < p ==>
          pending[q] == [old(pending)[q][0] + if c.outward[q] then [] else lastInput[q]]
        invariant forall q :: p <= q < |pending| ==> pending[q] == old(pending)[q]
      {
        if !c.outward[p] {
          ghost var starting, second := ProcessData(p, lastInput[p]);
        } else {
          assert pending[p][0] + [] == pending[p][0];
        }
        assert pending[p] == [pending[p][0]];
      }
    }

    method ColdRestart()
      requires Valid() && c.mode == SMR
      modifies this, Repr
      ensures Valid() && View() == VoterModel.ColdRestart(c, old(View()))
    {
      InitReplica(0);
      assert forall p :: 0 <= p < |rings| ==> rings[p] == [EMPTY] && pending[p] == [[]];
      Resend();
      ghost var s' := VoterModel.ColdRestart(c, old(View()));
      assert rings == s'.rings;
      forall p | 0 <= p < |pending| ensures pending[p] == s'.pending[p] {
        assert [] + lastInput[p] == lastInput[p];
      }
      assert pending == s'.pending;
    }

    method RestartHandler()
      requires Valid()
      modifies this, Repr
      ensures Valid() && View() == VoterModel.RestartHandler(c, old(View()), old(priority))
    {
      if c.mode == SMR {
        ColdRestart();
      } else {
        var restartee := BehindRep(c.timerStop);
        RestartPrep(restartee, Donor(c, restartee));
      }
    }

    method CheckSync() returns (nsync: bool)
      requires Valid()
      ensures nsync <==> VoterModel.CheckSync(c, View())
    {
      assert See(0);
      nsync := true;
      for p := 0 to |c.outward|
        invariant nsync <==> forall q, r :: 0 <= q < p && 0 <= r < c.mode.Count() ==>
          |rings[q][r].bytes| == |rings[q][0].bytes|
      {
        assert Tied(p, 0);
        var votes := vot[p][0].count;
        ghost var before := nsync;
        for r := 1 to c.mode.Count()
          invariant nsync <==> before && forall q :: 0 <= q < r ==> |rings[p][q].bytes| == |rings[p][0].bytes|
        {
          assert Tied(p, r);
          if votes != vot[p][r].count {
            nsync := false;
          }
        }
      }
    }

    // --------------------------------------------------------------------------- doOneUpdate

    /** The events `es` lead from `s0` to the present state. */
    ghost predicate Reached(s0: State, es: seq<Event>)
      reads this
    {
      forall t {:trigger Look(t)} :: Look(t) ==> WellFormed(c, s0) && Run(c, s0, es, View())
    }

    /** The restarts that a pass begins with: of a single replica that exited by itself, then by an
        expired watchdog. */
    method CheckTimers(exited: bool, expired: bool)
      requires Valid()
      modifies this, Repr
      ensures Valid() && View() == AfterRestarts(c, old(View()), old(priority), exited, expired)
    {
      if c.mode == SMR && exited {
        RestartHandler();
        timer := false;
      }
      if timer && expired {
        RestartHandler();
      }
    }

    /** The read of one external pipe, admitted because the rings are in step. */
    method AdmitInput(p: nat, ready: Ready, ghost es: seq<Event>, ghost s0: State)
      requires Valid() && Reached(s0, es) && VoterModel.CheckSync(c, View())
      requires p < |c.outward| && !c.outward[p] && ready.Data? && |ready.chunk| <= c.cap
      modifies this`pending, this`timer, this`priority, this`lastInput
      ensures Valid() && Reached(s0, es + [Input(p, ready.chunk)]) && VoterModel.CheckSync(c, View())
    {
      assert Look(0);
      RunExtended(c, s0, es, View(), Input(p, ready.chunk));
      ReadExternal(p, ready.chunk);
    }

    method ReadInputs(external: seq<Ready>, ghost es: seq<Event>, ghost s0: State)
      requires Valid() && Reached(s0, es) && VoterModel.CheckSync(c, View())
      requires |external| == |c.outward|
      requires forall p :: 0 <= p < |external| && external[p].Data? ==> |external[p].chunk| <= c.cap
      modifies this`pending, this`timer, this`priority, this`lastInput
      ensures Valid() && Reached(s0, es + Inputs(c, external, |external|))
    {
      ghost var past := es;
      for p := 0 to |c.outward|
        invariant past == es + Inputs(c, external, p)
        invariant Valid() && Reached(s0, past) && VoterModel.CheckSync(c, View())
      {
        InputsNext(c, es, external, p);
        if !c.outward[p] && external[p].Data? {
          AdmitInput(p, external[p], past, s0);
          past := past + [Input(p, external[p].chunk)];
        }
      }
    }

    method TakeOutput(r: nat, p: nat, ready: Ready, ghost es: seq<Event>, ghost s0: State)
      requires Valid() && Reached(s0, es)
      requires At(p, r) && c.outward[p] && ready.Data? && |ready.chunk| <= c.cap
      modifies this, Repr
      ensures Valid() && Reached(s0, es + [Output(r, p, ready.chunk)])
    {
      assert Look(0);
      RunExtended(c, s0, es, View(), Output(r, p, ready.chunk));
      ghost var starting, second := ProcessFromRep(r, p, ready.chunk);
    }

    method ReadRow(p: nat, row: seq<Ready>, ghost es: seq<Event>, ghost s0: State)
      requires Valid() && Reached(s0, es)
      requires p < |c.outward| && c.outward[p] && |row| == c.mode.Count()
      requires forall r :: 0 <= r < |row| && row[r].Data? ==> |row[r].chunk| <= c.cap
      modifies this, Repr
      ensures Valid() && Reached(s0, es + RowOutputs(row, p, |row|))
    {
      ghost var past := es;
      for r := 0 to c.mode.Count()
        invariant past == es + RowOutputs(row, p, r)
        invariant Valid() && Reached(s0, past)
      {
        RowOutputsNext(es, row, p, r);
        if row[r].Data? {
          TakeOutput(r, p, row[r], past, s0);
          past := past + [Output(r, p, row[r].chunk)];
        }
      }
    }

    method ReadOutputs(replies: seq<seq<Ready>>, ghost es: seq<Event>, ghost s0: State)
      requires Valid() && Reached(s0, es) && Readable(c, replies)
      modifies this, Repr
      ensures Valid() && Reached(s0, es + Outputs(c, replies, |replies|))
    {
      ghost var past := es;
      for p := 0 to |c.outward|
        invariant past == es + Outputs(c, replies, p)
        invariant Valid() && Reached(s0, past)
      {
        OutputsNext(c, es, replies, p);
        if c.outward[p] {
          ReadRow(p, replies[p], past, s0);
          past := past + RowOutputs(replies[p], p, |replies[p]|);
        }
      }
    }

    /** The gate: external input is read only with the rings in step. */
    method PassGate(lowPriority: bool, external: seq<Ready>, ghost es: seq<Event>, ghost s0: State)
      requires Valid() && Reached(s0, es)
      requires |external| == |c.outward|
      requires forall p :: 0 <= p < |external| && external[p].Data? ==> |external[p].chunk| <= c.cap
      modifies this`pending, this`timer, this`priority, this`lastInput
      ensures Valid() && Reached(s0, es + Gate(c, old(View()), lowPriority, external))
    {
      var synced := CheckSync();
      if synced {
        ReadInputs(external, es, s0);
      } else if lowPriority && !timer {
        assert Look(0);
        RunExtended(c, s0, es, View(), Arm);
        timer := true;
      } else {
        assert es + [] == es;
      }
    }

    /** One pass of the main loop, given what the clock and the descriptors report: exactly the events
        of `Pass`, one after the other. `responsive` tells about whom the scheduler accepts calls. */
    method DoOneUpdate(exited: bool, expired: bool, lowPriority: bool, responsive: seq<bool>, external: seq<Ready>,
                       replies: seq<seq<Ready>>)
      requires Valid() && |external| == |c.outward| && Readable(c, replies) && |responsive| == c.mode.Count()
      requires forall p :: 0 <= p < |external| && external[p].Data? ==> |external[p].chunk| <= c.cap
      modifies this, Repr
      ensures Valid() && WellFormed(c, old(View()))
      ensures Run(c, old(View()),
                  Pass(c, old(View()), old(priority), exited, expired, lowPriority, external, replies), View())
    {
      alive := responsive;
      ghost var s0 := View();
      ghost var es := Restarts(c, s0, priority, exited, expired);
      RestartsRun(c, s0, priority, exited, expired);
      CheckTimers(exited, expired);
      ghost var gate := Gate(c, View(), lowPriority, external);
      PassGate(lowPriority, external, es, s0);
      ReadOutputs(replies, es + gate, s0);
      assert Look(0);
    }

    // ------------------------------------------------------------------------------ start-up

    /** startReplicas: a fresh ring for every replica and pipe. */
    constructor (config: Config, base: int)
      requires config.Valid()
      ensures c == config && basePriority == base && Valid() && View() == Initial(config) && fresh(Repr)
    {
      var table: seq<seq<VotePipe>> := [];
      ghost var homes: Home := map[];
      var n := config.mode.Count();
      while |table| < |config.outward|
        invariant |table| <= |config.outward| && NewTable(config, table, homes) && fresh(homes.Keys)
      {
        var row, own := CreateRow(config.cap, n, |table|);
        table, homes := table + [row], homes + own;
      }
      c, basePriority, vot, home, Repr := config, base, table, homes, homes.Keys;
      rings := Initial(config).rings;
      var pipes := |config.outward|;
      emitted, lastInput := seq(pipes, _ => []), seq(pipes, _ => []);
      pending := seq(pipes, _ => seq(n, _ => []));
      timer, priority, alive := false, seq(n, _ => base), seq(n, _ => true);
    }
  }
}

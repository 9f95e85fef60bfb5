/** What one pass of the voter's main loop does, said of its events and of the states it leads to. */
module VoterPass {
  import opened VoteBuff
  import opened VoterModel
  import opened VoterRuns
  import opened Wrappers

  /** What the clock and the descriptors report to a pass. */
  datatype Report = Report(exited: bool, expired: bool, lowPriority: bool, external: seq<Ready>, replies: seq<seq<Ready>>) {
    ghost predicate Fits(c: Config) {
      |external| == |replies| == |c.outward| && forall p :: 0 <= p < |replies| ==> |replies[p]| == c.mode.Count()
    }
  }

  ghost function EventsOf(c: Config, s: State, priority: seq<int>, t: Report): (es: seq<Event>)
    requires WellFormed(c, s) && |priority| == c.mode.Count() && t.Fits(c)
  {
    Pass(c, s, priority, t.exited, t.expired, t.lowPriority, t.external, t.replies)
  }

  /** The events that are due in a pass: a chunk from every replica that has one, and, with the rings in
      step once the restart is over, a chunk from every external pipe that has one; a restart of the
      single replica that exited, or else by the watchdog if it runs and has expired; and the watchdog
      armed if the rings are not in step. */
  ghost predicate Due(c: Config, s: State, priority: seq<int>, t: Report, e: Event)
    requires WellFormed(c, s) && |priority| == c.mode.Count() && t.Fits(c)
  {
    var s1 := AfterRestarts(c, s, priority, t.exited, t.expired);
    match e
    case Output(r, p, chunk) => InRange(c, r, p) && c.outward[p] && t.replies[p][r] == Data(chunk)
    case Input(p, chunk) => p < |c.outward| && !c.outward[p] && t.external[p] == Data(chunk) && CheckSync(c, s1)
    case Timeout(now) => now == priority && s.timer && t.expired && !(c.mode == SMR && t.exited)
    case Exit(now) => now == priority && c.mode == SMR && t.exited
    case Arm => !CheckSync(c, s1) && t.lowPriority && !s1.timer
    case Consume(_, _, _) => false
  }

  /** Restarts come first, then the external pipes in order, then the replicas pipe by pipe. */
  ghost predicate Before(a: Event, b: Event) {
    match a
    case Timeout(_) => !b.Timeout? && !b.Exit?
    case Exit(_) => !b.Timeout? && !b.Exit?
    case Arm => b.Output?
    case Input(p, _) => b.Output? || (b.Input? && p < b.pipe)
    case Output(r, p, _) => b.Output? && (p < b.pipe || (p == b.pipe && r < b.replica))
    case Consume(_, _, _) => false
  }

  ghost predicate Ordered(es: seq<Event>) {
    forall i, j :: 0 <= i < j < |es| ==> Before(es[i], es[j])
  }

  lemma {:induction false} InputsDue(c: Config, external: seq<Ready>, n: nat)
    requires n <= |external| == |c.outward|
    ensures Ordered(Inputs(c, external, n))
    ensures forall e :: e in Inputs(c, external, n) <==>
      e.Input? && e.pipe < n && !c.outward[e.pipe] && external[e.pipe] == Data(e.chunk)
  {
    if n > 0 {
      InputsDue(c, external, n - 1);
      var before := Inputs(c, external, n - 1);
      assert forall i :: 0 <= i < |before| ==> before[i] in before;
    }
  }

  lemma {:induction false} RowMember(row: seq<Ready>, p: nat, n: nat, e: Event)
    requires n <= |row|
    ensures e in RowOutputs(row, p, n) <==> e.Output? && e.pipe == p && e.replica < n && row[e.replica] == Data(e.chunk)
  {
    if n > 0 {
      RowMember(row, p, n - 1, e);
    }
  }

  lemma {:induction false} RowOrdered(row: seq<Ready>, p: nat, n: nat)
    requires n <= |row|
    ensures Ordered(RowOutputs(row, p, n))
  {
    if n > 0 {
      RowOrdered(row, p, n - 1);
      var a := RowOutputs(row, p, n - 1);
      if row[n - 1].Data? {
        var b := [Output(n - 1, p, row[n - 1].chunk)];
        forall x, y | x in a && y in b ensures Before(x, y) {
          RowMember(row, p, n - 1, x);
        }
        OrderedJoin(a, b);
        assert RowOutputs(row, p, n) == a + b;
      } else {
        assert RowOutputs(row, p, n) == a;
      }
    }
  }

  lemma OrderedJoin(a: seq<Event>, b: seq<Event>)
    requires Ordered(a) && Ordered(b) && forall x, y :: x in a && y in b ==> Before(x, y)
    ensures Ordered(a + b)
  {
    forall i, j | 0 <= i < j < |a + b| ensures Before((a + b)[i], (a + b)[j]) {
      if i < |a| && j >= |a| {
        assert a[i] in a && b[j - |a|] in b;
      }
    }
  }

  lemma {:induction false} OutputsMember(c: Config, replies: seq<seq<Ready>>, n: nat, e: Event)
    requires n <= |replies| == |c.outward|
    ensures e in Outputs(c, replies, n) <==>
      e.Output? && e.pipe < n && c.outward[e.pipe] && e.replica < |replies[e.pipe]| && replies[e.pipe][e.replica] == Data(e.chunk)
  {
    if n > 0 {
      OutputsMember(c, replies, n - 1, e);
      var a, b := Outputs(c, replies, n - 1), RowOutputs(replies[n - 1], n - 1, |replies[n - 1]|);
      RowMember(replies[n - 1], n - 1, |replies[n - 1]|, e);
      if c.outward[n - 1] {
        assert Outputs(c, replies, n) == a + b;
      } else {
        assert Outputs(c, replies, n) == a;
      }
    }
  }

  lemma {:induction false} OutputsOrdered(c: Config, replies: seq<seq<Ready>>, n: nat)
    requires n <= |replies| == |c.outward|
    ensures Ordered(Outputs(c, replies, n))
  {
    if n > 0 {
      OutputsOrdered(c, replies, n - 1);
      var a, b := Outputs(c, replies, n - 1), RowOutputs(replies[n - 1], n - 1, |replies[n - 1]|);
      if c.outward[n - 1] {
        RowOrdered(replies[n - 1], n - 1, |replies[n - 1]|);
        forall x, y | x in a && y in b ensures Before(x, y) {
          OutputsMember(c, replies, n - 1, x);
          RowMember(replies[n - 1], n - 1, |replies[n - 1]|, y);
        }
        OrderedJoin(a, b);
        assert Outputs(c, replies, n) == a + b;
      } else {
        assert Outputs(c, replies, n) == a;
      }
    }
  }

  lemma OutputsDue(c: Config, replies: seq<seq<Ready>>)
    requires |replies| == |c.outward|
    ensures Ordered(Outputs(c, replies, |replies|))
    ensures forall e :: e in Outputs(c, replies, |replies|) <==>
      e.Output? && e.pipe < |replies| && c.outward[e.pipe] && e.replica < |replies[e.pipe]|
      && replies[e.pipe][e.replica] == Data(e.chunk)
  {
    OutputsOrdered(c, replies, |replies|);
    forall e
      ensures e in Outputs(c, replies, |replies|) <==>
        e.Output? && e.pipe < |replies| && c.outward[e.pipe] && e.replica < |replies[e.pipe]|
        && replies[e.pipe][e.replica] == Data(e.chunk)
    {
      OutputsMember(c, replies, |replies|, e);
    }
  }

  lemma GateDue(c: Config, s: State, lowPriority: bool, external: seq<Ready>)
    requires WellFormed(c, s) && |external| == |c.outward|
    ensures Ordered(Gate(c, s, lowPriority, external))
    ensures forall e :: e in Gate(c, s, lowPriority, external) <==>
      || (e.Input? && e.pipe < |c.outward| && !c.outward[e.pipe] && external[e.pipe] == Data(e.chunk) && CheckSync(c, s))
      || (e.Arm? && !CheckSync(c, s) && lowPriority && !s.timer)
  {
    InputsDue(c, external, |external|);
  }

  lemma PassOrdered(c: Config, s: State, priority: seq<int>, t: Report)
    requires WellFormed(c, s) && |priority| == c.mode.Count() && t.Fits(c)
    ensures Ordered(EventsOf(c, s, priority, t))
  {
    var s1 := AfterRestarts(c, s, priority, t.exited, t.expired);
    var a := Restarts(c, s, priority, t.exited, t.expired);
    var b, d := Gate(c, s1, t.lowPriority, t.external), Outputs(c, t.replies, |t.replies|);
    GateDue(c, s1, t.lowPriority, t.external);
    OutputsDue(c, t.replies);
    forall x, y | x in a && y in b + d ensures Before(x, y) {
      assert y in b || y in d;
    }
    forall x, y | x in b && y in d ensures Before(x, y) {
    }
    OrderedJoin(b, d);
    OrderedJoin(a, b + d);
    assert a + (b + d) == a + b + d;
  }

  lemma PassMember(c: Config, s: State, priority: seq<int>, t: Report, e: Event)
    requires WellFormed(c, s) && |priority| == c.mode.Count() && t.Fits(c)
    ensures e in EventsOf(c, s, priority, t) <==> Due(c, s, priority, t, e)
  {
    var s1 := AfterRestarts(c, s, priority, t.exited, t.expired);
    var a := Restarts(c, s, priority, t.exited, t.expired);
    var b, d := Gate(c, s1, t.lowPriority, t.external), Outputs(c, t.replies, |t.replies|);
    GateDue(c, s1, t.lowPriority, t.external);
    OutputsDue(c, t.replies);
    assert EventsOf(c, s, priority, t) == a + b + d;
    assert e in a + b + d <==> e in a || e in b || e in d;
  }

  /** A pass consists of exactly the events that are due, each of them once, in order. */
  lemma PassIsDue(c: Config, s: State, priority: seq<int>, t: Report)
    requires WellFormed(c, s) && |priority| == c.mode.Count() && t.Fits(c)
    ensures forall e :: e in EventsOf(c, s, priority, t) <==> Due(c, s, priority, t, e)
    ensures Ordered(EventsOf(c, s, priority, t))
  {
    PassOrdered(c, s, priority, t);
    forall e ensures e in EventsOf(c, s, priority, t) <==> Due(c, s, priority, t, e) {
      PassMember(c, s, priority, t, e);
    }
  }

  /** How often an event occurs. */
  ghost function Times(es: seq<Event>, e: Event): nat {
    if es == [] then 0 else (if es[0] == e then 1 else 0) + Times(es[1..], e)
  }

  lemma {:induction false} OrderedOnce(es: seq<Event>, e: Event)
    requires Ordered(es)
    ensures Times(es, e) == if e in es then 1 else 0
  {
    if es != [] {
      assert Ordered(es[1..]) by {
        forall i, j | 0 <= i < j < |es[1..]| ensures Before(es[1..][i], es[1..][j]) {
          assert Before(es[i + 1], es[j + 1]);
        }
      }
      OrderedOnce(es[1..], e);
      assert es[0] !in es[1..] by {
        forall j | 1 <= j < |es| ensures es[j] != es[0] {
          assert Before(es[0], es[j]);
        }
      }
    }
  }

  /** So every chunk that a replica has is taken exactly once, and so is every external chunk if the
      rings are in step; the pass begins with a timeout exactly when the watchdog runs and has expired
      and no exit of the single replica came before. */
  lemma PassOnce(c: Config, s: State, priority: seq<int>, t: Report, e: Event)
    requires WellFormed(c, s) && |priority| == c.mode.Count() && t.Fits(c)
    ensures var es := EventsOf(c, s, priority, t);
      && Times(es, e) == (if Due(c, s, priority, t, e) then 1 else 0)
      && (es != [] && es[0].Timeout? <==> s.timer && t.expired && !(c.mode == SMR && t.exited))
  {
    var es := EventsOf(c, s, priority, t);
    PassIsDue(c, s, priority, t);
    OrderedOnce(es, e);
    if Timeout(priority) in es {
      TimeoutFirst(es, Timeout(priority));
    } else if es != [] {
      assert es[0] in es;
    }
  }

  /** Nothing comes before a timeout. */
  lemma TimeoutFirst(es: seq<Event>, e: Event)
    requires Ordered(es) && e.Timeout? && e in es
    ensures es[0] == e
  {
    var i :| 0 <= i < |es| && es[i] == e;
    assert i == 0 || Before(es[0], e);
  }

  // --------------------------------------------------------------------------- what it comes to

  /** Every replica has been given each chunk of the first `n` external pipes, and neither the rings nor
      what was emitted have changed. */
  ghost predicate Gave(c: Config, s: State, external: seq<Ready>, n: nat, s': State) {
    && |external| == |c.outward| && WellFormed(c, s) && WellFormed(c, s')
    && s'.rings == s.rings && s'.emitted == s.emitted
    && forall p, r :: 0 <= p < |c.outward| && 0 <= r < c.mode.Count() ==>
         s'.pending[p][r] == s.pending[p][r] + if p < n && !c.outward[p] && external[p].Data? then external[p].chunk else []
  }

  lemma GaveOne(c: Config, s: State, external: seq<Ready>, n: nat, s1: State)
    requires n < |external| && Gave(c, s, external, n, s1) && !c.outward[n] && external[n].Data?
    requires Enabled(c, s1, Input(n, external[n].chunk))
    ensures Gave(c, s, external, n + 1, Step(c, s1, Input(n, external[n].chunk)))
  {
    var s', chunk := Step(c, s1, Input(n, external[n].chunk)), external[n].chunk;
    forall p, r | 0 <= p < |c.outward| && 0 <= r < c.mode.Count()
      ensures s'.pending[p][r] == s1.pending[p][r] + if p == n then chunk else []
    {
    }
  }

  lemma GaveMore(c: Config, s: State, external: seq<Ready>, n: nat, s': State) returns (s1: State)
    requires n < |external| == |c.outward| && Leads(c, s, Inputs(c, external, n + 1), s')
    ensures Leads(c, s, Inputs(c, external, n), s1)
    ensures Gave(c, s, external, n, s1) ==> Gave(c, s, external, n + 1, s')
  {
    assert Look(0);
    if !c.outward[n] && external[n].Data? {
      s1 := RunLast(c, s, Inputs(c, external, n), Input(n, external[n].chunk), s');
      if Gave(c, s, external, n, s1) {
        GaveOne(c, s, external, n, s1);
      }
    } else {
      s1 := s';
      assert Inputs(c, external, n + 1) == Inputs(c, external, n);
    }
  }

  /** The reads of the external pipes give every replica each chunk that there is, and touch neither the
      rings nor the output. */
  lemma {:induction false} InputsGiven(c: Config, s: State, external: seq<Ready>, n: nat, s': State)
    requires n <= |external| == |c.outward| && WellFormed(c, s) && Leads(c, s, Inputs(c, external, n), s')
    ensures Gave(c, s, external, n, s')
  {
    if n == 0 {
      LeadsNowhere(c, s, [], s');
    } else {
      var s1 := GaveMore(c, s, external, n - 1, s');
      InputsGiven(c, s, external, n - 1, s1);
    }
  }

  /** A run that ends with an event is a run up to it and a step. */
  lemma {:induction false} RunLast(c: Config, s: State, es: seq<Event>, e: Event, s': State) returns (s1: State)
    requires WellFormed(c, s) && Run(c, s, es + [e], s')
    ensures WellFormed(c, s1) && Run(c, s, es, s1) && Enabled(c, s1, e) && s' == Step(c, s1, e)
    decreases |es|
  {
    if es == [] {
      assert (es + [e])[1..] == [];
      s1 := s;
    } else {
      assert (es + [e])[1..] == es[1..] + [e];
      s1 := RunLast(c, Step(c, s, es[0]), es[1..], e, s');
    }
  }
}

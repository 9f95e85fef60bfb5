/** What the replicas read: over every run with restarts each replica is given the whole external input,
    every byte once and in order. */
module VoterInputs {
  import opened VoteBuff
  import opened VoterModel
  import opened VoterRuns
  import opened Wrappers

  /** A restart on every input pipe: both processes have the same input to read exactly when the
      restarter's fits one read, and then it is what the restarter had; nobody else's is touched. */
  lemma RestartInputs(c: Config, s: State, restartee: nat, restarter: nat, p: nat)
    requires WellFormed(c, s) && p < |c.outward| && !c.outward[p]
    requires restartee < c.mode.Count() && restarter < c.mode.Count() && restartee != restarter
    ensures var before, after := s.pending[p], RestartPrep(c, s, restartee, restarter).pending[p];
      && (after[restartee] == after[restarter] <==> |before[restarter]| <= c.cap)
      && (|before[restarter]| <= c.cap ==> after[restarter] == before[restarter])
      && forall q :: 0 <= q < c.mode.Count() && q != restartee && q != restarter ==> after[q] == before[q]
  {
    InputHandOver(c.cap, s.pending[p], restartee, restarter);
  }

  // ------------------------------------------------------------------------------------ history

  /** What each process has read from each pipe, listed like the pending input. */
  type History = seq<seq<seq<byte>>>

  ghost predicate Shaped(c: Config, h: History) {
    |h| == |c.outward| && forall p :: 0 <= p < |h| ==> |h[p]| == c.mode.Count()
  }

  datatype Cloning = Cloning(restartee: nat, restarter: nat)

  /** The replica that a step replaces by a clone of another. */
  ghost function Clones(c: Config, s: State, e: Event): (who: Option<Cloning>)
    requires WellFormed(c, s) && Enabled(c, s, e)
    ensures who.Some? ==>
      who.value.restartee < c.mode.Count() && who.value.restarter < c.mode.Count() && who.value.restartee != who.value.restarter
  {
    match e
    case Output(r, p, chunk) =>
      if c.mode != TMR || !Fits(c, s, r, p, chunk) then None
      else
        var col := Receive(c, s, r, p, chunk).rings[p];
        var v := JudgeFrom(col, Least(col), 0);
        if Least(col) > 0 && v.Expel? then Some(Cloning(v.restartee, v.restarter)) else None
    case Timeout(priority) =>
      if c.mode == SMR then None else Some(Cloning(Late(c, s, priority), Donor(c, Late(c, s, priority))))
    case _ => None
  }

  /** A process that reads remembers what it read; a clone remembers what its original did. */
  ghost function Remember(c: Config, s: State, h: History, e: Event): (h': History)
    requires WellFormed(c, s) && Enabled(c, s, e) && Shaped(c, h)
    ensures Shaped(c, h')
  {
    match Clones(c, s, e)
    case Some(k) => seq(|h|, p requires 0 <= p < |h| => h[p][k.restartee := h[p][k.restarter]])
    case None =>
      match e
      case Consume(r, p, n) => h[p := h[p][r := h[p][r] + s.pending[p][r][..n]]]
      case _ => h
  }

  /** What a step brings in on a pipe. */
  ghost function Given(e: Event, p: nat): seq<byte> {
    if e.Input? && e.pipe == p then e.chunk else []
  }

  /** Whoever is cloned has no more input waiting than one read takes. */
  ghost predicate Roomy(c: Config, s: State, e: Event)
    requires WellFormed(c, s) && Enabled(c, s, e)
  {
    match Clones(c, s, e)
    case Some(k) => forall p :: 0 <= p < |c.outward| && !c.outward[p] ==> |s.pending[p][k.restarter]| <= c.cap
    case None => true
  }

  /** On the pipe `p` every replica has read or has waiting all that came in. */
  ghost predicate Supplied(c: Config, s: State, h: History, p: nat, all: seq<byte>)
    requires WellFormed(c, s) && Shaped(c, h) && p < |c.outward|
  {
    forall r :: 0 <= r < c.mode.Count() ==> h[p][r] + s.pending[p][r] == all
  }

  lemma SuppliedRestart(c: Config, s: State, h: History, p: nat, all: seq<byte>, k: Cloning, s': State, h': History)
    requires WellFormed(c, s) && Shaped(c, h) && p < |c.outward| && !c.outward[p] && Supplied(c, s, h, p, all)
    requires k.restartee < c.mode.Count() && k.restarter < c.mode.Count() && k.restartee != k.restarter
    requires |s.pending[p][k.restarter]| <= c.cap
    requires WellFormed(c, s') && Shaped(c, h') && h'[p] == h[p][k.restartee := h[p][k.restarter]]
    requires s'.pending[p] == RestartPrep(c, s, k.restartee, k.restarter).pending[p]
    ensures Supplied(c, s', h', p, all)
  {
    RestartInputs(c, s, k.restartee, k.restarter, p);
  }

  lemma SuppliedRead(c: Config, s: State, h: History, e: Event, p: nat, all: seq<byte>)
    requires WellFormed(c, s) && Enabled(c, s, e) && Shaped(c, h) && p < |c.outward| && !c.outward[p]
    requires e.Consume? && Supplied(c, s, h, p, all)
    ensures Supplied(c, Step(c, s, e), Remember(c, s, h, e), p, all)
  {
    var s', h' := Step(c, s, e), Remember(c, s, h, e);
    forall r | 0 <= r < c.mode.Count() ensures h'[p][r] + s'.pending[p][r] == all {
      if p == e.pipe && r == e.replica {
        assert s.pending[p][r] == s.pending[p][r][..e.n] + s.pending[p][r][e.n..];
      }
    }
  }

  lemma SuppliedInput(c: Config, s: State, h: History, e: Event, p: nat, all: seq<byte>)
    requires WellFormed(c, s) && Enabled(c, s, e) && Shaped(c, h) && p < |c.outward| && !c.outward[p]
    requires e.Input? && Supplied(c, s, h, p, all)
    ensures Supplied(c, Step(c, s, e), h, p, all + Given(e, p))
  {
    var s' := Step(c, s, e);
    forall r | 0 <= r < c.mode.Count() ensures h[p][r] + s'.pending[p][r] == all + Given(e, p) {
      if p == e.pipe && e.chunk != [] {
        assert s'.pending[p][r] == s.pending[p][r] + e.chunk;
      } else {
        assert s'.pending[p][r] == s.pending[p][r];
      }
    }
  }

  /** Output and timeouts leave the input alone unless they clone. */
  lemma PendingKept(c: Config, s: State, e: Event, p: nat)
    requires WellFormed(c, s) && Enabled(c, s, e) && p < |c.outward| && c.mode != SMR && (e.Output? || e.Timeout?)
    ensures match Clones(c, s, e)
      case Some(k) => Step(c, s, e).pending[p] == RestartPrep(c, s, k.restartee, k.restarter).pending[p]
      case None => Step(c, s, e).pending == s.pending
  {
    match e
    case Output(r, q, chunk) =>
      if Fits(c, s, r, q, chunk) {
        var s1 := Receive(c, s, r, q, chunk);
        assert s1.pending == s.pending;
      }
    case _ =>
  }

  lemma SuppliedOutput(c: Config, s: State, h: History, e: Event, p: nat, all: seq<byte>)
    requires WellFormed(c, s) && Enabled(c, s, e) && Shaped(c, h) && p < |c.outward| && !c.outward[p]
    requires c.mode != SMR && (e.Output? || e.Timeout?) && Roomy(c, s, e) && Supplied(c, s, h, p, all)
    ensures Supplied(c, Step(c, s, e), Remember(c, s, h, e), p, all)
  {
    PendingKept(c, s, e, p);
    if Clones(c, s, e).Some? {
      SuppliedRestart(c, s, h, p, all, Clones(c, s, e).value, Step(c, s, e), Remember(c, s, h, e));
    }
  }

  /** One step: the input that came in is with every replica. */
  lemma SuppliedStep(c: Config, s: State, h: History, e: Event, p: nat, all: seq<byte>)
    requires WellFormed(c, s) && Enabled(c, s, e) && Shaped(c, h) && p < |c.outward| && !c.outward[p]
    requires c.mode != SMR && Roomy(c, s, e) && Supplied(c, s, h, p, all)
    ensures Supplied(c, Step(c, s, e), Remember(c, s, h, e), p, all + Given(e, p))
  {
    assert all + [] == all;
    match e
    case Consume(_, _, _) => SuppliedRead(c, s, h, e, p, all);
    case Input(_, _) => SuppliedInput(c, s, h, e, p, all);
    case Output(_, _, _) => SuppliedOutput(c, s, h, e, p, all);
    case Timeout(_) => SuppliedOutput(c, s, h, e, p, all);
    case _ =>
  }

  /** A run in which whoever is cloned has room; `h'` is what the processes remember after it. */
  ghost predicate RoomyRun(c: Config, s: State, h: History, es: seq<Event>, s': State, h': History)
    requires WellFormed(c, s) && Shaped(c, h)
    decreases |es|
  {
    if es == [] then s' == s && h' == h
    else
      && Enabled(c, s, es[0]) && Roomy(c, s, es[0])
      && RoomyRun(c, Step(c, s, es[0]), Remember(c, s, h, es[0]), es[1..], s', h')
  }

  /** All that came in on a pipe during a run. */
  ghost function Received(es: seq<Event>, p: nat): seq<byte> {
    if es == [] then [] else Given(es[0], p) + Received(es[1..], p)
  }

  /** From here the events `es` lead to `s'` and `h'`; up to here `all` came in on `p`. */
  ghost predicate Under(c: Config, s: State, h: History, es: seq<Event>, s': State, h': History, p: nat, all: seq<byte>) {
    forall t {:trigger Look(t)} :: Look(t) ==>
      && WellFormed(c, s) && Shaped(c, h) && p < |c.outward| && !c.outward[p] && c.mode != SMR
      && Supplied(c, s, h, p, all) && RoomyRun(c, s, h, es, s', h')
  }

  lemma UnderNext(c: Config, s: State, h: History, es: seq<Event>, s': State, h': History, p: nat, all: seq<byte>)
    returns (s1: State, h1: History)
    requires Under(c, s, h, es, s', h', p, all) && es != []
    ensures Under(c, s1, h1, es[1..], s', h', p, all + Given(es[0], p))
  {
    assert Look(0);
    SuppliedStep(c, s, h, es[0], p, all);
    s1, h1 := Step(c, s, es[0]), Remember(c, s, h, es[0]);
  }

  lemma {:induction false} SuppliedRun(c: Config, s: State, h: History, es: seq<Event>, s': State, h': History, p: nat, all: seq<byte>)
    requires Under(c, s, h, es, s', h', p, all)
    ensures Under(c, s', h', [], s', h', p, all + Received(es, p))
    decreases |es|
  {
    if es == [] {
      assert all + [] == all;
      UnderDone(c, s, h, es, s', h', p, all);
    } else {
      var s1, h1 := UnderNext(c, s, h, es, s', h', p, all);
      SuppliedRun(c, s1, h1, es[1..], s', h', p, all + Given(es[0], p));
      assert all + Given(es[0], p) + Received(es[1..], p) == all + Received(es, p);
    }
  }

  lemma UnderDone(c: Config, s: State, h: History, es: seq<Event>, s': State, h': History, p: nat, all: seq<byte>)
    requires Under(c, s, h, es, s', h', p, all) && es == []
    ensures s' == s && h' == h
  {
    assert Look(0);
  }

  ghost function NoHistory(c: Config): (h: History)
    ensures Shaped(c, h)
  {
    seq(|c.outward|, _ => seq(c.mode.Count(), _ => []))
  }

  /** In DMR and TMR, after any run from start-up, whatever was restarted, what a replica has read
      followed by what waits for it is the whole external input of that pipe, for every replica alike. */
  lemma InputDelivered(c: Config, es: seq<Event>, s: State, h: History, p: nat, r: nat)
    requires c.Valid() && c.mode != SMR && p < |c.outward| && !c.outward[p] && r < c.mode.Count()
    requires RoomyRun(c, Initial(c), NoHistory(c), es, s, h)
    ensures WellFormed(c, s) && Shaped(c, h) && h[p][r] + s.pending[p][r] == Received(es, p)
  {
    StartUnder(c, es, s, h, p);
    SuppliedRun(c, Initial(c), NoHistory(c), es, s, h, p, []);
    assert [] + Received(es, p) == Received(es, p);
    UnderTold(c, s, h, p, Received(es, p), r);
  }

  lemma StartUnder(c: Config, es: seq<Event>, s: State, h: History, p: nat)
    requires c.Valid() && c.mode != SMR && p < |c.outward| && !c.outward[p]
    requires RoomyRun(c, Initial(c), NoHistory(c), es, s, h)
    ensures Under(c, Initial(c), NoHistory(c), es, s, h, p, [])
  {
  }

  lemma UnderTold(c: Config, s: State, h: History, p: nat, all: seq<byte>, r: nat)
    requires Under(c, s, h, [], s, h, p, all) && r < c.mode.Count()
    ensures WellFormed(c, s) && Shaped(c, h) && p < |c.outward| && h[p][r] + s.pending[p][r] == all
  {
    assert Look(0);
  }

  // ----------------------------------------------------------------------------- cold restarts

  /** The last chunk that was read from a pipe, `x` if there was none. */
  ghost function LastChunk(x: seq<byte>, es: seq<Event>, p: nat): seq<byte>
    decreases |es|
  {
    if es == [] then x else LastChunk(if es[0].Input? && es[0].pipe == p then es[0].chunk else x, es[1..], p)
  }

  lemma LastStep(c: Config, s: State, e: Event, p: nat)
    requires WellFormed(c, s) && Enabled(c, s, e) && p < |c.outward|
    ensures Step(c, s, e).lastInput[p] == if e.Input? && e.pipe == p then e.chunk else s.lastInput[p]
  {
    match e
    case Output(r, q, chunk) =>
      if Fits(c, s, r, q, chunk) {
        var s1 := Receive(c, s, r, q, chunk);
        assert CheckSDC(c, s1, q).lastInput == s.lastInput;
      }
    case _ =>
  }

  lemma LastLeads(c: Config, s: State, es: seq<Event>, s': State, p: nat) returns (s1: State)
    requires Leads(c, s, es, s') && es != [] && p < |c.outward| && p < |s.lastInput|
    ensures Leads(c, s1, es[1..], s') && p < |s1.lastInput|
    ensures s1.lastInput[p] == if es[0].Input? && es[0].pipe == p then es[0].chunk else s.lastInput[p]
  {
    assert Look(0);
    LastStep(c, s, es[0], p);
    s1 := Step(c, s, es[0]);
  }

  lemma {:induction false} LastRun(c: Config, s: State, es: seq<Event>, s': State, p: nat)
    requires Leads(c, s, es, s') && p < |c.outward| && p < |s.lastInput|
    ensures p < |s'.lastInput| && s'.lastInput[p] == LastChunk(s.lastInput[p], es, p)
    decreases |es|
  {
    if es == [] {
      LeadsNowhere(c, s, es, s');
    } else {
      var s1 := LastLeads(c, s, es, s', p);
      LastRun(c, s1, es[1..], s', p);
    }
  }

  /** After any run of a single replica a restart, by exit or timeout, leaves it on each input pipe
      exactly the last chunk that was read there. */
  lemma ColdInput(c: Config, es: seq<Event>, s: State, e: Event, p: nat)
    requires c.Valid() && c.mode == SMR && Run(c, Initial(c), es, s) && WellFormed(c, s)
    requires Enabled(c, s, e) && (e.Exit? || e.Timeout?) && p < |c.outward| && !c.outward[p]
    ensures Step(c, s, e).pending[p] == [LastChunk([], es, p)]
  {
    LastRun(c, Initial(c), es, s, p);
  }
}

/** What whole runs of the voter guarantee: ring alignment under any fault pattern, drained rings and
    the input gate, byte-exact restarts, input hand-over, and masking of one fault at a time by TMR. */
module VoterRuns {
  import opened VoteBuff
  import opened VoterModel
  import opened Wrappers

  // ---------------------------------------------------------------------------------- alignment

  ghost predicate AlignedColumn(col: seq<Queue>) {
    forall a, b :: 0 <= a < |col| && 0 <= b < |col| ==> col[a].index == col[b].index
  }

  /** On every pipe all replicas' rings read from the same index. */
  ghost predicate Aligned(s: State) {
    forall p :: 0 <= p < |s.rings| ==> AlignedColumn(s.rings[p])
  }

  lemma AdvanceAligned(cap: nat, col: seq<Queue>, n: nat)
    requires Within(cap, col) && forall r :: 0 <= r < |col| ==> n <= |col[r].bytes|
    requires AlignedColumn(col)
    ensures AlignedColumn(AdvanceAll(cap, col, n))
  {
  }

  lemma SendAligned(c: Config, s: State, p: nat, sender: nat)
    requires WellFormed(c, s) && InRange(c, sender, p) && Aligned(s)
    ensures Aligned(SendPipe(c, s, p, sender))
  {
    AdvanceAligned(c.cap, s.rings[p], Least(s.rings[p]));
  }

  lemma RestartAligned(c: Config, s: State, restartee: nat, restarter: nat)
    requires WellFormed(c, s) && Aligned(s)
    requires restartee < c.mode.Count() && restarter < c.mode.Count() && restartee != restarter
    ensures Aligned(RestartPrep(c, s, restartee, restarter))
  {
    forall p | 0 <= p < |s.rings| && c.outward[p]
      ensures AlignedColumn(Flush(c, s.rings[p], restartee, restarter))
    {
      var copied := s.rings[p][restartee := s.rings[p][restarter]];
      AdvanceAligned(c.cap, copied, Least(copied));
    }
  }

  lemma AlignedStep(c: Config, s: State, e: Event)
    requires WellFormed(c, s) && Enabled(c, s, e) && Aligned(s)
    ensures Aligned(Step(c, s, e))
  {
    match e
    case Output(r, p, chunk) =>
      if Fits(c, s, r, p, chunk) {
        var s1 := Receive(c, s, r, p, chunk);
        assert Aligned(s1);
        if Least(s1.rings[p]) > 0 {
          match c.mode
          case SMR => SendAligned(c, s1, p, 0);
          case DMR => SendAligned(c, s1, p, 0);
          case TMR =>
            match JudgeFrom(s1.rings[p], Least(s1.rings[p]), 0)
            case Agree(sender) => SendAligned(c, s1, p, sender);
            case Expel(restartee, restarter) => RestartAligned(c, s1, restartee, restarter);
            case Split =>
        }
      }
    case Timeout(priority) => RestartHandlerAligned(c, s, priority);
    case Exit(priority) => RestartHandlerAligned(c, s, priority);
    case _ =>
  }

  lemma RestartHandlerAligned(c: Config, s: State, priority: seq<int>)
    requires WellFormed(c, s) && Aligned(s) && |priority| == c.mode.Count()
    ensures Aligned(RestartHandler(c, s, priority))
  {
    if c.mode != SMR {
      var late := Late(c, s, priority);
      RestartAligned(c, s, late, Donor(c, late));
    }
  }

  /** Every reachable state of every mode is aligned, whatever the replicas write; so the comparison
      never meets two different indices and decides by the bytes alone. */
  lemma {:induction false} ReachableAligned(c: Config, s: State, es: seq<Event>, s': State)
    requires WellFormed(c, s) && Aligned(s) && Run(c, s, es, s')
    ensures WellFormed(c, s') && Aligned(s')
    ensures forall p, a, b, n ::
      (&& 0 <= p < |s'.rings| && 0 <= a < c.mode.Count() && 0 <= b < c.mode.Count()
       && 0 <= n <= |s'.rings[p][a].bytes| && n <= |s'.rings[p][b].bytes|) ==>
      (Same(s'.rings[p][a], s'.rings[p][b], n) <==> s'.rings[p][a].bytes[..n] == s'.rings[p][b].bytes[..n])
    decreases |es|
  {
    if es != [] {
      AlignedStep(c, s, es[0]);
      ReachableAligned(c, Step(c, s, es[0]), es[1..], s');
    }
  }

  // ------------------------------------------------------------------------------ drained rings

  /** On every pipe some replica has nothing queued. */
  ghost predicate Drained(c: Config, s: State)
    requires WellFormed(c, s)
  {
    forall p :: 0 <= p < |s.rings| ==> Least(s.rings[p]) == 0
  }

  lemma AdvanceDrains(cap: nat, col: seq<Queue>)
    requires Within(cap, col) && col != []
    ensures Least(AdvanceAll(cap, col, Least(col))) == 0
  {
    var r :| 0 <= r < |col| && Least(col) == |col[r].bytes|;
    assert AdvanceAll(cap, col, Least(col))[r].bytes == [];
  }

  lemma RestartDrains(c: Config, s: State, restartee: nat, restarter: nat)
    requires WellFormed(c, s)
    requires restartee < c.mode.Count() && restarter < c.mode.Count() && restartee != restarter
    ensures Drained(c, RestartPrep(c, s, restartee, restarter))
  {
    var s' := RestartPrep(c, s, restartee, restarter);
    forall p | 0 <= p < |s'.rings| ensures Least(s'.rings[p]) == 0 {
      if c.outward[p] {
        AdvanceDrains(c.cap, s.rings[p][restartee := s.rings[p][restarter]]);
      } else {
        assert s'.rings[p][0] == EMPTY;
      }
    }
  }

  /** A vote drains its pipe exactly when there was nothing to vote on or two replicas agreed. */
  lemma VoteDrains(c: Config, s: State, p: nat)
    requires WellFormed(c, s) && p < |c.outward| && c.outward[p]
    ensures Least(CheckSDC(c, s, p).rings[p]) == 0 <==>
      Least(s.rings[p]) == 0 || c.mode != TMR || JudgeFrom(s.rings[p], Least(s.rings[p]), 0) != Split
    ensures CheckSDC(c, s, p).rings == s.rings || Drained(c, CheckSDC(c, s, p))
      || CheckSDC(c, s, p).rings == s.rings[p := CheckSDC(c, s, p).rings[p]]
  {
    var col := s.rings[p];
    var n := Least(col);
    AdvanceDrains(c.cap, col);
    if n > 0 && c.mode == TMR {
      var v := JudgeFrom(col, n, 0);
      if v.Expel? {
        RestartDrains(c, s, v.restartee, v.restarter);
      }
    }
  }

  lemma OutputDrained(c: Config, s: State, r: nat, p: nat, chunk: seq<byte>)
    requires WellFormed(c, s) && InRange(c, r, p) && c.outward[p] && Drained(c, s)
    requires Fits(c, s, r, p, chunk) ==>
      var col := Receive(c, s, r, p, chunk).rings[p];
      c.mode == TMR && Least(col) > 0 ==> JudgeFrom(col, Least(col), 0) != Split
    ensures Drained(c, ProcessFromRep(c, s, r, p, chunk))
  {
    if Fits(c, s, r, p, chunk) {
      var s1 := Receive(c, s, r, p, chunk);
      VoteDrains(c, s1, p);
    }
  }

  lemma RestartHandlerDrains(c: Config, s: State, priority: seq<int>)
    requires WellFormed(c, s) && |priority| == c.mode.Count()
    ensures Drained(c, RestartHandler(c, s, priority))
  {
    var s' := RestartHandler(c, s, priority);
    if c.mode == SMR {
      assert forall p :: 0 <= p < |s'.rings| ==> s'.rings[p][0] == EMPTY;
    } else {
      var late := Late(c, s, priority);
      RestartDrains(c, s, late, Donor(c, late));
    }
  }

  /** SMR and DMR keep every pipe drained in every run, whatever the replicas write. */
  lemma {:induction false} ReachableDrained(c: Config, s: State, es: seq<Event>, s': State)
    requires WellFormed(c, s) && c.mode != TMR && Drained(c, s) && Run(c, s, es, s')
    ensures WellFormed(c, s') && Drained(c, s')
    decreases |es|
  {
    if es != [] {
      match es[0] {
        case Output(r, p, chunk) => OutputDrained(c, s, r, p, chunk);
        case Timeout(priority) => RestartHandlerDrains(c, s, priority);
        case Exit(priority) => RestartHandlerDrains(c, s, priority);
        case _ =>
      }
      ReachableDrained(c, Step(c, s, es[0]), es[1..], s');
    }
  }

  /** With drained rings, external input is admitted exactly when every ring is empty, that is when
      every byte taken from any replica has been emitted. */
  lemma InputGate(c: Config, s: State)
    requires WellFormed(c, s) && Drained(c, s)
    ensures CheckSync(c, s) <==>
      forall p, r :: 0 <= p < |s.rings| && 0 <= r < c.mode.Count() ==> s.rings[p][r].bytes == []
  {
    if CheckSync(c, s) {
      forall p, r | 0 <= p < |s.rings| && 0 <= r < c.mode.Count() ensures s.rings[p][r].bytes == [] {
        var q :| 0 <= q < |s.rings[p]| && Least(s.rings[p]) == |s.rings[p][q].bytes|;
      }
    }
  }

  /** Start-up is aligned and drained in every mode. */
  lemma InitialReady(c: Config)
    requires c.Valid()
    ensures Aligned(Initial(c)) && Drained(c, Initial(c))
  {
    var s := Initial(c);
    forall p | 0 <= p < |s.rings| ensures Least(s.rings[p]) == 0 {
      assert s.rings[p][0] == EMPTY;
    }
  }

  /** So every state that a voter comes to from start-up is aligned, and in SMR and DMR it admits input
      exactly when every ring is empty. */
  lemma FromStart(c: Config, es: seq<Event>, s: State)
    requires c.Valid() && Run(c, Initial(c), es, s)
    ensures WellFormed(c, s) && Aligned(s)
    ensures c.mode != TMR ==> Drained(c, s) && (CheckSync(c, s) <==>
      forall p, r :: 0 <= p < |s.rings| && 0 <= r < c.mode.Count() ==> s.rings[p][r].bytes == [])
  {
    InitialReady(c);
    ReachableAligned(c, Initial(c), es, s);
    if c.mode != TMR {
      ReachableDrained(c, Initial(c), es, s);
      InputGate(c, s);
    }
  }

  // ------------------------------------------------------------------------------------ restart

  /** `k` is the least count among the replicas other than `restartee`. */
  ghost predicate LeastSurviving(col: seq<Queue>, restartee: nat, k: nat) {
    && (forall q :: 0 <= q < |col| && q != restartee ==> k <= |col[q].bytes|)
    && (exists q :: 0 <= q < |col| && q != restartee && k == |col[q].bytes|)
  }

  lemma FlushColumn(c: Config, col: seq<Queue>, restartee: nat, restarter: nat) returns (k: nat)
    requires c.Valid() && ColumnOk(c, col) && restartee < |col| && restarter < |col| && restartee != restarter
    ensures LeastSurviving(col, restartee, k)
    ensures Flushed(col, restartee, restarter) == col[restarter].bytes[..k]
    ensures var col' := Flush(c, col, restartee, restarter);
      && |col'| == |col| && col'[restartee] == col'[restarter]
      && (forall q :: 0 <= q < |col| && q != restartee ==> col'[q].bytes == col[q].bytes[k..])
  {
    var copied := col[restartee := col[restarter]];
    k := Least(copied);
    forall q | 0 <= q < |col| && q != restartee ensures k <= |col[q].bytes| {
      assert copied[q] == col[q];
    }
    var m :| 0 <= m < |copied| && k == |copied[m].bytes|;
    var m' := if m == restartee then restarter else m;
    assert m' != restartee && k == |col[m'].bytes|;
  }

  lemma RestartPipe(c: Config, s: State, restartee: nat, restarter: nat, p: nat)
    requires WellFormed(c, s) && p < |c.outward| && c.outward[p]
    requires restartee < c.mode.Count() && restarter < c.mode.Count() && restartee != restarter
    ensures var s' := RestartPrep(c, s, restartee, restarter);
      && s'.rings[p] == Flush(c, s.rings[p], restartee, restarter)
      && s'.emitted[p] == s.emitted[p] + Flushed(s.rings[p], restartee, restarter)
  {
  }

  /** A restart extends each output by the first `k` bytes of the restarter's ring, `k` being the
      least count among the survivors, so that the restarter's emitted-plus-queued stream is
      unchanged; the restartee is left with what the restarter has left, which in DMR is nothing. */
  lemma RestartEmitsOnce(c: Config, s: State, restartee: nat, restarter: nat, p: nat) returns (k: nat)
    requires WellFormed(c, s) && p < |c.outward| && c.outward[p]
    requires restartee < c.mode.Count() && restarter < c.mode.Count() && restartee != restarter
    ensures LeastSurviving(s.rings[p], restartee, k)
    ensures var s' := RestartPrep(c, s, restartee, restarter);
      && s'.emitted[p] == s.emitted[p] + s.rings[p][restarter].bytes[..k]
      && s'.emitted[p] + s'.rings[p][restarter].bytes == s.emitted[p] + s.rings[p][restarter].bytes
      && s'.rings[p][restartee] == s'.rings[p][restarter]
      && (forall q :: 0 <= q < c.mode.Count() && q != restartee ==> s'.rings[p][q].bytes == s.rings[p][q].bytes[k..])
      && (c.mode == DMR ==> forall q :: 0 <= q < 2 ==> s'.rings[p][q].bytes == [])
  {
    k := FlushColumn(c, s.rings[p], restartee, restarter);
    RestartPipe(c, s, restartee, restarter, p);
    StreamKept(s.emitted[p], s.rings[p][restarter].bytes, s.rings[p][restarter].bytes, k);
  }

  /** Stealing and returning the restarter's pending input gives the restartee the very same queue
      exactly when that input fits one read; then the restarter's queue is what it was, and nobody
      else's queue is ever touched. */
  lemma InputHandOver(cap: nat, queues: seq<seq<byte>>, restartee: nat, restarter: nat)
    requires restartee < |queues| && restarter < |queues| && restartee != restarter
    ensures var queues' := HandOver(cap, queues, restartee, restarter);
      && (queues'[restartee] == queues'[restarter] <==> |queues[restarter]| <= cap)
      && (|queues[restarter]| <= cap ==> queues'[restarter] == queues[restarter])
      && |queues'[restarter]| == |queues[restarter]|
      && forall q :: 0 <= q < |queues| && q != restartee && q != restarter ==> queues'[q] == queues[q]
  {
  }

  // ------------------------------------------------------------------------------- TMR masking

  /** The bytes emitted on `p` followed by those queued from replica `r`. */
  ghost function Stream(s: State, r: nat, p: nat): seq<byte>
    requires p < |s.emitted| && p < |s.rings| && r < |s.rings[p]|
  {
    s.emitted[p] + s.rings[p][r].bytes
  }

  /** Replica `r` is healthy when on every output pipe its stream is a prefix of the reference. */
  ghost predicate Healthy(c: Config, ref: seq<seq<byte>>, s: State, r: nat)
    requires WellFormed(c, s) && |ref| == |c.outward| && r < c.mode.Count()
  {
    forall p :: 0 <= p < |c.outward| && c.outward[p] ==> Stream(s, r, p) <= ref[p]
  }

  datatype Suspect = Nobody | Replica(r: nat)

  /** Everyone but the suspect is healthy. */
  ghost predicate SingleFault(c: Config, ref: seq<seq<byte>>, s: State, suspect: Suspect)
    requires WellFormed(c, s) && |ref| == |c.outward|
  {
    forall r :: 0 <= r < c.mode.Count() && suspect != Replica(r) ==> Healthy(c, ref, s, r)
  }

  ghost predicate Masked(c: Config, ref: seq<seq<byte>>, s: State, suspect: Suspect) {
    && c.mode == TMR && WellFormed(c, s) && |ref| == |c.outward|
    && Aligned(s) && Drained(c, s) && SingleFault(c, ref, s, suspect)
  }

  /** Two aligned healthy rings hold the same first bytes, those the reference has next; so the
      verdict hangs on the third alone. */
  lemma JudgeAccuracy(col: seq<Queue>, n: nat, sent: seq<byte>, ref: seq<byte>, f: nat)
    requires |col| == 3 && f < 3 && AlignedColumn(col)
    requires forall q :: 0 <= q < 3 ==> n <= |col[q].bytes|
    requires forall q :: 0 <= q < 3 && q != f ==> sent + col[q].bytes <= ref
    ensures |sent| + n <= |ref|
    ensures col[f].bytes[..n] == ref[|sent|..|sent| + n] ==> JudgeFrom(col, n, 0) == Agree(0)
    ensures col[f].bytes[..n] != ref[|sent|..|sent| + n] ==>
      JudgeFrom(col, n, 0) == Expel(f, (f + 1) % 3)
    ensures forall q :: 0 <= q < 3 && q != f ==> col[q].bytes[..n] == ref[|sent|..|sent| + n]
  {
    var truth := NextOf(col[(f + 1) % 3], n, sent, ref);
    var again := NextOf(col[(f + 2) % 3], n, sent, ref);
    assert col[(f + 1) % 3].bytes[..n] == truth && col[(f + 2) % 3].bytes[..n] == truth;
  }

  lemma NextOf(q: Queue, n: nat, sent: seq<byte>, ref: seq<byte>) returns (next: seq<byte>)
    requires n <= |q.bytes| && sent + q.bytes <= ref
    ensures |sent| + n <= |ref| && next == ref[|sent|..|sent| + n] == q.bytes[..n]
  {
    next := ref[|sent|..|sent| + n];
    assert next == (sent + q.bytes)[|sent|..|sent| + n];
  }

  /** Emitting the first `n` bytes of one ring and dropping them from another that starts alike
      keeps the other's stream. */
  lemma StreamKept(sent: seq<byte>, sender: seq<byte>, mine: seq<byte>, n: nat)
    requires n <= |sender| && n <= |mine| && sender[..n] == mine[..n]
    ensures sent + sender[..n] + mine[n..] == sent + mine
  {
    assert mine == mine[..n] + mine[n..];
  }

  /** `r` has in `s'` the streams that `q` has in `s`. */
  ghost predicate SameStreams(c: Config, s: State, q: nat, s': State, r: nat)
    requires WellFormed(c, s) && WellFormed(c, s') && q < c.mode.Count() && r < c.mode.Count()
  {
    forall p :: 0 <= p < |c.outward| && c.outward[p] ==> Stream(s', r, p) == Stream(s, q, p)
  }

  /** Sending keeps the streams of every replica that shares the sent bytes with the sender. */
  lemma SendKeepsStreams(c: Config, s: State, p: nat, sender: nat, r: nat)
    requires WellFormed(c, s) && InRange(c, sender, p) && InRange(c, r, p) && c.outward[p]
    requires var n := Least(s.rings[p]); s.rings[p][sender].bytes[..n] == s.rings[p][r].bytes[..n]
    ensures SameStreams(c, s, r, SendPipe(c, s, p, sender), r)
  {
    StreamKept(s.emitted[p], s.rings[p][sender].bytes, s.rings[p][r].bytes, Least(s.rings[p]));
  }

  /** A restart by a healthy restarter keeps the streams of every healthy survivor and gives the
      restartee those of the restarter. */
  lemma RestartKeepsStreams(c: Config, ref: seq<seq<byte>>, s: State, restartee: nat, restarter: nat, r: nat)
    requires WellFormed(c, s) && |ref| == |c.outward|
    requires restartee < c.mode.Count() && restarter < c.mode.Count() && restartee != restarter
    requires r < c.mode.Count() && Healthy(c, ref, s, restarter) && (r == restartee || Healthy(c, ref, s, r))
    ensures SameStreams(c, s, if r == restartee then restarter else r, RestartPrep(c, s, restartee, restarter), r)
  {
    var s' := RestartPrep(c, s, restartee, restarter);
    var q := if r == restartee then restarter else r;
    forall p | 0 <= p < |c.outward| && c.outward[p] ensures Stream(s', r, p) == Stream(s, q, p) {
      var k := RestartEmitsOnce(c, s, restartee, restarter, p);
      assert Stream(s, restarter, p) <= ref[p] && Stream(s, q, p) <= ref[p];
      var x := NextOf(s.rings[p][restarter], k, s.emitted[p], ref[p]);
      var y := NextOf(s.rings[p][q], k, s.emitted[p], ref[p]);
      StreamKept(s.emitted[p], s.rings[p][restarter].bytes, s.rings[p][q].bytes, k);
    }
  }

  lemma StreamsHealthy(c: Config, ref: seq<seq<byte>>, s: State, q: nat, s': State, r: nat)
    requires WellFormed(c, s) && WellFormed(c, s') && |ref| == |c.outward| && q < c.mode.Count() && r < c.mode.Count()
    requires SameStreams(c, s, q, s', r) && Healthy(c, ref, s, q)
    ensures Healthy(c, ref, s', r)
  {
    forall p | 0 <= p < |c.outward| && c.outward[p] ensures Stream(s', r, p) <= ref[p] {
      assert Stream(s, q, p) <= ref[p];
    }
  }

  /** The replica that a step restarts, if any. */
  ghost function Restarted(c: Config, s: State, e: Event): (who: Suspect)
    requires WellFormed(c, s) && Enabled(c, s, e) && c.mode == TMR
  {
    match e
    case Output(r, p, chunk) =>
      if !Fits(c, s, r, p, chunk) then Nobody
      else
        var col := Receive(c, s, r, p, chunk).rings[p];
        var v := JudgeFrom(col, Least(col), 0);
        if Least(col) > 0 && v.Expel? then Replica(v.restartee) else Nobody
    case Timeout(priority) => Replica(Late(c, s, priority))
    case _ => Nobody
  }

  /** The fault hypothesis on one event. A replica that is not suspected continues the reference
      stream from where its ring ends, in chunks its ring can take; the suspect may write anything;
      a timeout does not clone the suspect. */
  ghost predicate Admissible(c: Config, ref: seq<seq<byte>>, s: State, suspect: Suspect, e: Event)
    requires c.mode == TMR && WellFormed(c, s) && |ref| == |c.outward|
  {
    && Enabled(c, s, e)
    && match e
       case Output(r, p, chunk) =>
         suspect == Replica(r) ||
         (|s.rings[p][r].bytes| + |chunk| < c.cap && Stream(s, r, p) + chunk <= ref[p])
       case Timeout(priority) => suspect != Replica(Donor(c, Late(c, s, priority)))
       case _ => true
  }

  /** Taking an admissible chunk keeps the single-fault hypothesis. */
  lemma ReceiveSingleFault(c: Config, ref: seq<seq<byte>>, s: State, suspect: Suspect, r: nat, p: nat, chunk: seq<byte>)
    requires Masked(c, ref, s, suspect) && Admissible(c, ref, s, suspect, Output(r, p, chunk))
    requires Fits(c, s, r, p, chunk)
    ensures SingleFault(c, ref, Receive(c, s, r, p, chunk), suspect)
    ensures Aligned(Receive(c, s, r, p, chunk))
  {
    var s1 := Receive(c, s, r, p, chunk);
    forall q | 0 <= q < 3 && suspect != Replica(q) ensures Healthy(c, ref, s1, q) {
      forall o | 0 <= o < |c.outward| && c.outward[o] ensures Stream(s1, q, o) <= ref[o] {
        assert Stream(s, q, o) <= ref[o];
        if q == r && o == p {
          assert Stream(s1, q, o) == Stream(s, r, p) + chunk;
        }
      }
    }
  }

  /** What a vote on `p` compares and what the reference says should come next. */
  ghost function Truth(ref: seq<byte>, sent: seq<byte>, n: nat): seq<byte>
    requires |sent| + n <= |ref|
  {
    ref[|sent|..|sent| + n]
  }

  /** Diagnosis: under the single-fault hypothesis a vote always finds an agreeing pair, expels
      nobody but the suspect, and expels it exactly when it deviates within the compared bytes. */
  lemma Diagnosis(c: Config, ref: seq<seq<byte>>, s: State, suspect: Suspect, p: nat)
    requires c.mode == TMR && WellFormed(c, s) && |ref| == |c.outward| && p < |c.outward| && c.outward[p]
    requires Aligned(s) && SingleFault(c, ref, s, suspect)
    requires suspect.Replica? ==> suspect.r < 3
    ensures var n, sent, v := Least(s.rings[p]), s.emitted[p], JudgeFrom(s.rings[p], Least(s.rings[p]), 0);
      && |sent| + n <= |ref[p]|
      && (v == Agree(0) || (v.Expel? && suspect == Replica(v.restartee)))
      && (v.Expel? <==> suspect.Replica? && s.rings[p][suspect.r].bytes[..n] != Truth(ref[p], sent, n))
      && (forall r :: 0 <= r < 3 && suspect != Replica(r) ==> s.rings[p][r].bytes[..n] == Truth(ref[p], sent, n))
  {
    var col, n, sent := s.rings[p], Least(s.rings[p]), s.emitted[p];
    var f := if suspect.Replica? then suspect.r else 0;
    forall q | 0 <= q < 3 && suspect != Replica(q)
      ensures sent + col[q].bytes <= ref[p]
      ensures |sent| + n <= |ref[p]| && col[q].bytes[..n] == Truth(ref[p], sent, n)
    {
      assert Healthy(c, ref, s, q);
      assert Stream(s, q, p) <= ref[p];
      var truth := NextOf(col[q], n, sent, ref[p]);
    }
    assert AlignedColumn(col);
    JudgeAccuracy(col, n, sent, ref[p], f);
  }

  /** A vote keeps the streams of every healthy replica, and an expelled suspect becomes healthy. */
  lemma VoteKeepsStreams(c: Config, ref: seq<seq<byte>>, s: State, suspect: Suspect, p: nat, r: nat)
    requires c.mode == TMR && WellFormed(c, s) && |ref| == |c.outward| && InRange(c, r, p) && c.outward[p]
    requires Aligned(s) && SingleFault(c, ref, s, suspect) && Least(s.rings[p]) > 0
    requires suspect.Replica? ==> suspect.r < 3
    ensures suspect != Replica(r) ==> SameStreams(c, s, r, CheckSDC(c, s, p), r)
    ensures suspect != Replica(r) || JudgeFrom(s.rings[p], Least(s.rings[p]), 0).Expel? ==>
      Healthy(c, ref, CheckSDC(c, s, p), r)
  {
    Diagnosis(c, ref, s, suspect, p);
    var n, v, s' := Least(s.rings[p]), JudgeFrom(s.rings[p], Least(s.rings[p]), 0), CheckSDC(c, s, p);
    if v.Expel? {
      assert s' == RestartPrep(c, s, v.restartee, v.restarter);
      RestartKeepsStreams(c, ref, s, v.restartee, v.restarter, r);
      StreamsHealthy(c, ref, s, if r == v.restartee then v.restarter else r, s', r);
    } else if suspect != Replica(r) {
      assert s' == SendPipe(c, s, p, 0);
      assert s.rings[p][0].bytes[..n] == Truth(ref[p], s.emitted[p], n);
      SendKeepsStreams(c, s, p, 0, r);
      StreamsHealthy(c, ref, s, r, s', r);
    }
  }

  /** The bytes that a step adds to the streams of `r` on `p`. */
  ghost function Added(e: Event, r: nat, p: nat): seq<byte> {
    if e.Output? && e.replica == r && e.pipe == p then e.chunk else []
  }

  /** An admissible step adds to a healthy replica's streams exactly what that replica wrote. */
  ghost predicate Grown(c: Config, s: State, e: Event, s': State, r: nat)
    requires WellFormed(c, s) && WellFormed(c, s') && r < c.mode.Count()
  {
    forall p :: 0 <= p < |c.outward| && c.outward[p] ==> Stream(s', r, p) == Stream(s, r, p) + Added(e, r, p)
  }

  lemma ReceiveGrown(c: Config, s: State, e: Event, r: nat)
    requires WellFormed(c, s) && e.Output? && Enabled(c, s, e) && r < c.mode.Count()
    requires Fits(c, s, e.replica, e.pipe, e.chunk)
    ensures Grown(c, s, e, Receive(c, s, e.replica, e.pipe, e.chunk), r)
  {
    var s1 := Receive(c, s, e.replica, e.pipe, e.chunk);
    forall p | 0 <= p < |c.outward| && c.outward[p]
      ensures Stream(s1, r, p) == Stream(s, r, p) + Added(e, r, p)
    {
    }
  }

  lemma GrownKept(c: Config, s: State, e: Event, s1: State, s': State, r: nat)
    requires WellFormed(c, s) && WellFormed(c, s1) && WellFormed(c, s') && r < c.mode.Count()
    requires Grown(c, s, e, s1, r) && SameStreams(c, s1, r, s', r)
    ensures Grown(c, s, e, s', r)
  {
  }

  lemma OutputStep(c: Config, ref: seq<seq<byte>>, s: State, suspect: Suspect, e: Event, r: nat)
    requires e.Output? && r < 3
    requires Masked(c, ref, s, suspect) && Admissible(c, ref, s, suspect, e)
    requires suspect.Replica? ==> suspect.r < 3
    ensures Cleared(c, s, suspect, e) != Replica(r) ==> Healthy(c, ref, Step(c, s, e), r)
    ensures suspect != Replica(r) ==> Grown(c, s, e, Step(c, s, e), r) && Restarted(c, s, e) != Replica(r)
  {
    var q, p, chunk := e.replica, e.pipe, e.chunk;
    if Fits(c, s, q, p, chunk) {
      var s1 := Receive(c, s, q, p, chunk);
      ReceiveSingleFault(c, ref, s, suspect, q, p, chunk);
      ReceiveGrown(c, s, e, r);
      Diagnosis(c, ref, s1, suspect, p);
      if Least(s1.rings[p]) > 0 {
        VoteKeepsStreams(c, ref, s1, suspect, p, r);
        if suspect != Replica(r) {
          GrownKept(c, s, e, s1, CheckSDC(c, s1, p), r);
        }
      }
    } else {
      assert Step(c, s, e) == s;
    }
  }

  lemma OutputStepDrained(c: Config, ref: seq<seq<byte>>, s: State, suspect: Suspect, e: Event)
    requires e.Output?
    requires Masked(c, ref, s, suspect) && Admissible(c, ref, s, suspect, e)
    requires suspect.Replica? ==> suspect.r < 3
    ensures Drained(c, Step(c, s, e))
  {
    var q, p, chunk := e.replica, e.pipe, e.chunk;
    if Fits(c, s, q, p, chunk) {
      ReceiveSingleFault(c, ref, s, suspect, q, p, chunk);
      Diagnosis(c, ref, Receive(c, s, q, p, chunk), suspect, p);
    }
    OutputDrained(c, s, q, p, chunk);
  }

  /** Where nothing was written, kept streams have grown by nothing. */
  lemma UnwrittenGrown(c: Config, s: State, e: Event, s': State, r: nat)
    requires WellFormed(c, s) && WellFormed(c, s') && r < c.mode.Count() && !e.Output? && SameStreams(c, s, r, s', r)
    ensures Grown(c, s, e, s', r)
  {
  }

  lemma TimeoutStep(c: Config, ref: seq<seq<byte>>, s: State, suspect: Suspect, e: Event, r: nat)
    requires e.Timeout? && r < 3
    requires Masked(c, ref, s, suspect) && Admissible(c, ref, s, suspect, e)
    ensures Cleared(c, s, suspect, e) != Replica(r) ==> Healthy(c, ref, Step(c, s, e), r)
    ensures suspect != Replica(r) && Restarted(c, s, e) != Replica(r) ==> Grown(c, s, e, Step(c, s, e), r)
  {
    var late := Late(c, s, e.priority);
    var donor := Donor(c, late);
    var s', q := RestartPrep(c, s, late, donor), if r == late then donor else r;
    assert Step(c, s, e) == s' && Restarted(c, s, e) == Replica(late);
    assert Healthy(c, ref, s, donor);
    if r == late || suspect != Replica(r) {
      RestartKeepsStreams(c, ref, s, late, donor, r);
      StreamsHealthy(c, ref, s, q, s', r);
      if r != late {
        UnwrittenGrown(c, s, e, s', r);
      }
    }
  }

  /** Events that touch no ring. */
  lemma QuietStep(c: Config, ref: seq<seq<byte>>, s: State, suspect: Suspect, e: Event, r: nat)
    requires (e.Input? || e.Arm? || e.Consume?) && r < 3
    requires Masked(c, ref, s, suspect) && Admissible(c, ref, s, suspect, e)
    ensures Restarted(c, s, e) == Nobody && Drained(c, Step(c, s, e))
    ensures suspect != Replica(r) ==> Healthy(c, ref, Step(c, s, e), r) && Grown(c, s, e, Step(c, s, e), r)
  {
    assert SameStreams(c, s, r, Step(c, s, e), r);
    if suspect != Replica(r) {
      StreamsHealthy(c, ref, s, r, Step(c, s, e), r);
    }
  }

  lemma StepDrained(c: Config, ref: seq<seq<byte>>, s: State, suspect: Suspect, e: Event)
    requires Masked(c, ref, s, suspect) && Admissible(c, ref, s, suspect, e)
    requires suspect.Replica? ==> suspect.r < 3
    ensures Drained(c, Step(c, s, e))
  {
    match e
    case Output(_, _, _) => OutputStepDrained(c, ref, s, suspect, e);
    case Timeout(priority) => RestartHandlerDrains(c, s, priority);
    case Exit(_) =>
    case _ => QuietStep(c, ref, s, suspect, e, 0);
  }

  lemma StepStreams(c: Config, ref: seq<seq<byte>>, s: State, suspect: Suspect, e: Event, r: nat)
    requires Masked(c, ref, s, suspect) && Admissible(c, ref, s, suspect, e) && r < 3
    requires suspect.Replica? ==> suspect.r < 3
    ensures Cleared(c, s, suspect, e) != Replica(r) ==> Healthy(c, ref, Step(c, s, e), r)
    ensures suspect != Replica(r) && Restarted(c, s, e) != Replica(r) ==> Grown(c, s, e, Step(c, s, e), r)
  {
    match e
    case Output(_, _, _) => OutputStep(c, ref, s, suspect, e, r);
    case Timeout(_) => TimeoutStep(c, ref, s, suspect, e, r);
    case Exit(_) =>
    case _ => QuietStep(c, ref, s, suspect, e, r);
  }

  /** One admissible step keeps the invariant; whoever it restarts is no longer suspect; and every
      healthy replica that it does not restart has its streams grown by exactly what it wrote. */
  lemma MaskedStep(c: Config, ref: seq<seq<byte>>, s: State, suspect: Suspect, e: Event)
    requires Masked(c, ref, s, suspect) && Admissible(c, ref, s, suspect, e)
    requires suspect.Replica? ==> suspect.r < 3
    ensures Masked(c, ref, Step(c, s, e), Cleared(c, s, suspect, e))
    ensures forall r :: 0 <= r < 3 && suspect != Replica(r) && Restarted(c, s, e) != Replica(r) ==>
      Grown(c, s, e, Step(c, s, e), r)
  {
    AlignedStep(c, s, e);
    StepDrained(c, ref, s, suspect, e);
    forall r | 0 <= r < 3
      ensures Cleared(c, s, suspect, e) != Replica(r) ==> Healthy(c, ref, Step(c, s, e), r)
      ensures suspect != Replica(r) && Restarted(c, s, e) != Replica(r) ==> Grown(c, s, e, Step(c, s, e), r)
    {
      StepStreams(c, ref, s, suspect, e, r);
    }
  }

  ghost function Cleared(c: Config, s: State, suspect: Suspect, e: Event): Suspect
    requires WellFormed(c, s) && Enabled(c, s, e) && c.mode == TMR
  {
    if Restarted(c, s, e) == suspect then Nobody else suspect
  }

  /** A run under the single-fault hypothesis: voter events, and faults that may strike any replica
      at any moment when all the others are healthy. */
  datatype Action = Voter(event: Event) | Fault(replica: nat)

  ghost predicate FaultRun(c: Config, ref: seq<seq<byte>>, s: State, suspect: Suspect, acts: seq<Action>, s': State)
    requires c.mode == TMR && WellFormed(c, s) && |ref| == |c.outward|
    decreases |acts|
  {
    if acts == [] then s' == s
    else match acts[0]
      case Voter(e) =>
        && Admissible(c, ref, s, suspect, e)
        && FaultRun(c, ref, Step(c, s, e), Cleared(c, s, suspect, e), acts[1..], s')
      case Fault(r) =>
        && r < 3 && SingleFault(c, ref, s, Replica(r))
        && FaultRun(c, ref, s, Replica(r), acts[1..], s')
  }

  lemma {:induction false} FaultRunMasked(c: Config, ref: seq<seq<byte>>, s: State, suspect: Suspect,
                                          acts: seq<Action>, s': State) returns (suspect': Suspect)
    requires Masked(c, ref, s, suspect) && (suspect.Replica? ==> suspect.r < 3)
    requires FaultRun(c, ref, s, suspect, acts, s')
    ensures Masked(c, ref, s', suspect')
    decreases |acts|
  {
    if acts == [] {
      suspect' := suspect;
    } else {
      match acts[0]
      case Voter(e) =>
        MaskedStep(c, ref, s, suspect, e);
        suspect' := FaultRunMasked(c, ref, Step(c, s, e), Cleared(c, s, suspect, e), acts[1..], s');
      case Fault(r) =>
        suspect' := FaultRunMasked(c, ref, s, Replica(r), acts[1..], s');
    }
  }

  /** Replica `r` is neither struck by a fault nor restarted in the run. */
  ghost predicate Spared(c: Config, s: State, acts: seq<Action>, r: nat)
    requires c.mode == TMR && WellFormed(c, s)
    decreases |acts|
  {
    acts == [] || match acts[0]
      case Voter(e) =>
        Enabled(c, s, e) && Restarted(c, s, e) != Replica(r) && Spared(c, Step(c, s, e), acts[1..], r)
      case Fault(q) => q != r && Spared(c, s, acts[1..], r)
  }

  /** Everything replica `r` wrote on `p` in a run, in order. */
  ghost function Written(acts: seq<Action>, r: nat, p: nat): seq<byte> {
    if acts == [] then []
    else (if acts[0].Voter? then Added(acts[0].event, r, p) else []) + Written(acts[1..], r, p)
  }

  lemma GrownAppend(c: Config, s: State, e: Event, s1: State, r: nat, p: nat, rest: seq<byte>)
    requires WellFormed(c, s) && WellFormed(c, s1) && r < c.mode.Count() && Grown(c, s, e, s1, r)
    requires p < |c.outward| && c.outward[p]
    ensures Stream(s1, r, p) + rest == Stream(s, r, p) + (Added(e, r, p) + rest)
  {
    assert Stream(s1, r, p) == Stream(s, r, p) + Added(e, r, p);
  }

  /** No byte of a spared replica is lost, repeated or reordered between its writes and the emitted
      stream followed by its ring, however often the others fail and are restarted. */
  lemma {:induction false} NothingLost(c: Config, ref: seq<seq<byte>>, s: State, suspect: Suspect,
                                       acts: seq<Action>, s': State, r: nat, p: nat)
    requires Masked(c, ref, s, suspect) && (suspect.Replica? ==> suspect.r < 3)
    requires FaultRun(c, ref, s, suspect, acts, s') && r < 3 && suspect != Replica(r) && Spared(c, s, acts, r)
    requires p < |c.outward| && c.outward[p]
    ensures WellFormed(c, s') && Stream(s', r, p) == Stream(s, r, p) + Written(acts, r, p)
    decreases |acts|
  {
    if acts != [] {
      match acts[0]
      case Voter(e) =>
        MaskedStep(c, ref, s, suspect, e);
        GrownAppend(c, s, e, Step(c, s, e), r, p, Written(acts[1..], r, p));
        NothingLost(c, ref, Step(c, s, e), Cleared(c, s, suspect, e), acts[1..], s', r, p);
      case Fault(q) =>
        NothingLost(c, ref, s, Replica(q), acts[1..], s', r, p);
        assert Written(acts, r, p) == Written(acts[1..], r, p);
    }
  }

  lemma InitialMasked(c: Config, ref: seq<seq<byte>>)
    requires c.Valid() && c.mode == TMR && |ref| == |c.outward|
    ensures Masked(c, ref, Initial(c), Nobody)
  {
    InitialReady(c);
    var s := Initial(c);
    assert forall p, r :: 0 <= p < |s.rings| && 0 <= r < 3 ==> Stream(s, r, p) == [];
  }

  /** Under the hypothesis, what was emitted is a prefix of the reference and the whole stream of the
      slowest replica. */
  lemma MaskedEmits(c: Config, ref: seq<seq<byte>>, s: State, suspect: Suspect, p: nat)
    requires Masked(c, ref, s, suspect) && p < |c.outward| && c.outward[p]
    ensures s.emitted[p] <= ref[p] && exists r :: 0 <= r < 3 && s.emitted[p] == Stream(s, r, p)
  {
    var r := if suspect == Replica(0) then 1 else 0;
    assert Healthy(c, ref, s, r);
    assert Stream(s, r, p) <= ref[p] && s.emitted[p] <= Stream(s, r, p);
    var q :| 0 <= q < |s.rings[p]| && Least(s.rings[p]) == |s.rings[p][q].bytes|;
    assert s.emitted[p] == Stream(s, q, p);
  }

  /** TMR masking: after any run in which faults strike one replica at a time, what was written to
      each external pipe is a prefix of that pipe's reference stream and is the whole stream of the
      slowest replica; all rings are aligned, and external input is admitted exactly when every
      ring is empty. */
  lemma Masking(c: Config, ref: seq<seq<byte>>, acts: seq<Action>, s': State)
    requires c.Valid() && c.mode == TMR && |ref| == |c.outward|
    requires FaultRun(c, ref, Initial(c), Nobody, acts, s')
    ensures WellFormed(c, s') && Aligned(s') && Drained(c, s')
    ensures forall p :: 0 <= p < |c.outward| && c.outward[p] ==>
      s'.emitted[p] <= ref[p] && exists r :: 0 <= r < 3 && s'.emitted[p] == Stream(s', r, p)
    ensures CheckSync(c, s') <==>
      forall p, r :: 0 <= p < |s'.rings| && 0 <= r < 3 ==> s'.rings[p][r].bytes == []
  {
    InitialMasked(c, ref);
    var suspect := FaultRunMasked(c, ref, Initial(c), Nobody, acts, s');
    InputGate(c, s');
    forall p | 0 <= p < |c.outward| && c.outward[p]
      ensures s'.emitted[p] <= ref[p] && exists r :: 0 <= r < 3 && s'.emitted[p] == Stream(s', r, p)
    {
      MaskedEmits(c, ref, s', suspect, p);
    }
  }

  /** With no fault and no restart the emitted bytes are exactly the shortest of the three replicas'
      outputs, so nothing that all three wrote is held back. */
  lemma FaultFree(c: Config, ref: seq<seq<byte>>, acts: seq<Action>, s': State, p: nat)
    requires c.Valid() && c.mode == TMR && |ref| == |c.outward| && p < |c.outward| && c.outward[p]
    requires FaultRun(c, ref, Initial(c), Nobody, acts, s')
    requires forall r :: 0 <= r < 3 ==> Spared(c, Initial(c), acts, r)
    ensures WellFormed(c, s') && forall r :: 0 <= r < 3 ==> s'.emitted[p] <= Written(acts, r, p)
    ensures exists r :: 0 <= r < 3 && s'.emitted[p] == Written(acts, r, p)
  {
    Masking(c, ref, acts, s');
    InitialMasked(c, ref);
    forall r | 0 <= r < 3 ensures Stream(s', r, p) == Written(acts, r, p) {
      NothingLost(c, ref, Initial(c), Nobody, acts, s', r, p);
      assert Stream(Initial(c), r, p) == [];
      assert [] + Written(acts, r, p) == Written(acts, r, p);
    }
    assert forall r :: 0 <= r < 3 ==> s'.emitted[p] <= Stream(s', r, p);
  }

  // --------------------------------------------------------------------------- runs of the voter

  /** Every event of the run is admissible where it happens. */
  ghost predicate AllAdmissible(c: Config, ref: seq<seq<byte>>, s: State, suspect: Suspect, es: seq<Event>)
    requires c.mode == TMR && WellFormed(c, s) && |ref| == |c.outward|
    decreases |es|
  {
    es == [] ||
    (Admissible(c, ref, s, suspect, es[0])
     && AllAdmissible(c, ref, Step(c, s, es[0]), Cleared(c, s, suspect, es[0]), es[1..]))
  }

  /** A run of admissible events keeps the hypothesis, and is one of the runs that mask faults. */
  lemma {:induction false} RunMasked(c: Config, ref: seq<seq<byte>>, s: State, suspect: Suspect, es: seq<Event>, s': State)
    returns (suspect': Suspect)
    requires Masked(c, ref, s, suspect) && (suspect.Replica? ==> suspect.r < 3)
    requires Run(c, s, es, s') && AllAdmissible(c, ref, s, suspect, es)
    ensures Masked(c, ref, s', suspect') && (suspect'.Replica? ==> suspect'.r < 3)
    ensures FaultRun(c, ref, s, suspect, seq(|es|, i requires 0 <= i < |es| => Action.Voter(es[i])), s')
    decreases |es|
  {
    var acts := seq(|es|, i requires 0 <= i < |es| => Action.Voter(es[i]));
    if es == [] {
      suspect' := suspect;
    } else {
      var rest := es[1..];
      MaskedStep(c, ref, s, suspect, es[0]);
      suspect' := RunMasked(c, ref, Step(c, s, es[0]), Cleared(c, s, suspect, es[0]), rest, s');
      assert acts[1..] == seq(|rest|, i requires 0 <= i < |rest| => Action.Voter(rest[i]));
    }
  }

  /** A run, taken as a whole. */
  ghost predicate Leads(c: Config, s: State, es: seq<Event>, s': State) {
    forall t {:trigger Look(t)} :: Look(t) ==> WellFormed(c, s) && Run(c, s, es, s')
  }

  lemma LeadsOn(c: Config, s: State, es: seq<Event>, s1: State, more: seq<Event>, s': State) returns (s2: State)
    requires Leads(c, s, es, s1) && Leads(c, s1, more, s') && more != []
    ensures Leads(c, s, es + [more[0]], s2) && Leads(c, s2, more[1..], s')
  {
    assert Look(0);
    RunExtended(c, s, es, s1, more[0]);
    s2 := Step(c, s1, more[0]);
  }

  /** Two runs, one after the other, are a run. */
  lemma {:induction false} RunJoined(c: Config, s: State, es: seq<Event>, s1: State, more: seq<Event>, s': State)
    requires Leads(c, s, es, s1) && Leads(c, s1, more, s')
    ensures Leads(c, s, es + more, s')
    decreases |more|
  {
    if more == [] {
      LeadsNowhere(c, s1, more, s');
      assert es + more == es;
    } else {
      var s2 := LeadsOn(c, s, es, s1, more, s');
      RunJoined(c, s, es + [more[0]], s2, more[1..], s');
      assert es + [more[0]] + more[1..] == es + more;
    }
  }

  lemma LeadsNowhere(c: Config, s: State, es: seq<Event>, s': State)
    requires Leads(c, s, es, s') && es == []
    ensures s' == s
  {
    assert Look(0);
  }
}

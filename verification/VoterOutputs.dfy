/** What a single or a doubled replica gets out: exact books of every run, under no fault hypothesis. */
module VoterOutputs {
  import opened VoteBuff
  import opened VoterModel
  import opened VoterRuns
  import opened VoterTimeout
  import opened Wrappers

  /** What the voter has to account for on one pipe: the bytes of each replica, in order. */
  type Books = seq<seq<byte>>

  /** The length of the shorter book. */
  ghost function Low(w: Books): (m: nat)
    requires w != []
    ensures forall r :: 0 <= r < |w| ==> m <= |w[r]|
    ensures exists r :: 0 <= r < |w| && m == |w[r]|
  {
    if |w| == 1 then |w[0]|
    else
      var rest := Low(w[1..]);
      assert forall r :: 1 <= r < |w| ==> w[r] == w[1..][r - 1];
      if |w[0]| < rest then |w[0]| else rest
  }

  /** The first `m` bytes of replica 0's book have been emitted, and the rest of each book is queued. */
  ghost predicate Booked(c: Config, s: State, p: nat, w: Books, m: nat)
    requires WellFormed(c, s) && p < |c.outward|
  {
    && |w| == c.mode.Count() && (forall r :: 0 <= r < |w| ==> m <= |w[r]|)
    && s.emitted[p] == w[0][..m]
    && (forall r :: 0 <= r < |w| ==> s.rings[p][r].bytes == w[r][m..])
  }

  /** The books are settled: as much has been emitted as every replica has written. */
  ghost predicate Settled(c: Config, s: State, p: nat, w: Books)
    requires WellFormed(c, s) && p < |c.outward|
  {
    |w| == c.mode.Count() && Booked(c, s, p, w, Low(w))
  }

  lemma Shift(a: seq<byte>, m: nat, n: nat)
    requires m + n <= |a|
    ensures a[..m] + a[m..][..n] == a[..m + n] && a[m..][n..] == a[m + n..] && a[..m] + a[m..] == a
  {
  }

  lemma Grow(a: seq<byte>, b: seq<byte>, m: nat)
    requires m <= |a|
    ensures (a + b)[m..] == a[m..] + b && (a + b)[..m] == a[..m]
  {
  }

  // -------------------------------------------------------------------------------------- steps

  /** The chunk that a step takes from replica `r` on `p`: one that is not empty and does not fill the ring. */
  ghost function Taken(c: Config, s: State, e: Event, r: nat, p: nat): seq<byte>
    requires WellFormed(c, s) && InRange(c, r, p)
  {
    if e.Output? && e.replica == r && e.pipe == p && 0 < |e.chunk| < c.cap - |s.rings[p][r].bytes| then e.chunk else []
  }

  /** The books after a step. A chunk goes to the book of its replica. A timeout of two replicas leaves
      both with the book of the one that is not first behind on the pipe that stops the watchdog, but
      what was emitted stays. */
  ghost function Entered(c: Config, s: State, e: Event, p: nat, w: Books): (w': Books)
    requires WellFormed(c, s) && Enabled(c, s, e) && p < |c.outward| && |w| == c.mode.Count() && c.mode != TMR
    ensures |w'| == |w|
  {
    if e.Timeout? && c.mode == DMR then
      var d := if FirstBehind(s.rings[c.timerStop], e.priority, 2, 0) then 1 else 0;
      var kept := w[0][..Low(w)] + w[d][Low(w)..];
      [kept, kept]
    else seq(|w|, r requires 0 <= r < |w| => w[r] + Taken(c, s, e, r, p))
  }

  /** A vote of one or two replicas settles the books. */
  lemma VoteSettles(c: Config, s: State, p: nat, w: Books, m: nat)
    requires WellFormed(c, s) && p < |c.outward| && c.mode != TMR && Booked(c, s, p, w, m)
    ensures Settled(c, CheckSDC(c, s, p), p, w)
  {
    var col, n, s' := s.rings[p], Least(s.rings[p]), CheckSDC(c, s, p);
    LeastIsLow(col, w, m);
    VoteSends(c, s, p);
    SentBooked(c, s, s', p, w, m, n);
  }

  lemma SentBooked(c: Config, s: State, s': State, p: nat, w: Books, m: nat, n: nat)
    requires WellFormed(c, s) && WellFormed(c, s') && p < |c.outward| && Booked(c, s, p, w, m)
    requires forall r :: 0 <= r < |w| ==> n <= |s.rings[p][r].bytes| && s'.rings[p][r].bytes == s.rings[p][r].bytes[n..]
    requires w != [] && s'.emitted[p] == s.emitted[p] + s.rings[p][0].bytes[..n]
    ensures Booked(c, s', p, w, m + n)
  {
    Shift(w[0], m, n);
    forall r | 0 <= r < |w| ensures m + n <= |w[r]| && s'.rings[p][r].bytes == w[r][m + n..] {
      Shift(w[r], m, n);
    }
  }

  /** Such a vote sends what replica 0 shares with the others, wherever it is. */
  lemma VoteSends(c: Config, s: State, p: nat)
    requires WellFormed(c, s) && p < |c.outward| && c.mode != TMR
    ensures var col, s' := s.rings[p], CheckSDC(c, s, p);
      && s'.rings == s.rings[p := AdvanceAll(c.cap, col, Least(col))]
      && s'.emitted == s.emitted[p := s.emitted[p] + col[0].bytes[..Least(col)]]
  {
    SendAlways(c, s, p, 0);
  }

  lemma LeastIsLow(col: seq<Queue>, w: Books, m: nat)
    requires |col| == |w| != 0
    requires forall r :: 0 <= r < |w| ==> m <= |w[r]| && col[r].bytes == w[r][m..]
    ensures m + Least(col) == Low(w)
  {
    var a :| 0 <= a < |col| && Least(col) == |col[a].bytes|;
    var b :| 0 <= b < |w| && Low(w) == |w[b]|;
  }

  /** Nothing taken, nothing entered. */
  lemma NothingEntered(c: Config, s: State, e: Event, p: nat, w: Books)
    requires WellFormed(c, s) && Enabled(c, s, e) && p < |c.outward| && |w| == c.mode.Count() && c.mode != TMR
    requires !(e.Timeout? && c.mode == DMR) && forall r :: 0 <= r < |w| ==> Taken(c, s, e, r, p) == []
    ensures Entered(c, s, e, p, w) == w
  {
    var w' := Entered(c, s, e, p, w);
    forall r | 0 <= r < |w| ensures w'[r] == w[r] {
      assert w[r] + [] == w[r];
    }
  }

  lemma ChunkEntered(c: Config, s: State, e: Event, w: Books)
    requires WellFormed(c, s) && Enabled(c, s, e) && e.Output? && c.mode != TMR && Settled(c, s, e.pipe, w)
    requires Fits(c, s, e.replica, e.pipe, e.chunk)
    ensures Booked(c, Receive(c, s, e.replica, e.pipe, e.chunk), e.pipe, Entered(c, s, e, e.pipe, w), Low(w))
  {
    var p, w', m := e.pipe, Entered(c, s, e, e.pipe, w), Low(w);
    var s1 := Receive(c, s, e.replica, p, e.chunk);
    forall r | 0 <= r < |w| ensures m <= |w'[r]| && s1.rings[p][r].bytes == w'[r][m..] && w'[r][..m] == w[r][..m] {
      var more := if r == e.replica then e.chunk else [];
      assert w'[r] == w[r] + more;
      Grow(w[r], more, m);
      assert s1.rings[p][r].bytes == s.rings[p][r].bytes + more;
    }
  }

  lemma OutputSettles(c: Config, s: State, e: Event, p: nat, w: Books)
    requires WellFormed(c, s) && Enabled(c, s, e) && p < |c.outward| && c.mode != TMR && e.Output? && Settled(c, s, p, w)
    ensures Settled(c, Step(c, s, e), p, Entered(c, s, e, p, w))
  {
    if Fits(c, s, e.replica, e.pipe, e.chunk) {
      var s1 := Receive(c, s, e.replica, e.pipe, e.chunk);
      if e.pipe == p {
        ChunkEntered(c, s, e, w);
        VoteSettles(c, s1, p, Entered(c, s, e, p, w), Low(w));
      } else {
        NothingEntered(c, s, e, p, w);
        OtherPipe(c, s1, e.pipe, p);
      }
    } else {
      NothingEntered(c, s, e, p, w);
    }
  }

  lemma OtherPipe(c: Config, s: State, p: nat, q: nat)
    requires WellFormed(c, s) && p < |c.outward| && q < |c.outward| && q != p && c.mode != TMR
    ensures CheckSDC(c, s, p).rings[q] == s.rings[q] && CheckSDC(c, s, p).emitted[q] == s.emitted[q]
  {
  }

  /** A restart of one of two replicas emits all that the other has queued. */
  lemma TimeoutSettles(c: Config, s: State, e: Event, p: nat, w: Books)
    requires WellFormed(c, s) && Enabled(c, s, e) && p < |c.outward| && c.outward[p] && c.mode == DMR
    requires e.Timeout? && Settled(c, s, p, w)
    ensures Settled(c, Step(c, s, e), p, Entered(c, s, e, p, w))
  {
    var col := s.rings[c.timerStop];
    var k := VoterModel.BehindRep(col, e.priority, 2);
    if FirstBehind(col, e.priority, 2, 0) {
      FirstBehindUnique(col, e.priority, 2, 0, k);
    }
    TimeoutChoice(c, s, e.priority, k);
    var d := 1 - k;
    var n := RestartEmitsOnce(c, s, k, d, p);
    assert n == |s.rings[p][d].bytes|;
    var kept := w[0][..Low(w)] + w[d][Low(w)..];
    assert s.rings[p][d].bytes[..n] == s.rings[p][d].bytes;
    BothKept(c, Step(c, s, e), p, kept);
  }

  lemma BothKept(c: Config, s: State, p: nat, kept: seq<byte>)
    requires WellFormed(c, s) && p < |c.outward| && c.mode == DMR && s.emitted[p] == kept
    requires forall r :: 0 <= r < 2 ==> s.rings[p][r].bytes == []
    ensures Settled(c, s, p, [kept, kept])
  {
    assert Low([kept, kept]) == |kept|;
  }

  lemma SingleSettles(c: Config, s: State, e: Event, p: nat, w: Books)
    requires WellFormed(c, s) && Enabled(c, s, e) && p < |c.outward| && c.mode == SMR
    requires (e.Timeout? || e.Exit?) && Settled(c, s, p, w)
    ensures Settled(c, Step(c, s, e), p, Entered(c, s, e, p, w))
  {
    NothingEntered(c, s, e, p, w);
    assert s.rings[p][0].bytes == [] && Step(c, s, e).rings[p] == [EMPTY];
  }

  /** Every step keeps the books settled. */
  lemma StepSettles(c: Config, s: State, e: Event, p: nat, w: Books)
    requires WellFormed(c, s) && Enabled(c, s, e) && p < |c.outward| && c.outward[p] && c.mode != TMR && Settled(c, s, p, w)
    ensures Settled(c, Step(c, s, e), p, Entered(c, s, e, p, w))
  {
    match e
    case Output(_, _, _) => OutputSettles(c, s, e, p, w);
    case Timeout(_) =>
      if c.mode == DMR {
        TimeoutSettles(c, s, e, p, w);
      } else {
        SingleSettles(c, s, e, p, w);
      }
    case Exit(_) => SingleSettles(c, s, e, p, w);
    case _ => NothingEntered(c, s, e, p, w);
  }

  // --------------------------------------------------------------------------------------- runs

  /** A run and the books it leaves on `p`. */
  ghost predicate BookRun(c: Config, s: State, w: Books, es: seq<Event>, s': State, w': Books, p: nat)
    requires WellFormed(c, s) && p < |c.outward| && |w| == c.mode.Count() && c.mode != TMR
    decreases |es|
  {
    if es == [] then s' == s && w' == w
    else Enabled(c, s, es[0]) && BookRun(c, Step(c, s, es[0]), Entered(c, s, es[0], p, w), es[1..], s', w', p)
  }

  /** From here the events lead to `s'` and `w'`, and the books are settled. */
  ghost predicate Keeping(c: Config, s: State, w: Books, es: seq<Event>, s': State, w': Books, p: nat) {
    forall t {:trigger Look(t)} :: Look(t) ==>
      && WellFormed(c, s) && p < |c.outward| && c.outward[p] && c.mode != TMR
      && Settled(c, s, p, w) && BookRun(c, s, w, es, s', w', p)
  }

  lemma KeepingOn(c: Config, s: State, w: Books, es: seq<Event>, s': State, w': Books, p: nat) returns (s1: State, w1: Books)
    requires Keeping(c, s, w, es, s', w', p) && es != []
    ensures Keeping(c, s1, w1, es[1..], s', w', p)
  {
    assert Look(0);
    StepSettles(c, s, es[0], p, w);
    s1, w1 := Step(c, s, es[0]), Entered(c, s, es[0], p, w);
  }

  lemma KeepingDone(c: Config, s: State, w: Books, es: seq<Event>, s': State, w': Books, p: nat)
    requires Keeping(c, s, w, es, s', w', p) && es == []
    ensures WellFormed(c, s') && p < |c.outward| && Settled(c, s', p, w')
  {
    assert Look(0);
  }

  lemma {:induction false} RunSettles(c: Config, s: State, w: Books, es: seq<Event>, s': State, w': Books, p: nat)
    requires Keeping(c, s, w, es, s', w', p)
    ensures WellFormed(c, s') && p < |c.outward| && Settled(c, s', p, w')
    decreases |es|
  {
    if es == [] {
      KeepingDone(c, s, w, es, s', w', p);
    } else {
      var s1, w1 := KeepingOn(c, s, w, es, s', w', p);
      RunSettles(c, s1, w1, es[1..], s', w', p);
    }
  }

  ghost function NoBooks(c: Config): Books {
    seq(c.mode.Count(), _ => [])
  }

  /** After any run of one or two replicas, whatever they write and whoever is restarted, what was
      emitted is the common length of the books, taken from replica 0's, and the rest of each is queued. */
  lemma BooksBalance(c: Config, es: seq<Event>, s: State, w: Books, p: nat)
    requires c.Valid() && c.mode != TMR && p < |c.outward| && c.outward[p]
    requires BookRun(c, Initial(c), NoBooks(c), es, s, w, p)
    ensures WellFormed(c, s) && |w| == c.mode.Count()
    ensures s.emitted[p] == w[0][..Low(w)] && s.emitted[p] + s.rings[p][0].bytes == w[0]
    ensures forall r :: 0 <= r < |w| ==> s.rings[p][r].bytes == w[r][Low(w)..]
  {
    StartKeeping(c, es, s, w, p);
    RunSettles(c, Initial(c), NoBooks(c), es, s, w, p);
    Shift(w[0], Low(w), 0);
  }

  lemma InitialSettled(c: Config, p: nat)
    requires c.Valid() && p < |c.outward|
    ensures Settled(c, Initial(c), p, NoBooks(c))
  {
    assert Low(NoBooks(c)) == 0;
  }

  lemma StartKeeping(c: Config, es: seq<Event>, s: State, w: Books, p: nat)
    requires c.Valid() && c.mode != TMR && p < |c.outward| && c.outward[p]
    requires BookRun(c, Initial(c), NoBooks(c), es, s, w, p)
    ensures Keeping(c, Initial(c), NoBooks(c), es, s, w, p)
  {
    InitialSettled(c, p);
  }

  // ------------------------------------------------------------------------ what replicas wrote

  /** All that was taken from replica `r` on `p` in a run, in order. */
  ghost function Wrote(c: Config, s: State, es: seq<Event>, r: nat, p: nat): seq<byte>
    requires WellFormed(c, s) && InRange(c, r, p)
    decreases |es|
  {
    if es == [] || !Enabled(c, s, es[0]) then []
    else Taken(c, s, es[0], r, p) + Wrote(c, Step(c, s, es[0]), es[1..], r, p)
  }

  /** Nobody is replaced by a clone: in DMR there is no timeout. */
  ghost predicate Uncloned(c: Config, es: seq<Event>) {
    c.mode == SMR || (c.mode == DMR && forall i :: 0 <= i < |es| ==> !es[i].Timeout?)
  }

  /** The run keeps books, and each is what its replica wrote. */
  lemma {:induction false} BooksOf(c: Config, s: State, w: Books, es: seq<Event>, s': State, p: nat) returns (w': Books)
    requires WellFormed(c, s) && p < |c.outward| && |w| == c.mode.Count() && Uncloned(c, es) && Run(c, s, es, s')
    ensures |w'| == |w| && BookRun(c, s, w, es, s', w', p)
    ensures forall r :: 0 <= r < |w| ==> w'[r] == w[r] + Wrote(c, s, es, r, p)
    decreases |es|
  {
    if es == [] {
      w' := w;
    } else {
      var s1, w1 := Step(c, s, es[0]), Entered(c, s, es[0], p, w);
      w' := BooksOf(c, s1, w1, es[1..], s', p);
      forall r | 0 <= r < |w| ensures w'[r] == w[r] + Wrote(c, s, es, r, p) {
        Joined(w[r], Taken(c, s, es[0], r, p), Wrote(c, s1, es[1..], r, p));
      }
    }
  }

  lemma Joined(a: seq<byte>, b: seq<byte>, d: seq<byte>)
    ensures a + b + d == a + (b + d)
  {
  }

  lemma WrittenBooks(c: Config, es: seq<Event>, s: State, p: nat) returns (w: Books)
    requires c.Valid() && Uncloned(c, es) && p < |c.outward| && c.outward[p] && Run(c, Initial(c), es, s)
    ensures WellFormed(c, s) && |w| == c.mode.Count()
    ensures forall r :: 0 <= r < |w| ==> w[r] == Wrote(c, Initial(c), es, r, p)
    ensures s.emitted[p] == w[0][..Low(w)] && s.emitted[p] + s.rings[p][0].bytes == w[0]
    ensures forall r :: 0 <= r < |w| ==> s.rings[p][r].bytes == w[r][Low(w)..]
  {
    w := BooksFromStart(c, es, s, p);
    BooksBalance(c, es, s, w, p);
  }

  lemma BooksFromStart(c: Config, es: seq<Event>, s: State, p: nat) returns (w: Books)
    requires c.Valid() && Uncloned(c, es) && p < |c.outward| && Run(c, Initial(c), es, s)
    ensures |w| == c.mode.Count() && BookRun(c, Initial(c), NoBooks(c), es, s, w, p)
    ensures forall r :: 0 <= r < |w| ==> w[r] == Wrote(c, Initial(c), es, r, p)
  {
    w := BooksOf(c, Initial(c), NoBooks(c), es, s, p);
    forall r | 0 <= r < |w| ensures w[r] == Wrote(c, Initial(c), es, r, p) {
      assert [] + Wrote(c, Initial(c), es, r, p) == Wrote(c, Initial(c), es, r, p);
    }
  }

  /** A single replica: in every run, restarts included, all that it wrote in chunks that fitted has been
      emitted, in order, and nothing else. */
  lemma SingleOutput(c: Config, es: seq<Event>, s: State, p: nat)
    requires c.Valid() && c.mode == SMR && p < |c.outward| && c.outward[p] && Run(c, Initial(c), es, s)
    ensures WellFormed(c, s) && s.emitted[p] == Wrote(c, Initial(c), es, 0, p)
  {
    var w := WrittenBooks(c, es, s, p);
  }

  /** Two replicas, whatever they write: replica 0's bytes are emitted, as far as both have written, and
      the rest of them is queued. */
  lemma DoubleOutput(c: Config, es: seq<Event>, s: State, p: nat)
    requires c.Valid() && c.mode == DMR && Uncloned(c, es) && p < |c.outward| && c.outward[p] && Run(c, Initial(c), es, s)
    ensures WellFormed(c, s) && s.emitted[p] + s.rings[p][0].bytes == Wrote(c, Initial(c), es, 0, p)
    ensures var a, b := |Wrote(c, Initial(c), es, 0, p)|, |Wrote(c, Initial(c), es, 1, p)|;
      |s.emitted[p]| == if a < b then a else b
  {
    var w := WrittenBooks(c, es, s, p);
    var r :| 0 <= r < |w| && Low(w) == |w[r]|;
  }
}

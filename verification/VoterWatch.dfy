/** When the voter's watchdog runs. */
module VoterWatch {
  import opened VoteBuff
  import opened VoterModel
  import opened VoterRuns
  import opened VoterInputs
  import opened Wrappers

  /** An event that starts the watchdog: input on the pipe that starts it, or a voter that lags. */
  ghost predicate Arms(c: Config, e: Event) {
    e.Arm? || (e.Input? && e.pipe == c.timerStart && e.chunk != [])
  }

  /** A step that stops it: something was emitted on the pipe that stops it, a replica was replaced by a
      clone, or the single replica had exited. */
  ghost predicate Stops(c: Config, s: State, e: Event)
    requires WellFormed(c, s) && Enabled(c, s, e)
  {
    || |Step(c, s, e).emitted[c.timerStop]| > |s.emitted[c.timerStop]|
    || Clones(c, s, e).Some?
    || e.Exit?
  }

  lemma WatchOutput(c: Config, s: State, e: Event)
    requires WellFormed(c, s) && Enabled(c, s, e) && e.Output?
    ensures Step(c, s, e).timer <==> s.timer && !Stops(c, s, e)
  {
    var r, p, chunk := e.replica, e.pipe, e.chunk;
    if Fits(c, s, r, p, chunk) {
      var s1 := Receive(c, s, r, p, chunk);
      var col, n := s1.rings[p], Least(s1.rings[p]);
      if n > 0 && Clones(c, s, e).None? {
        if c.mode == TMR {
          var v := JudgeFrom(col, n, 0);
          if v.Agree? {
            WatchSend(c, s1, p, v.sender);
          }
        } else {
          WatchSend(c, s1, p, 0);
        }
      }
    }
  }

  lemma WatchSend(c: Config, s: State, p: nat, sender: nat)
    requires WellFormed(c, s) && InRange(c, sender, p) && Least(s.rings[p]) > 0
    ensures var s' := SendPipe(c, s, p, sender);
      && (s'.timer <==> s.timer && p != c.timerStop)
      && (|s'.emitted[c.timerStop]| > |s.emitted[c.timerStop]| <==> p == c.timerStop)
  {
  }

  lemma WatchTimeout(c: Config, s: State, e: Event)
    requires WellFormed(c, s) && Enabled(c, s, e) && e.Timeout?
    ensures Step(c, s, e).timer <==> s.timer && !Stops(c, s, e)
  {
  }

  /** Every step: the watchdog runs after it exactly when the step starts it, or it ran before and the
      step does not stop it. */
  lemma WatchStep(c: Config, s: State, e: Event)
    requires WellFormed(c, s) && Enabled(c, s, e)
    ensures Step(c, s, e).timer <==> Arms(c, e) || (s.timer && !Stops(c, s, e))
  {
    match e
    case Output(_, _, _) => WatchOutput(c, s, e);
    case Timeout(_) => WatchTimeout(c, s, e);
    case _ =>
  }

  // ------------------------------------------------------------------------------- whole runs

  ghost predicate Link(c: Config, ss: seq<State>, es: seq<Event>, i: nat)
    requires |ss| == |es| + 1 && i < |es|
  {
    WellFormed(c, ss[i]) && Enabled(c, ss[i], es[i]) && ss[i + 1] == Step(c, ss[i], es[i])
  }

  /** `ss` are the states that the events lead through. */
  ghost predicate Through(c: Config, ss: seq<State>, es: seq<Event>) {
    |ss| == |es| + 1 && WellFormed(c, ss[0]) && forall i :: 0 <= i < |es| ==> Link(c, ss, es, i)
  }

  lemma {:induction false} RunThrough(c: Config, s: State, es: seq<Event>, s': State) returns (ss: seq<State>)
    requires WellFormed(c, s) && Run(c, s, es, s')
    ensures Through(c, ss, es) && ss[0] == s && ss[|es|] == s'
    decreases |es|
  {
    if es == [] {
      ss := [s];
    } else {
      var s1 := Step(c, s, es[0]);
      var rest := RunThrough(c, s1, es[1..], s');
      ss := [s] + rest;
      forall i | 0 <= i < |es| ensures Link(c, ss, es, i) {
        if i > 0 {
          assert Link(c, rest, es[1..], i - 1);
        }
      }
    }
  }

  /** The step `i` stops the watchdog. */
  ghost predicate StopsAt(c: Config, ss: seq<State>, es: seq<Event>, i: nat)
    requires |ss| == |es| + 1 && i < |es|
  {
    Link(c, ss, es, i) && Stops(c, ss[i], es[i])
  }

  /** One of the first `n` is a start and none of them after it is a stop. */
  ghost predicate Lit(starts: seq<bool>, stops: seq<bool>, n: nat)
    requires n <= |starts| == |stops|
  {
    exists i :: 0 <= i < n && starts[i] && forall j :: i < j < n ==> !stops[j]
  }

  lemma LitNext(starts: seq<bool>, stops: seq<bool>, n: nat)
    requires n < |starts| == |stops|
    ensures Lit(starts, stops, n + 1) <==> starts[n] || (Lit(starts, stops, n) && !stops[n])
  {
    if Lit(starts, stops, n) && !stops[n] {
      var i :| 0 <= i < n && starts[i] && forall j :: i < j < n ==> !stops[j];
      assert forall j :: i < j < n + 1 ==> !stops[j];
    }
  }

  lemma {:induction false} LitFrom(on: seq<bool>, starts: seq<bool>, stops: seq<bool>, n: nat)
    requires n <= |starts| == |stops| && |on| == |starts| + 1 && !on[0]
    requires forall i :: 0 <= i < |starts| ==> (on[i + 1] <==> starts[i] || (on[i] && !stops[i]))
    ensures on[n] <==> Lit(starts, stops, n)
  {
    if n > 0 {
      LitFrom(on, starts, stops, n - 1);
      LitNext(starts, stops, n - 1);
    }
  }

  lemma WatchNext(c: Config, ss: seq<State>, es: seq<Event>, i: nat)
    requires Through(c, ss, es) && i < |es|
    ensures ss[i + 1].timer <==> Arms(c, es[i]) || (ss[i].timer && !StopsAt(c, ss, es, i))
  {
    assert Link(c, ss, es, i);
    WatchStep(c, ss[i], es[i]);
  }

  /** After any run from start-up the watchdog runs exactly when some event started it and no later step
      stopped it. */
  lemma WatchRun(c: Config, es: seq<Event>, s: State) returns (ss: seq<State>)
    requires c.Valid() && Run(c, Initial(c), es, s)
    ensures Through(c, ss, es) && ss[0] == Initial(c) && ss[|es|] == s
    ensures s.timer <==>
      exists i :: 0 <= i < |es| && Arms(c, es[i]) && forall j :: i < j < |es| ==> !StopsAt(c, ss, es, j)
  {
    ss := RunThrough(c, Initial(c), es, s);
    var starts := seq(|es|, i requires 0 <= i < |es| => Arms(c, es[i]));
    var stops := seq(|es|, i requires 0 <= i < |es| && |ss| == |es| + 1 => StopsAt(c, ss, es, i));
    var on := seq(|ss|, i requires 0 <= i < |ss| => ss[i].timer);
    forall i | 0 <= i < |es| ensures on[i + 1] <==> starts[i] || (on[i] && !stops[i]) {
      WatchNext(c, ss, es, i);
    }
    LitFrom(on, starts, stops, |es|);
    LitIs(c, ss, es, starts, stops);
  }

  lemma LitIs(c: Config, ss: seq<State>, es: seq<Event>, starts: seq<bool>, stops: seq<bool>)
    requires |ss| == |es| + 1 && |es| == |starts| == |stops|
    requires forall i :: 0 <= i < |es| ==> starts[i] == Arms(c, es[i]) && stops[i] == StopsAt(c, ss, es, i)
    ensures Lit(starts, stops, |es|) <==>
      exists i :: 0 <= i < |es| && Arms(c, es[i]) && forall j :: i < j < |es| ==> !StopsAt(c, ss, es, j)
  {
    if Lit(starts, stops, |es|) {
      var i :| 0 <= i < |es| && starts[i] && forall j :: i < j < |es| ==> !stops[j];
      assert Arms(c, es[i]) && forall j :: i < j < |es| ==> !StopsAt(c, ss, es, j);
    }
    if i :| 0 <= i < |es| && Arms(c, es[i]) && forall j :: i < j < |es| ==> !StopsAt(c, ss, es, j) {
      assert starts[i] && forall j :: i < j < |es| ==> !stops[j];
    }
  }
}

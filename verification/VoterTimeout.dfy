/** Whom a timeout restarts, and from whom. */
module VoterTimeout {
  import opened VoteBuff
  import opened VoterModel
  import opened VoterRuns

  /** There is one first replica behind. */
  lemma FirstBehindUnique(col: seq<Queue>, priority: seq<int>, n: nat, k: nat, m: nat)
    requires |col| == |priority| && n <= |col| && FirstBehind(col, priority, n, k) && FirstBehind(col, priority, n, m)
    ensures k == m
  {
    var a, b := col[k], col[m];
  }

  /** In DMR and TMR the replica restarted is the one first behind on the pipe that stops the watchdog,
      and it is cloned from the one before it, going round. */
  lemma TimeoutChoice(c: Config, s: State, priority: seq<int>, k: nat)
    requires WellFormed(c, s) && |priority| == c.mode.Count() && c.mode != SMR
    requires FirstBehind(s.rings[c.timerStop], priority, c.mode.Count(), k)
    ensures k < c.mode.Count()
    ensures RestartHandler(c, s, priority) == RestartPrep(c, s, k, if k == 0 then c.mode.Count() - 1 else k - 1)
  {
    FirstBehindUnique(s.rings[c.timerStop], priority, c.mode.Count(), k, Late(c, s, priority));
    DonorIs(c, k);
  }

  lemma DonorIs(c: Config, late: nat)
    requires late < c.mode.Count()
    ensures Donor(c, late) == if late == 0 then c.mode.Count() - 1 else late - 1
  {
  }

  /** In TMR a suspect that is behind both others on that pipe is the one that a timeout restarts,
      whatever the priorities; nobody else is, and all three are healthy afterwards. */
  lemma TimeoutHeals(c: Config, ref: seq<seq<byte>>, s: State, f: nat, priority: seq<int>)
    requires Masked(c, ref, s, Replica(f)) && f < 3 && s.timer && |priority| == 3
    requires forall r :: 0 <= r < 3 && r != f ==> |s.rings[c.timerStop][f].bytes| < |s.rings[c.timerStop][r].bytes|
    ensures Restarted(c, s, Timeout(priority)) == Replica(f)
    ensures Admissible(c, ref, s, Replica(f), Timeout(priority))
    ensures Masked(c, ref, Step(c, s, Timeout(priority)), Nobody)
    ensures forall r :: 0 <= r < 3 ==> Healthy(c, ref, Step(c, s, Timeout(priority)), r)
  {
    var col := s.rings[c.timerStop];
    assert FirstBehind(col, priority, 3, f);
    FirstBehindUnique(col, priority, 3, f, Late(c, s, priority));
    MaskedStep(c, ref, s, Replica(f), Timeout(priority));
  }
}

/** The voter's main loop under the single-fault hypothesis. */
module VoterMasking {
  import opened VoteBuff
  import opened VoterModel
  import opened VoterRuns
  import opened Voter

  /** A pass under the hypothesis keeps it, so that the next pass can follow: what the voter has written
      to each external pipe is a prefix of its reference stream. */
  method DoMaskedUpdate(v: Voter, exited: bool, expired: bool, lowPriority: bool, responsive: seq<bool>,
                        external: seq<Ready>, replies: seq<seq<Ready>>, ghost ref: seq<seq<byte>>, ghost suspect: Suspect)
    returns (ghost suspect': Suspect)
    requires v.Valid() && |external| == |v.c.outward| && Readable(v.c, replies) && |responsive| == v.c.mode.Count()
    requires forall p :: 0 <= p < |external| && external[p].Data? ==> |external[p].chunk| <= v.c.cap
    requires Masked(v.c, ref, v.View(), suspect) && (suspect.Replica? ==> suspect.r < 3)
    requires AllAdmissible(v.c, ref, v.View(), suspect,
                           Pass(v.c, v.View(), v.priority, exited, expired, lowPriority, external, replies))
    modifies v, v.Repr
    ensures v.Valid() && Masked(v.c, ref, v.View(), suspect') && (suspect'.Replica? ==> suspect'.r < 3)
    ensures forall p :: 0 <= p < |v.c.outward| && v.c.outward[p] ==> v.emitted[p] <= ref[p]
  {
    ghost var s0, es := v.View(), Pass(v.c, v.View(), v.priority, exited, expired, lowPriority, external, replies);
    v.DoOneUpdate(exited, expired, lowPriority, responsive, external, replies);
    suspect' := PassMasked(v.c, ref, s0, suspect, es, v.View());
  }

  lemma PassMasked(c: Config, ref: seq<seq<byte>>, s: State, suspect: Suspect, es: seq<Event>, s': State)
    returns (suspect': Suspect)
    requires Masked(c, ref, s, suspect) && (suspect.Replica? ==> suspect.r < 3)
    requires Run(c, s, es, s') && AllAdmissible(c, ref, s, suspect, es)
    ensures Masked(c, ref, s', suspect') && (suspect'.Replica? ==> suspect'.r < 3)
    ensures forall p :: 0 <= p < |c.outward| && c.outward[p] ==> s'.emitted[p] <= ref[p]
  {
    suspect' := RunMasked(c, ref, s, suspect, es, s');
    forall p | 0 <= p < |c.outward| && c.outward[p] ensures s'.emitted[p] <= ref[p] {
      MaskedEmits(c, ref, s', suspect', p);
    }
  }
}

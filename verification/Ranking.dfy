/** The replica ranking of src/replicas.c: how far each replica lags behind the leader of each output
    pipe, summed over the pipes. */
module Ranking {
  import opened VoterModel

  /** A slot beyond the running replicas has an empty ring. */
  function Queued(col: seq<Queue>, r: nat): nat {
    if r < |col| then |col[r].bytes| else 0
  }

  /** `k` is the first replica with the most queued bytes. */
  ghost predicate FirstAhead(col: seq<Queue>, k: nat) {
    && k < |col|
    && (forall q :: 0 <= q < |col| ==> |col[q].bytes| <= |col[k].bytes|)
    && (forall q :: 0 <= q < k ==> |col[q].bytes| < |col[k].bytes|)
  }

  /** The most bytes that any replica has queued. */
  ghost function Most(col: seq<Queue>): (n: nat)
    ensures forall q :: 0 <= q < |col| ==> |col[q].bytes| <= n
    ensures col != [] ==> exists q :: 0 <= q < |col| && |col[q].bytes| == n
  {
    if col == [] then 0
    else
      var last := |col| - 1;
      var rest := Most(col[..last]);
      assert forall q :: 0 <= q < last ==> col[q] == col[..last][q];
      if |col[last].bytes| > rest then |col[last].bytes|
      else assert last > 0 || |col[last].bytes| == rest; rest
  }

  /** rep_gap over the first `n` pipes. */
  ghost function Gap(c: Config, rings: seq<seq<Queue>>, r: nat, n: nat): int
    requires n <= |rings| && n <= |c.outward|
  {
    if n == 0 then 0
    else Gap(c, rings, r, n - 1) + if c.outward[n - 1] then Most(rings[n - 1]) - Queued(rings[n - 1], r) else 0
  }

  /** All bytes queued from replica `r` on the first `n` pipes that are output pipes. */
  ghost function Total(c: Config, rings: seq<seq<Queue>>, r: nat, n: nat): nat
    requires n <= |rings| && n <= |c.outward|
  {
    if n == 0 then 0
    else Total(c, rings, r, n - 1) + if c.outward[n - 1] then Queued(rings[n - 1], r) else 0
  }

  /** Gaps order the replicas as their totals do, the other way round: the largest gap is the least
      number of bytes queued over all output pipes. */
  lemma {:induction false} GapMirrorsTotal(c: Config, rings: seq<seq<Queue>>, a: nat, b: nat, n: nat)
    requires n <= |rings| && n <= |c.outward|
    ensures Gap(c, rings, a, n) + Total(c, rings, a, n) == Gap(c, rings, b, n) + Total(c, rings, b, n)
    ensures Gap(c, rings, a, n) <= Gap(c, rings, b, n) <==> Total(c, rings, b, n) <= Total(c, rings, a, n)
  {
    if n > 0 {
      GapMirrorsTotal(c, rings, a, b, n - 1);
    }
  }

  /** `starting` is the first replica that no other lags behind further. */
  ghost predicate FirstLagging(c: Config, rings: seq<seq<Queue>>, num: nat, starting: nat)
    requires |rings| == |c.outward|
  {
    && starting < num
    && (forall i :: 0 <= i < num ==> Gap(c, rings, i, |rings|) <= Gap(c, rings, starting, |rings|))
    && (forall i :: 0 <= i < starting ==> Gap(c, rings, i, |rings|) < Gap(c, rings, starting, |rings|))
  }

  /** The gaps of the slots that balanceReps looks at: at least two. */
  ghost function Gaps(c: Config, rings: seq<seq<Queue>>): (gaps: seq<int>)
    requires |rings| == |c.outward|
    ensures |gaps| >= 2 && |gaps| >= c.mode.Count()
    ensures forall i :: 0 <= i < |gaps| ==> gaps[i] == Gap(c, rings, i, |rings|)
  {
    seq(if c.mode.Count() < 2 then 2 else c.mode.Count(), i requires 0 <= i => Gap(c, rings, i, |rings|))
  }

  lemma LaggingByGaps(c: Config, rings: seq<seq<Queue>>, starting: nat)
    requires |rings| == |c.outward| && starting < c.mode.Count()
    requires forall i :: 0 <= i < c.mode.Count() ==> Gaps(c, rings)[i] <= Gaps(c, rings)[starting]
    requires forall i :: 0 <= i < starting ==> Gaps(c, rings)[i] < Gaps(c, rings)[starting]
    ensures FirstLagging(c, rings, c.mode.Count(), starting)
  {
    var gaps := Gaps(c, rings);
    forall i | 0 <= i < c.mode.Count() ensures Gap(c, rings, i, |rings|) == gaps[i] {
    }
  }

  /** The gap at `i` exceeds all before it. */
  ghost predicate Exceeds(gaps: seq<int>, i: nat)
    requires i < |gaps|
  {
    forall j :: 0 <= j < i ==> gaps[j] < gaps[i]
  }

  /** The second pick of balanceReps' loop: the first with the largest gap among slot 1 and those slots
      that did not exceed all before them. A slot that once led and was overtaken is not considered. */
  ghost predicate SecondPick(gaps: seq<int>, num: nat, second: nat)
    requires num <= |gaps| && 2 <= |gaps|
  {
    && 1 <= second < |gaps| && (second == 1 || (second < num && !Exceeds(gaps, second) && gaps[1] < gaps[second]))
    && (forall i :: 1 <= i < num && !Exceeds(gaps, i) ==> gaps[i] <= gaps[second])
    && (forall i :: 1 <= i < num && i < second && !Exceeds(gaps, i) ==> gaps[i] < gaps[second])
  }

  /** The priorities that balanceReps asks for, kept as they were where the scheduler refuses. */
  ghost predicate Balanced(before: seq<int>, after: seq<int>, alive: seq<bool>, base: int, starting: nat, second: nat)
    requires |before| == |alive|
  {
    && |after| == |before|
    && forall i :: 0 <= i < |after| ==>
         after[i] == if !alive[i] then before[i]
                     else if i == starting then base + 2
                     else if i == second then base + 1
                     else base
  }

  /** When every scheduling call succeeds exactly one replica runs at the top priority, and it is one
      with the fewest bytes queued over all output pipes; at most one runs at the middle priority. */
  lemma TopPriority(c: Config, rings: seq<seq<Queue>>, before: seq<int>, after: seq<int>, alive: seq<bool>,
                    base: int, starting: nat, second: nat)
    requires |before| == |alive| && Balanced(before, after, alive, base, starting, second)
    requires |rings| == |c.outward| && FirstLagging(c, rings, |before|, starting)
    requires forall i :: 0 <= i < |alive| ==> alive[i]
    ensures forall i :: 0 <= i < |after| ==> (after[i] == base + 2 <==> i == starting)
    ensures forall i, j :: 0 <= i < |after| && 0 <= j < |after| && after[i] == after[j] == base + 1 ==> i == j
    ensures forall i :: 0 <= i < |after| ==> Total(c, rings, starting, |rings|) <= Total(c, rings, i, |rings|)
  {
    forall i | 0 <= i < |after| ensures Total(c, rings, starting, |rings|) <= Total(c, rings, i, |rings|) {
      GapMirrorsTotal(c, rings, i, starting, |rings|);
    }
  }
}

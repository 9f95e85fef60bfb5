/** The voter of voter/voterd.c as a state machine on values. A vote ring is its read index and its
    queued bytes; rings and pending inputs are listed pipe by pipe, then replica by replica. */
module VoterModel {
  import opened VoteBuff

  datatype Mode = SMR | DMR | TMR {
    function Count(): nat {
      match this
      case SMR => 1
      case DMR => 2
      case TMR => 3
    }
  }

  /** What the command line fixes: replication, ring capacity, the direction of each pipe (outward
      means written by the replicas), and the pipes that start and stop the watchdog. */
  datatype Config = Config(mode: Mode, cap: nat, outward: seq<bool>, timerStart: nat, timerStop: nat) {
    ghost predicate Valid() {
      0 < cap && timerStart < |outward| && timerStop < |outward|
    }
  }

  datatype Queue = Queue(index: nat, bytes: seq<byte>)

  const EMPTY := Queue(0, [])

  /** `emitted` is what the voter wrote to each external pipe, `pending` what it wrote to each
      replica that the replica has not read yet, `lastInput` the last external chunk read. */
  datatype State = State(
    rings: seq<seq<Queue>>,
    emitted: seq<seq<byte>>,
    pending: seq<seq<seq<byte>>>,
    lastInput: seq<seq<byte>>,
    timer: bool)

  /** Every ring's index and count stay below its capacity. */
  ghost predicate Within(cap: nat, col: seq<Queue>) {
    forall r :: 0 <= r < |col| ==> col[r].index < cap && |col[r].bytes| < cap
  }

  ghost predicate ColumnOk(c: Config, col: seq<Queue>) {
    |col| == c.mode.Count() && Within(c.cap, col)
  }

  ghost predicate Idle(col: seq<Queue>) {
    forall r :: 0 <= r < |col| ==> col[r] == EMPTY
  }

  ghost predicate WellFormed(c: Config, s: State) {
    && c.Valid()
    && |s.rings| == |s.emitted| == |s.pending| == |s.lastInput| == |c.outward|
    && (forall p :: 0 <= p < |s.rings| ==> ColumnOk(c, s.rings[p]))
    && (forall p :: 0 <= p < |s.rings| && !c.outward[p] ==> Idle(s.rings[p]))
    && (forall p :: 0 <= p < |s.pending| ==> |s.pending[p]| == c.mode.Count())
    && (forall p, r :: 0 <= p < |s.pending| && c.outward[p] && 0 <= r < c.mode.Count() ==> s.pending[p][r] == [])
  }

  ghost predicate InRange(c: Config, r: nat, p: nat) {
    r < c.mode.Count() && p < |c.outward|
  }

  function Initial(c: Config): (s: State)
    requires c.Valid()
    ensures WellFormed(c, s)
  {
    var n := |c.outward|;
    State(seq(n, _ => seq(c.mode.Count(), _ => EMPTY)), seq(n, _ => []),
          seq(n, _ => seq(c.mode.Count(), _ => [])), seq(n, _ => []), false)
  }

  // ---------------------------------------------------------------------------- one output pipe

  /** bytesReady: the least number of queued bytes over the replicas. */
  function Least(col: seq<Queue>): (n: nat)
    requires col != []
    ensures forall r :: 0 <= r < |col| ==> n <= |col[r].bytes|
    ensures exists r :: 0 <= r < |col| && n == |col[r].bytes|
  {
    if |col| == 1 then |col[0].bytes|
    else
      var rest := Least(col[1..]);
      assert forall r :: 1 <= r < |col| ==> col[r] == col[1..][r - 1];
      if |col[0].bytes| < rest then |col[0].bytes| else rest
  }

  /** fakeToPipe: drops the oldest `n` bytes. */
  function Advance(cap: nat, q: Queue, n: nat): (q': Queue)
    requires q.index < cap && n <= |q.bytes| < cap
    ensures q'.index < cap
  {
    Queue(Turn(q.index, n, cap), q.bytes[n..])
  }

  function AdvanceAll(cap: nat, col: seq<Queue>, n: nat): (col': seq<Queue>)
    requires Within(cap, col) && forall r :: 0 <= r < |col| ==> n <= |col[r].bytes|
    ensures Within(cap, col') && |col'| == |col|
    ensures forall r :: 0 <= r < |col| ==> col'[r] == Advance(cap, col[r], n)
  {
    seq(|col|, r requires 0 <= r < |col| => Advance(cap, col[r], n))
  }

  /** compareBuffs returning zero. */
  predicate Same(a: Queue, b: Queue, n: nat)
    requires n <= |a.bytes| && n <= |b.bytes|
  {
    a.index == b.index && a.bytes[..n] == b.bytes[..n]
  }

  datatype Verdict = Agree(sender: nat) | Expel(restartee: nat, restarter: nat) | Split

  /** The TMR loop of checkSDC from replica `r` on: the first neighbouring pair whose `n` oldest
      bytes agree decides about the third. */
  function JudgeFrom(col: seq<Queue>, n: nat, r: nat): (v: Verdict)
    requires |col| == 3 && r <= 3
    requires forall q :: 0 <= q < 3 ==> n <= |col[q].bytes|
    ensures v.Agree? ==> v.sender < 3
    ensures v.Expel? ==> v.restartee < 3 && v.restarter < 3 && v.restartee != v.restarter
    decreases 3 - r
  {
    if r == 3 then Split
    else if Same(col[r], col[(r + 1) % 3], n) then
      if Same(col[r], col[(r + 2) % 3], n) then Agree(r) else Expel((r + 2) % 3, r)
    else JudgeFrom(col, n, r + 1)
  }

  // ------------------------------------------------------------------------------------- voting

  function SendPipe(c: Config, s: State, p: nat, sender: nat): (s': State)
    requires WellFormed(c, s) && InRange(c, sender, p)
    ensures WellFormed(c, s')
  {
    var col := s.rings[p];
    var n := Least(col);
    if n == 0 then s
    else s.(rings := s.rings[p := AdvanceAll(c.cap, col, n)],
            emitted := s.emitted[p := s.emitted[p] + col[sender].bytes[..n]],
            timer := s.timer && p != c.timerStop)
  }

  /** Having nothing to send is sending nothing. */
  lemma SendAlways(c: Config, s: State, p: nat, sender: nat)
    requires WellFormed(c, s) && InRange(c, sender, p)
    ensures var s', col := SendPipe(c, s, p, sender), s.rings[p];
      && s'.rings == s.rings[p := AdvanceAll(c.cap, col, Least(col))]
      && s'.emitted == s.emitted[p := s.emitted[p] + col[sender].bytes[..Least(col)]]
      && (s'.timer ==> s.timer)
  {
    var col := s.rings[p];
    if Least(col) == 0 {
      assert AdvanceAll(c.cap, col, 0) == col;
      assert s.emitted[p] + col[sender].bytes[..0] == s.emitted[p];
    }
  }

  /** What restart_prep does to one output pipe's rings: the restartee gets a copy of the restarter's
      ring, then the bytes every ring now holds are sent. */
  function Flush(c: Config, col: seq<Queue>, restartee: nat, restarter: nat): (col': seq<Queue>)
    requires c.Valid() && ColumnOk(c, col) && restartee < |col| && restarter < |col|
    ensures ColumnOk(c, col')
  {
    var copied := col[restartee := col[restarter]];
    AdvanceAll(c.cap, copied, Least(copied))
  }

  function Flushed(col: seq<Queue>, restartee: nat, restarter: nat): (out: seq<byte>)
    requires restartee < |col| && restarter < |col|
  {
    var copied := col[restartee := col[restarter]];
    assert copied[restarter] == col[restarter];
    col[restarter].bytes[..Least(copied)]
  }

  /** The part of a pending input that one `read` of at most `cap` bytes steals. */
  function Stolen(cap: nat, queue: seq<byte>): (t: seq<byte>) {
    if |queue| <= cap then queue else queue[..cap]
  }

  /** Pending input of one pipe after the restarter's was stolen and written to both. */
  function HandOver(cap: nat, queues: seq<seq<byte>>, restartee: nat, restarter: nat): (queues': seq<seq<byte>>)
    requires restartee < |queues| && restarter < |queues|
    ensures |queues'| == |queues|
  {
    var stolen := Stolen(cap, queues[restarter]);
    queues[restartee := stolen][restarter := queues[restarter][|stolen|..] + stolen]
  }

  function RestartPrep(c: Config, s: State, restartee: nat, restarter: nat): (s': State)
    requires WellFormed(c, s) && restartee < c.mode.Count() && restarter < c.mode.Count() && restartee != restarter
    ensures WellFormed(c, s')
  {
    var n := |c.outward|;
    State(seq(n, p requires 0 <= p < n => if c.outward[p] then Flush(c, s.rings[p], restartee, restarter) else s.rings[p]),
          seq(n, p requires 0 <= p < n =>
            s.emitted[p] + if c.outward[p] then Flushed(s.rings[p], restartee, restarter) else []),
          seq(n, p requires 0 <= p < n =>
            if c.outward[p] then s.pending[p] else HandOver(c.cap, s.pending[p], restartee, restarter)),
          s.lastInput,
          false)
  }

  function CheckSDC(c: Config, s: State, p: nat): (s': State)
    requires WellFormed(c, s) && p < |c.outward|
    ensures WellFormed(c, s')
  {
    var n := Least(s.rings[p]);
    if n == 0 then s
    else match c.mode
      case SMR => SendPipe(c, s, p, 0)
      case DMR => SendPipe(c, s, p, 0)
      case TMR =>
        match JudgeFrom(s.rings[p], n, 0)
        case Agree(sender) => SendPipe(c, s, p, sender)
        case Expel(restartee, restarter) => RestartPrep(c, s, restartee, restarter)
        case Split => s
  }

  /** pipeToBuff on one ring: a chunk that does not fit is lost. */
  predicate Fits(c: Config, s: State, r: nat, p: nat, chunk: seq<byte>)
    requires WellFormed(c, s) && InRange(c, r, p)
  {
    0 < |chunk| && |s.rings[p][r].bytes| + |chunk| < c.cap
  }

  function Receive(c: Config, s: State, r: nat, p: nat, chunk: seq<byte>): (s': State)
    requires WellFormed(c, s) && InRange(c, r, p) && c.outward[p] && Fits(c, s, r, p, chunk)
    ensures WellFormed(c, s')
  {
    var q := s.rings[p][r];
    s.(rings := s.rings[p := s.rings[p][r := Queue(q.index, q.bytes + chunk)]])
  }

  function ProcessFromRep(c: Config, s: State, r: nat, p: nat, chunk: seq<byte>): (s': State)
    requires WellFormed(c, s) && InRange(c, r, p) && c.outward[p]
    ensures WellFormed(c, s')
  {
    if Fits(c, s, r, p, chunk) then CheckSDC(c, Receive(c, s, r, p, chunk), p) else s
  }

  // ----------------------------------------------------------------------------- input, timeout

  /** An external chunk goes to every replica; an empty chunk is a failed read. */
  function ProcessData(c: Config, s: State, p: nat, chunk: seq<byte>): (s': State)
    requires WellFormed(c, s) && p < |c.outward| && !c.outward[p]
    ensures WellFormed(c, s')
  {
    var n := c.mode.Count();
    s.(pending := s.pending[p := seq(n, r requires 0 <= r < n => s.pending[p][r] + chunk)],
       timer := s.timer || p == c.timerStart)
  }

  function ReadExternal(c: Config, s: State, p: nat, chunk: seq<byte>): (s': State)
    requires WellFormed(c, s) && p < |c.outward| && !c.outward[p]
    ensures WellFormed(c, s')
  {
    var read := s.(lastInput := s.lastInput[p := chunk]);
    if chunk == [] then read else ProcessData(c, read, p, chunk)
  }

  /** `a` goes before `b`: fewer queued bytes, or as many and a higher priority. */
  predicate Behind(col: seq<Queue>, priority: seq<int>, a: nat, b: nat)
    requires |col| == |priority| && a < |col| && b < |col|
  {
    || |col[a].bytes| < |col[b].bytes|
    || (|col[a].bytes| == |col[b].bytes| && priority[a] > priority[b])
  }

  /** `k` is the first of the replicas `..n` that no other of them goes before. */
  ghost predicate FirstBehind(col: seq<Queue>, priority: seq<int>, n: nat, k: nat)
    requires |col| == |priority| && n <= |col|
  {
    && k < n
    && (forall q {:trigger col[q]} {:trigger Behind(col, priority, q, k)} :: 0 <= q < n ==> !Behind(col, priority, q, k))
    && (forall q {:trigger col[q]} {:trigger Behind(col, priority, k, q)} :: 0 <= q < k ==> Behind(col, priority, k, q))
  }

  /** behindRep over the first `n` replicas. */
  function BehindRep(col: seq<Queue>, priority: seq<int>, n: nat): (k: nat)
    requires |col| == |priority| && 0 < n <= |col|
    ensures FirstBehind(col, priority, n, k)
  {
    if n == 1 then 0
    else
      var best := BehindRep(col, priority, n - 1);
      if Behind(col, priority, n - 1, best) then n - 1 else best
  }

  /** The replica that a timeout restarts. */
  function Late(c: Config, s: State, priority: seq<int>): (k: nat)
    requires WellFormed(c, s) && |priority| == c.mode.Count()
    ensures k < c.mode.Count()
  {
    BehindRep(s.rings[c.timerStop], priority, c.mode.Count())
  }

  /** The replica that a timeout clones. */
  function Donor(c: Config, late: nat): (k: nat)
    requires late < c.mode.Count()
    ensures k < c.mode.Count()
    ensures c.mode != SMR ==> k != late
  {
    (late + (c.mode.Count() - 1)) % c.mode.Count()
  }

  /** The cold restart of a single replica: its rings and pending input are gone, the last chunk of
      every input pipe is sent again. */
  function ColdRestart(c: Config, s: State): (s': State)
    requires WellFormed(c, s) && c.mode == SMR
    ensures WellFormed(c, s')
  {
    var n := |c.outward|;
    s.(rings := seq(n, _ => [EMPTY]),
       pending := seq(n, p requires 0 <= p < n => [if c.outward[p] then [] else s.lastInput[p]]),
       timer := s.timer || !c.outward[c.timerStart])
  }

  function RestartHandler(c: Config, s: State, priority: seq<int>): (s': State)
    requires WellFormed(c, s) && |priority| == c.mode.Count()
    ensures WellFormed(c, s')
  {
    if c.mode == SMR then ColdRestart(c, s)
    else var late := Late(c, s, priority); RestartPrep(c, s, late, Donor(c, late))
  }

  /** checkSync: on every pipe each replica has as many queued bytes as the first. */
  ghost predicate CheckSync(c: Config, s: State)
    requires WellFormed(c, s)
  {
    forall p, r :: 0 <= p < |s.rings| && 0 <= r < c.mode.Count() ==>
      |s.rings[p][r].bytes| == |s.rings[p][0].bytes|
  }

  // -------------------------------------------------------------------------------------- steps

  /** One event of doOneUpdate, or a replica reading its own input. Priorities are whatever the
      scheduler left when the watchdog expired. */
  datatype Event =
    | Output(replica: nat, pipe: nat, chunk: seq<byte>)
    | Input(pipe: nat, chunk: seq<byte>)
    | Timeout(priority: seq<int>)
    | Exit(priority: seq<int>)
    | Arm
    | Consume(replica: nat, pipe: nat, n: nat)

  ghost predicate Enabled(c: Config, s: State, e: Event)
    requires WellFormed(c, s)
  {
    match e
    case Output(r, p, chunk) => InRange(c, r, p) && c.outward[p] && |chunk| <= c.cap
    case Input(p, chunk) => p < |c.outward| && !c.outward[p] && |chunk| <= c.cap && CheckSync(c, s)
    case Timeout(priority) => |priority| == c.mode.Count() && s.timer
    case Exit(priority) => |priority| == c.mode.Count() && c.mode == SMR
    case Arm => !CheckSync(c, s) && !s.timer
    case Consume(r, p, n) => InRange(c, r, p) && !c.outward[p] && n <= |s.pending[p][r]|
  }

  ghost function Step(c: Config, s: State, e: Event): (s': State)
    requires WellFormed(c, s) && Enabled(c, s, e)
    ensures WellFormed(c, s')
  {
    match e
    case Output(r, p, chunk) => ProcessFromRep(c, s, r, p, chunk)
    case Input(p, chunk) => ReadExternal(c, s, p, chunk)
    case Timeout(priority) => RestartHandler(c, s, priority)
    case Exit(priority) => RestartHandler(c, s, priority).(timer := false)
    case Arm => s.(timer := true)
    case Consume(r, p, n) =>
      s.(pending := s.pending[p := s.pending[p][r := s.pending[p][r][n..]]])
  }

  /** `es` is a run from `s` to `s'`, every event enabled where it happens. */
  ghost predicate Run(c: Config, s: State, es: seq<Event>, s': State)
    requires WellFormed(c, s)
    decreases |es|
  {
    if es == [] then s' == s
    else Enabled(c, s, es[0]) && Run(c, Step(c, s, es[0]), es[1..], s')
  }

  lemma {:induction false} RunExtended(c: Config, s: State, es: seq<Event>, s1: State, e: Event)
    requires WellFormed(c, s) && Run(c, s, es, s1)
    ensures WellFormed(c, s1)
    ensures Enabled(c, s1, e) ==> Run(c, s, es + [e], Step(c, s1, e))
    decreases |es|
  {
    if es == [] {
      assert (es + [e])[1..] == [];
    } else {
      RunExtended(c, Step(c, s, es[0]), es[1..], s1, e);
      assert (es + [e])[1..] == es[1..] + [e];
    }
  }

  // ----------------------------------------------------------------- one pass of the main loop

  /** What `select` and `read` report about one descriptor. */
  datatype Ready = Quiet | Data(chunk: seq<byte>)

  /** The restart that a pass begins with: of a single replica that exited by itself, which stops the
      watchdog, or because the watchdog expired. */
  ghost function Restarts(c: Config, s: State, priority: seq<int>, exited: bool, expired: bool): seq<Event> {
    if c.mode == SMR && exited then [Exit(priority)]
    else if s.timer && expired then [Timeout(priority)]
    else []
  }

  ghost function AfterRestarts(c: Config, s: State, priority: seq<int>, exited: bool, expired: bool): (s': State)
    requires WellFormed(c, s) && |priority| == c.mode.Count()
    ensures WellFormed(c, s')
  {
    var es := Restarts(c, s, priority, exited, expired);
    if es == [] then s else Step(c, s, es[0])
  }

  /** The reads of the first `n` external pipes. */
  ghost function Inputs(c: Config, external: seq<Ready>, n: nat): seq<Event>
    requires n <= |external| == |c.outward|
  {
    if n == 0 then []
    else
      Inputs(c, external, n - 1)
      + if !c.outward[n - 1] && external[n - 1].Data? then [Input(n - 1, external[n - 1].chunk)] else []
  }

  /** The reads of one output pipe from the first `n` replicas. */
  ghost function RowOutputs(row: seq<Ready>, p: nat, n: nat): seq<Event>
    requires n <= |row|
  {
    if n == 0 then []
    else RowOutputs(row, p, n - 1) + if row[n - 1].Data? then [Output(n - 1, p, row[n - 1].chunk)] else []
  }

  /** The reads of the first `n` pipes from the replicas. */
  ghost function Outputs(c: Config, replies: seq<seq<Ready>>, n: nat): seq<Event>
    requires n <= |replies| == |c.outward|
  {
    if n == 0 then []
    else
      Outputs(c, replies, n - 1)
      + if c.outward[n - 1] then RowOutputs(replies[n - 1], n - 1, |replies[n - 1]|) else []
  }

  /** External input is read when the rings are in step; otherwise a voter that does not run in real
      time arms an idle watchdog. */
  ghost function Gate(c: Config, s: State, lowPriority: bool, external: seq<Ready>): seq<Event>
    requires WellFormed(c, s) && |external| == |c.outward|
  {
    if CheckSync(c, s) then Inputs(c, external, |external|)
    else if lowPriority && !s.timer then [Arm]
    else []
  }

  /** The events of one pass, in order. */
  ghost function Pass(c: Config, s: State, priority: seq<int>, exited: bool, expired: bool, lowPriority: bool,
                      external: seq<Ready>, replies: seq<seq<Ready>>): seq<Event>
    requires WellFormed(c, s) && |priority| == c.mode.Count() && |external| == |replies| == |c.outward|
  {
    Restarts(c, s, priority, exited, expired)
    + Gate(c, AfterRestarts(c, s, priority, exited, expired), lowPriority, external)
    + Outputs(c, replies, |replies|)
  }
}

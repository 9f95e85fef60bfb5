/** The mapper of controllers/mapper.c, and the agreement of its map with the planner's over every run. */
module Mapper {
  import opened Paths
  import opened Grid
  import opened MapStream
  import opened Charts
  import opened Wrappers

  const OBS_THRES := 2
  const RANGE_COUNT := 16
  const SEND_ENTRIES := 128

  predicate OnGrid(c: Cell) {
    0 <= c.x < GRID_NUM && 0 <= c.y < GRID_NUM
  }

  /** The check at the head of addObstacle, which lets GRID_NUM pass. */
  predicate Passes(c: Cell) {
    !(c.x < 0 || c.x > GRID_NUM || c.y < 0 || c.y > GRID_NUM)
  }

  /** How often a cell was hit. */
  function Hits(hits: seq<Cell>, c: Cell): (n: nat)
    ensures c in hits <==> n > 0
  {
    if hits == [] then 0 else Hits(hits[..|hits| - 1], c) + if hits[|hits| - 1] == c then 1 else 0
  }

  lemma HitsAppend(hits: seq<Cell>, h: Cell, c: Cell)
    ensures Hits(hits + [h], c) == Hits(hits, c) + if h == c then 1 else 0
  {
    assert (hits + [h])[..|hits|] == hits;
  }

  /** The cells that became obstacles, in the order in which they did: each at the hit that takes its
      counter over the threshold. */
  ghost function Announced(hits: seq<Cell>): seq<Cell> {
    if hits == [] then []
    else
      var before, h := hits[..|hits| - 1], hits[|hits| - 1];
      Announced(before) + if Hits(before, h) == OBS_THRES then [h] else []
  }

  lemma AnnouncedAppend(hits: seq<Cell>, h: Cell)
    ensures Announced(hits + [h]) == Announced(hits) + if Hits(hits, h) == OBS_THRES then [h] else []
  {
    assert (hits + [h])[..|hits|] == hits;
  }

  /** What is announced only grows. */
  lemma {:induction false} AnnouncedGrows(hits: seq<Cell>, more: seq<Cell>)
    ensures Announced(hits) <= Announced(hits + more)
    decreases |more|
  {
    if more == [] {
      assert hits + more == hits;
    } else {
      var init, last := more[..|more| - 1], more[|more| - 1];
      AnnouncedGrows(hits, init);
      assert hits + more == hits + init + [last];
      AnnouncedAppend(hits + init, last);
    }
  }

  /** A cell is announced exactly when it was hit more often than the threshold, and only once. */
  lemma {:induction false} AnnouncedOnce(hits: seq<Cell>)
    ensures forall c :: c in Announced(hits) <==> Hits(hits, c) > OBS_THRES
    ensures NoRepeats(Announced(hits))
  {
    if hits != [] {
      var before, h := hits[..|hits| - 1], hits[|hits| - 1];
      AnnouncedOnce(before);
      assert hits == before + [h];
      AnnouncedAppend(before, h);
      forall c ensures Hits(hits, c) == Hits(before, c) + if h == c then 1 else 0 {
        HitsAppend(before, h, c);
      }
    }
  }

  /** The cells of a scan that pass addObstacle's check. */
  function Accepted(points: seq<Point>): (cells: seq<Cell>)
    ensures |cells| <= |points| && forall c :: c in cells ==> OnGrid(c)
  {
    if points == [] then []
    else
      var c := Gridify(points[|points| - 1]);
      Accepted(points[..|points| - 1]) + if OnGrid(c) then [c] else []
  }

  lemma AcceptedNext(hits: seq<Cell>, points: seq<Point>, i: nat)
    requires i < |points|
    ensures hits + Accepted(points[..i + 1])
         == hits + Accepted(points[..i]) + if OnGrid(Gridify(points[i])) then [Gridify(points[i])] else []
  {
    assert points[..i + 1][..i] == points[..i];
  }

  /** The update that a scan sends. */
  ghost function Report(hits: seq<Cell>, pose: Point, points: seq<Point>): Update {
    AnnouncedGrows(hits, Accepted(points));
    Update(Gridify(pose), Announced(hits + Accepted(points))[|Announced(hits)|..])
  }

  /** A scan announces no more cells than it has points. */
  lemma {:induction false} ReportSize(hits: seq<Cell>, more: seq<Cell>)
    ensures |Announced(hits)| <= |Announced(hits + more)| <= |Announced(hits)| + |more|
    decreases |more|
  {
    if more == [] {
      assert hits + more == hits;
    } else {
      var init, last := more[..|more| - 1], more[|more| - 1];
      ReportSize(hits, init);
      assert hits + more == hits + init + [last];
      AnnouncedAppend(hits + init, last);
    }
  }

  /** The value of a saturating counter after `n` hits. */
  function Saturated(n: nat): nat {
    if n > OBS_THRES then OBS_THRES + 1 else n
  }

  class Mapper {
    const counts: array2<int>
    const obsX: array<int>
    const obsY: array<int>
    var obsCount: nat
    var pose: Cell
    var wire: seq<int> // what was written to the update pipe
    ghost var hits: seq<Cell>
    ghost var base: seq<Cell> // the hits before the current scan

    /** Every counter has counted its cell's hits, up to the top. */
    ghost predicate Counted(seen: seq<Cell>)
      reads counts
    {
      && counts.Length0 == counts.Length1 == GRID_NUM
      && forall x, y :: 0 <= x < GRID_NUM && 0 <= y < GRID_NUM ==> counts[x, y] == Saturated(Hits(seen, Cell(x, y)))
    }

    ghost predicate Valid()
      reads this, counts
    {
      Counted(hits) && obsX.Length == obsY.Length == SEND_ENTRIES && obsX != obsY
    }

    /** The send buffer holds what the current scan has announced so far. */
    ghost predicate Filling(seen: seq<Cell>, scanned: nat)
      requires obsX.Length == obsY.Length == SEND_ENTRIES
      reads this, obsX, obsY
    {
      && obsCount <= scanned && obsCount <= SEND_ENTRIES
      && Announced(seen) == Announced(base) + Listed(obsX[..], obsY[..], obsCount)
    }

    constructor ()
      ensures Valid() && hits == [] && wire == [] && fresh(counts) && fresh(obsX) && fresh(obsY)
    {
      counts := new int[GRID_NUM, GRID_NUM]((i, j) => 0);
      obsX := new int[SEND_ENTRIES](i => 0);
      obsY := new int[SEND_ENTRIES](i => 0);
      obsCount, pose, wire, hits, base := 0, Cell(0, 0), [], [], [];
    }

    /** Counts a hit; a counter at the top stays there. */
    method Count(obs: Cell) returns (changed: bool, over: bool)
      requires Counted(hits) && OnGrid(obs)
      modifies counts
      ensures Counted(hits + [obs])
      ensures changed <==> Hits(hits, obs) <= OBS_THRES
      ensures over <==> Hits(hits, obs) == OBS_THRES
    {
      assert obs == Cell(obs.x, obs.y);
      forall c ensures Hits(hits + [obs], c) == Hits(hits, c) + if obs == c then 1 else 0 {
        HitsAppend(hits, obs, c);
      }
      if counts[obs.x, obs.y] > OBS_THRES {
        changed, over := false, false;
      } else {
        counts[obs.x, obs.y] := counts[obs.x, obs.y] + 1;
        changed, over := true, counts[obs.x, obs.y] > OBS_THRES;
      }
    }

    /** Puts a cell in the send buffer. */
    method Announce(obs: Cell)
      requires obsX.Length == obsY.Length == SEND_ENTRIES && obsX != obsY && obsCount < SEND_ENTRIES
      modifies this`obsCount, obsX, obsY
      ensures obsCount == old(obsCount) + 1
      ensures Listed(obsX[..], obsY[..], obsCount) == old(Listed(obsX[..], obsY[..], obsCount)) + [obs]
    {
      obsX[obsCount] := obs.x;
      obsY[obsCount] := obs.y;
      obsCount := obsCount + 1;
    }

    /** The hit that takes a counter to the top is announced. */
    method AddObstacle(obs: Cell, ghost scanned: nat) returns (changed: bool)
      requires Valid() && Filling(hits, scanned) && scanned < SEND_ENTRIES
      requires Passes(obs) ==> OnGrid(obs)
      modifies this`obsCount, this`hits, counts, obsX, obsY
      ensures Valid() && Filling(hits, scanned + 1)
      ensures hits == old(hits) + if OnGrid(obs) then [obs] else []
      ensures changed <==> OnGrid(obs) && Hits(old(hits), obs) <= OBS_THRES
    {
      changed := false;
      if !Passes(obs) {
      } else {
        var over;
        changed, over := Count(obs);
        AnnouncedAppend(hits, obs);
        hits := hits + [obs];
        if over {
          Announce(obs);
        }
      }
    }

    /** The scan loop. */
    method Scan(points: seq<Point>)
      requires Valid() && |points| == RANGE_COUNT && obsCount == 0 && base == hits
      modifies this`obsCount, this`hits, counts, obsX, obsY
      ensures Valid() && hits == old(hits) + Accepted(points) && Filling(hits, RANGE_COUNT)
    {
      for i := 0 to RANGE_COUNT
        invariant Valid() && Filling(hits, i)
        invariant hits == old(hits) + Accepted(points[..i])
      {
        AcceptedNext(old(hits), points, i);
        var changed := AddObstacle(Gridify(points[i]), i);
      }
      assert points[..RANGE_COUNT] == points;
    }

    /** One scan: counts its points and sends what they announced. */
    method UpdateMap(at: Point, points: seq<Point>)
      requires Valid() && |points| == RANGE_COUNT
      modifies this, counts, obsX, obsY
      ensures Valid() && hits == old(hits) + Accepted(points)
      ensures wire == old(wire) + Encode(Report(old(hits), at, points))
      ensures |wire| >= |old(wire)| + 3
      ensures wire[|old(wire)|] == Gridify(at).x && wire[|old(wire)| + 1] == Gridify(at).y
      ensures 2 * wire[|old(wire)| + 2] == |wire| - |old(wire)| - 3
    {
      pose := Gridify(at);
      obsCount := 0;
      base := hits;
      Scan(points);
      var sent := SendMapUpdate(pose, obsCount, obsX, obsY);
      wire := wire + sent;
      assert Report(old(hits), at, points).obstacles == Listed(obsX[..], obsY[..], obsCount);
    }
  }

  // ----------------------------------------------------------------------------------- whole runs

  /** Mapper and planner with the pipe between them: what the mapper hit, what is on the way, and what
      the planner holds blocked and where it takes the robot to be. */
  datatype System = System(hits: seq<Cell>, wire: seq<int>, blocked: set<Cell>, pose: Cell)

  const START := System([], [], {}, Cell(0, 0))

  /** The mapper handles a scan, or the planner takes the next update. */
  datatype Event = Scan(pose: Point, points: seq<Point>) | Deliver

  ghost predicate Enabled(s: System, e: Event) {
    match e
    case Scan(_, points) => |points| == RANGE_COUNT
    case Deliver => Decode(s.wire).Decoded?
  }

  ghost function Step(s: System, e: Event): System
    requires Enabled(s, e)
  {
    match e
    case Scan(pose, points) =>
      s.(hits := s.hits + Accepted(points), wire := s.wire + Encode(Report(s.hits, pose, points)))
    case Deliver =>
      var Decoded(u, rest) := Decode(s.wire);
      s.(wire := rest, blocked := s.blocked + (set c | c in u.obstacles), pose := u.pose)
  }

  ghost predicate Run(s: System, es: seq<Event>, s': System)
    decreases |es|
  {
    if es == [] then s' == s else Enabled(s, es[0]) && Run(Step(s, es[0]), es[1..], s')
  }

  /** All obstacles of a sequence of updates, in order. */
  ghost function Flat(us: seq<Update>): seq<Cell> {
    if us == [] then [] else us[0].obstacles + Flat(us[1..])
  }

  lemma {:induction false} FlatAppend(us: seq<Update>, u: Update)
    ensures Flat(us + [u]) == Flat(us) + u.obstacles
  {
    if us == [] {
      assert Flat([u][1..]) == [];
    } else {
      assert (us + [u])[1..] == us[1..] + [u];
      FlatAppend(us[1..], u);
    }
  }

  ghost predicate NoRepeats(cells: seq<Cell>) {
    forall i, j :: 0 <= i < j < |cells| ==> cells[i] != cells[j]
  }

  /** The updates `sent` are on the wire, the cells `done` have been delivered; together they are what
      the mapper announced, and no update is longer than a scan. */
  ghost predicate InTransit(s: System, sent: seq<Update>, done: seq<Cell>) {
    && s.wire == EncodeAll(sent)
    && done + Flat(sent) == Announced(s.hits)
    && s.blocked == (set c | c in done)
    && (forall i :: 0 <= i < |sent| ==> |sent[i].obstacles| <= RANGE_COUNT)
    && (forall c :: c in s.hits ==> OnGrid(c))
  }

  /** `poses` are the poses of all scans so far. The updates on the wire carry the last of them, in
      order, and the planner has the one before those. */
  ghost predicate Posed(s: System, sent: seq<Update>, poses: seq<Point>) {
    && |sent| <= |poses|
    && (forall i :: 0 <= i < |sent| ==> sent[i].pose == Gridify(poses[|poses| - |sent| + i]))
    && s.pose == if |sent| == |poses| then START.pose else Gridify(poses[|poses| - |sent| - 1])
  }

  lemma Regroup(a: seq<Cell>, b: seq<Cell>, c: seq<Cell>)
    ensures a + (b + c) == a + b + c
  {
  }

  /** What a scan reports is what it adds to the announced cells. */
  lemma ReportExtends(hits: seq<Cell>, pose: Point, points: seq<Point>)
    ensures Announced(hits + Accepted(points)) == Announced(hits) + Report(hits, pose, points).obstacles
    ensures |Report(hits, pose, points).obstacles| <= |points|
  {
    AnnouncedGrows(hits, Accepted(points));
    ReportSize(hits, Accepted(points));
  }

  lemma ScanInTransit(s: System, sent: seq<Update>, done: seq<Cell>, pose: Point, points: seq<Point>)
    requires InTransit(s, sent, done) && |points| == RANGE_COUNT
    ensures InTransit(Step(s, Scan(pose, points)), sent + [Report(s.hits, pose, points)], done)
  {
    var u := Report(s.hits, pose, points);
    EncodeAllAppend(sent, u);
    FlatAppend(sent, u);
    ReportExtends(s.hits, pose, points);
    Regroup(done, Flat(sent), u.obstacles);
  }

  lemma DeliverInTransit(s: System, sent: seq<Update>, done: seq<Cell>)
    requires InTransit(s, sent, done) && Enabled(s, Deliver)
    ensures sent != [] && InTransit(Step(s, Deliver), sent[1..], done + sent[0].obstacles)
    ensures Step(s, Deliver).pose == sent[0].pose
  {
    DecodeEncode(sent[0], EncodeAll(sent[1..]));
    Regroup(done, sent[0].obstacles, Flat(sent[1..]));
  }

  /** The poses that a step adds. */
  ghost function PoseOf(e: Event): seq<Point> {
    if e.Scan? then [e.pose] else []
  }

  lemma InTransitStep(s: System, sent: seq<Update>, done: seq<Cell>, poses: seq<Point>, e: Event)
    returns (sent': seq<Update>, done': seq<Cell>)
    requires InTransit(s, sent, done) && Posed(s, sent, poses) && Enabled(s, e)
    ensures InTransit(Step(s, e), sent', done') && Posed(Step(s, e), sent', poses + PoseOf(e))
    ensures |sent'| == if e.Scan? then |sent| + 1 else |sent| - 1
  {
    match e
    case Scan(pose, points) =>
      ScanInTransit(s, sent, done, pose, points);
      sent', done' := sent + [Report(s.hits, pose, points)], done;
      ScanPosed(s, sent, poses, pose, points);
    case Deliver =>
      DeliverInTransit(s, sent, done);
      sent', done' := sent[1..], done + sent[0].obstacles;
      DeliverPosed(s, sent, poses, Step(s, Deliver));
      assert poses + [] == poses;
  }

  lemma ScanPosed(s: System, sent: seq<Update>, poses: seq<Point>, pose: Point, points: seq<Point>)
    requires Posed(s, sent, poses) && |points| == RANGE_COUNT
    ensures Posed(Step(s, Scan(pose, points)), sent + [Report(s.hits, pose, points)], poses + [pose])
  {
    var more := sent + [Report(s.hits, pose, points)];
    assert more[|sent|].pose == Gridify(pose);
  }

  lemma DeliverPosed(s: System, sent: seq<Update>, poses: seq<Point>, s': System)
    requires Posed(s, sent, poses) && sent != [] && s'.pose == sent[0].pose
    ensures Posed(s', sent[1..], poses)
  {
  }

  /** The poses of the scans of a run, and the number of its deliveries. */
  ghost function Poses(es: seq<Event>): seq<Point> {
    if es == [] then [] else PoseOf(es[0]) + Poses(es[1..])
  }

  ghost function Deliveries(es: seq<Event>): nat {
    if es == [] then 0 else (if es[0].Deliver? then 1 else 0) + Deliveries(es[1..])
  }

  /** What is on the way, before the events `es` lead to `s'`. */
  ghost predicate OnWay(s: System, sent: seq<Update>, done: seq<Cell>, poses: seq<Point>, es: seq<Event>, s': System) {
    forall t {:trigger Look(t)} :: Look(t) ==> InTransit(s, sent, done) && Posed(s, sent, poses) && Run(s, es, s')
  }

  lemma WayOn(s: System, sent: seq<Update>, done: seq<Cell>, poses: seq<Point>, es: seq<Event>, s': System)
    returns (s1: System, sent1: seq<Update>, done1: seq<Cell>)
    requires OnWay(s, sent, done, poses, es, s') && es != []
    ensures OnWay(s1, sent1, done1, poses + PoseOf(es[0]), es[1..], s')
    ensures |sent1| == if es[0].Scan? then |sent| + 1 else |sent| - 1
  {
    assert Look(0);
    s1 := Step(s, es[0]);
    sent1, done1 := InTransitStep(s, sent, done, poses, es[0]);
  }

  lemma WayEnds(s: System, es: seq<Event>, s': System, sent: seq<Update>, done: seq<Cell>, poses: seq<Point>)
    requires OnWay(s, sent, done, poses, es, s') && es == []
    ensures s' == s
  {
    assert Look(0);
  }

  lemma WayDone(s: System, sent: seq<Update>, done: seq<Cell>, poses: seq<Point>, es: seq<Event>, s': System)
    requires OnWay(s, sent, done, poses, es, s') && es == []
    ensures InTransit(s', sent, done) && Posed(s', sent, poses)
  {
    assert Look(0);
  }

  lemma PosesNext(poses: seq<Point>, es: seq<Event>)
    requires es != []
    ensures poses + Poses(es) == poses + PoseOf(es[0]) + Poses(es[1..])
  {
  }

  lemma {:induction false} InTransitRun(s: System, sent: seq<Update>, done: seq<Cell>, poses: seq<Point>, es: seq<Event>, s': System,
                                        all: seq<Point>)
    returns (sent': seq<Update>, done': seq<Cell>)
    requires OnWay(s, sent, done, poses, es, s') && all == poses + Poses(es)
    ensures OnWay(s', sent', done', all, [], s')
    ensures |sent'| + Deliveries(es) == |sent| + |Poses(es)|
    decreases |es|
  {
    if es == [] {
      sent', done' := sent, done;
      assert all == poses;
      WayEnds(s, es, s', sent, done, poses);
    } else {
      var s1, sent1, done1 := WayOn(s, sent, done, poses, es, s');
      PosesNext(poses, es);
      sent', done' := InTransitRun(s1, sent1, done1, poses + PoseOf(es[0]), es[1..], s', all);
    }
  }

  /** From the start: what is on the way, and whose pose the planner has. */
  lemma FromTheStart(es: seq<Event>, s: System) returns (sent: seq<Update>, done: seq<Cell>)
    requires Run(START, es, s)
    ensures InTransit(s, sent, done) && Posed(s, sent, Poses(es)) && |sent| + Deliveries(es) == |Poses(es)|
  {
    assert Poses(es) == [] + Poses(es);
    sent, done := InTransitRun(START, [], [], [], es, s, Poses(es));
    WayDone(s, sent, done, Poses(es), [], s);
  }

  /** The planner takes the robot to be where it was at the scan whose update it took last, the one with
      the number of deliveries so far; with the pipe empty that is the last scan of all. */
  lemma PoseFollows(es: seq<Event>, s: System)
    requires Run(START, es, s)
    ensures Deliveries(es) <= |Poses(es)| && (s.wire == [] ==> Deliveries(es) == |Poses(es)|)
    ensures s.pose == if Deliveries(es) == 0 then START.pose else Gridify(Poses(es)[Deliveries(es) - 1])
  {
    PoseLawHolds(es, s);
  }

  /** After `k` deliveries the planner has the pose of scan `k`. */
  ghost predicate PoseLaw(s: System, poses: seq<Point>, k: nat) {
    && k <= |poses| && (s.wire == [] ==> k == |poses|)
    && s.pose == if k == 0 then START.pose else Gridify(poses[k - 1])
  }

  lemma PoseTold(s: System, sent: seq<Update>, poses: seq<Point>, k: nat)
    requires Posed(s, sent, poses) && |sent| + k == |poses| && (s.wire == [] ==> sent == [])
    ensures PoseLaw(s, poses, k)
  {
  }

  lemma PoseLawHolds(es: seq<Event>, s: System)
    requires Run(START, es, s)
    ensures PoseLaw(s, Poses(es), Deliveries(es))
  {
    var sent := PosedFromStart(es, s);
    PoseTold(s, sent, Poses(es), Deliveries(es));
  }

  lemma PosedFromStart(es: seq<Event>, s: System) returns (sent: seq<Update>)
    requires Run(START, es, s)
    ensures Posed(s, sent, Poses(es)) && |sent| + Deliveries(es) == |Poses(es)| && (s.wire == [] ==> sent == [])
  {
    var done;
    sent, done := FromTheStart(es, s);
  }

  /** The updates that the mapper sends during a run. */
  ghost function Sent(hits: seq<Cell>, es: seq<Event>): seq<Update>
    decreases |es|
  {
    if es == [] then []
    else match es[0]
      case Scan(pose, points) => [Report(hits, pose, points)] + Sent(hits + Accepted(points), es[1..])
      case Deliver => Sent(hits, es[1..])
  }

  lemma {:induction false} SentIsAnnounced(s: System, es: seq<Event>, s': System)
    requires Run(s, es, s')
    ensures Announced(s'.hits) == Announced(s.hits) + Flat(Sent(s.hits, es))
    decreases |es|
  {
    if es != [] {
      SentIsAnnounced(Step(s, es[0]), es[1..], s');
      match es[0]
      case Scan(pose, points) =>
        var u := Report(s.hits, pose, points);
        var us := Sent(s.hits + Accepted(points), es[1..]);
        ReportExtends(s.hits, pose, points);
        assert ([u] + us)[1..] == us;
        Regroup(Announced(s.hits), u.obstacles, Flat(us));
      case Deliver =>
    }
  }

  /** Map agreement: however scans and deliveries interleave, a cell that the planner holds blocked was
      hit more than OBS_THRES times, and once the pipe is empty every such cell is blocked. */
  lemma MapsAgree(es: seq<Event>, s: System)
    requires Run(START, es, s)
    ensures forall c :: c in s.blocked ==> Hits(s.hits, c) > OBS_THRES
    ensures s.wire == [] ==> forall c :: c in s.blocked <==> Hits(s.hits, c) > OBS_THRES
  {
    var sent, done := FromTheStart(es, s);
    AnnouncedOnce(s.hits);
    forall c | c in s.blocked ensures c in Announced(s.hits) {
      assert c in done + Flat(sent);
    }
    if s.wire == [] {
      assert sent == [];
      assert done + Flat(sent) == done;
    }
  }

  /** The updates of a whole run name each cell that was hit more than OBS_THRES times exactly once,
      and no other cell. */
  lemma AnnouncedOnceInRun(es: seq<Event>, s: System)
    requires Run(START, es, s)
    ensures NoRepeats(Flat(Sent([], es)))
    ensures forall c :: c in Flat(Sent([], es)) <==> Hits(s.hits, c) > OBS_THRES
  {
    SentIsAnnounced(START, es, s);
    assert Announced(s.hits) == Flat(Sent([], es));
    AnnouncedOnce(s.hits);
  }

  /** Whenever something is on the wire, the planner can take an update, and its obstacles fit its
      arrays and lie on its map. */
  lemma DeliverySafe(es: seq<Event>, s: System)
    requires Run(START, es, s)
    ensures s.wire != [] ==> Enabled(s, Deliver)
    ensures Enabled(s, Deliver) ==>
      |Decode(s.wire).update.obstacles| <= RANGE_COUNT && forall c :: c in Decode(s.wire).update.obstacles ==> OnGrid(c)
  {
    var sent, done := FromTheStart(es, s);
    if sent != [] {
      var u := sent[0];
      DecodeEncode(u, EncodeAll(sent[1..]));
      AnnouncedOnce(s.hits);
      forall c | c in u.obstacles ensures OnGrid(c) {
        assert c in done + Flat(sent);
      }
    }
  }

  // ---------------------------------------------------------------------------- hits and points

  /** How many of the points fall into a cell. */
  ghost function PointsIn(points: seq<Point>, c: Cell): nat {
    if points == [] then 0 else PointsIn(points[..|points| - 1], c) + if Gridify(points[|points| - 1]) == c then 1 else 0
  }

  lemma {:induction false} AcceptedCounts(points: seq<Point>, c: Cell)
    requires OnGrid(c)
    ensures Hits(Accepted(points), c) == PointsIn(points, c)
  {
    if points != [] {
      var n := |points| - 1;
      AcceptedCounts(points[..n], c);
      HitsAppend(Accepted(points[..n]), Gridify(points[n]), c);
      assert Accepted(points[..n]) + [] == Accepted(points[..n]);
    }
  }

  lemma {:induction false} HitsJoin(a: seq<Cell>, b: seq<Cell>, c: Cell)
    ensures Hits(a + b, c) == Hits(a, c) + Hits(b, c)
    decreases |b|
  {
    if b == [] {
      assert a + b == a;
    } else {
      var n := |b| - 1;
      HitsJoin(a, b[..n], c);
      assert a + b == a + b[..n] + [b[n]];
      HitsAppend(a + b[..n], b[n], c);
    }
  }

  /** How many points of all scans of a run fall into a cell. */
  ghost function Seen(es: seq<Event>, c: Cell): nat {
    if es == [] then 0 else (if es[0].Scan? then PointsIn(es[0].points, c) else 0) + Seen(es[1..], c)
  }

  lemma {:induction false} HitsAreSeen(s: System, es: seq<Event>, s': System, c: Cell)
    requires Run(s, es, s') && OnGrid(c)
    ensures Hits(s'.hits, c) == Hits(s.hits, c) + Seen(es, c)
    decreases |es|
  {
    if es != [] {
      HitsAreSeen(Step(s, es[0]), es[1..], s', c);
      if es[0].Scan? {
        AcceptedCounts(es[0].points, c);
        HitsJoin(s.hits, Accepted(es[0].points), c);
      }
    }
  }

  /** Map agreement in terms of what was scanned: with the pipe empty a cell is blocked exactly when it
      is on the grid and three points or more of the scans so far fell into it. */
  lemma BlockedAreScanned(es: seq<Event>, s: System, c: Cell)
    requires Run(START, es, s) && s.wire == []
    ensures c in s.blocked <==> OnGrid(c) && Seen(es, c) >= 3
  {
    MapsAgree(es, s);
    var sent, done := FromTheStart(es, s);
    if OnGrid(c) {
      HitsAreSeen(START, es, s, c);
    }
  }

  /** Which cells those are, in the mapper's own terms: those whose counter is over the threshold. */
  lemma BlockedAreCounted(m: Mapper, es: seq<Event>, s: System, c: Cell)
    requires Run(START, es, s) && m.Valid() && m.hits == s.hits && s.wire == [] && OnGrid(c)
    ensures c in s.blocked <==> m.counts[c.x, c.y] > OBS_THRES
  {
    MapsAgree(es, s);
    assert c == Cell(c.x, c.y);
  }

  /** Every update that passes fits the mapper's, the sender's and the planner's buffers. */
  lemma UpdatesFit(hits: seq<Cell>, pose: Point, points: seq<Point>)
    requires |points| == RANGE_COUNT
    ensures var u := Report(hits, pose, points);
      && |u.obstacles| <= 16 && SEND_ENTRIES == 128 && RECV_ENTRIES == 200 && BUFFER_WORDS == 1024
      && |u.obstacles| <= SEND_ENTRIES && |u.obstacles| <= RECV_ENTRIES
      && |Encode(u)| <= BUFFER_WORDS
  {
    ReportSize(hits, Accepted(points));
  }
}

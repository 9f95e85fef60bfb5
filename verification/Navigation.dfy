/** Mapper and planner joined by the pipe between them: the routes that the planner finds avoid what the
    mapper saw. */
module Navigation {
  import opened Paths
  import opened Grid
  import opened MapStream
  import opened SearchState
  import opened Reference
  import opened Charts
  import opened Mapper
  import Planner

  lemma {:induction false} RunThen(s: System, es: seq<Event>, s1: System, e: Event)
    requires Run(s, es, s1) && Enabled(s1, e)
    ensures Run(s, es + [e], Step(s1, e))
    decreases |es|
  {
    if es == [] {
      assert [e][1..] == [];
    } else {
      RunThen(Step(s, es[0]), es[1..], s1, e);
      assert (es + [e])[1..] == es[1..] + [e];
    }
  }

  /** The next update of a run fits the planner's message and lies on its map. */
  lemma UpdateFits(es: seq<Event>, s: System, chart: Chart)
    requires Run(START, es, s) && s.wire != []
    requires chart.Valid() && chart.size == GRID_NUM && chart.sentCount <= RECV_ENTRIES
    ensures Decode(s.wire).Decoded? && chart.Fits(s.wire) && chart.OnChart(chart.Marks(s.wire))
  {
    DeliverySafe(es, s);
  }

  /** A delivery at the end adds neither poses nor points. */
  lemma {:induction false} DeliverLast(es: seq<Event>, c: Cell)
    ensures Poses(es + [Event.Deliver]) == Poses(es) && Seen(es + [Event.Deliver], c) == Seen(es, c)
  {
    if es == [] {
      assert [Event.Deliver][1..] == [];
    } else {
      assert (es + [Event.Deliver])[1..] == es[1..] + [Event.Deliver];
      DeliverLast(es[1..], c);
    }
  }

  /** What the planner has once the pipe is empty: the obstacles are the cells into which three points or
      more of the scans fell, and the pose is that of the last scan. */
  lemma Arrived(es: seq<Event>, s': System)
    requires Run(START, es + [Event.Deliver], s') && s'.wire == []
    ensures Poses(es) != [] && s'.pose == Gridify(Poses(es)[|Poses(es)| - 1])
    ensures forall c :: c in s'.blocked <==> OnGrid(c) && Seen(es, c) >= 3
  {
    PoseFollows(es + [Event.Deliver], s');
    DeliveredSome(es);
    DeliverLast(es, Cell(0, 0));
    forall c ensures c in s'.blocked <==> OnGrid(c) && Seen(es, c) >= 3 {
      BlockedAreScanned(es + [Event.Deliver], s', c);
      DeliverLast(es, c);
    }
  }

  lemma {:induction false} DeliveredSome(es: seq<Event>)
    ensures Deliveries(es + [Event.Deliver]) == Deliveries(es) + 1
  {
    if es == [] {
      assert [Event.Deliver][1..] == [];
    } else {
      assert (es + [Event.Deliver])[1..] == es[1..] + [Event.Deliver];
      DeliveredSome(es[1..]);
    }
  }

  /** The wire's first words are the pose of the update. */
  lemma DecodedPose(wire: seq<int>)
    requires Decode(wire).Decoded?
    ensures |wire| >= HEADER && Decode(wire).update.pose == Cell(wire[0], wire[1])
  {
  }

  /** The planner takes the next update of a run of the whole system. Its map and its pose follow the run,
      and once the pipe is empty it searches for a route from where the robot was at the last scan, round
      exactly the cells into which three points or more of the scans fell. */
  method Deliver(p: Planner.Planner, wire: seq<int>, ghost es: seq<Event>, ghost s: System)
    returns (rest: seq<int>, planned: bool, solution: bool, nulled: bool)
    requires Run(START, es, s) && wire == s.wire && wire != []
    requires p.Valid() && p.chart.size == GRID_NUM && p.chart.sentCount <= RECV_ENTRIES
    requires p.chart.Blocked() == s.blocked && p.pose == s.pose
    requires p.chart.Fits(wire) && p.Replans(wire) ==> Contained(p.Updated(wire)) && Metric(p.d)
    modifies p, p.chart, p.chart.blocked, p.chart.obsX, p.chart.obsY, p.goalPath
    ensures p.Valid() && p.chart.sentCount <= RECV_ENTRIES
    ensures Enabled(s, Event.Deliver) && Run(START, es + [Event.Deliver], Step(s, Event.Deliver))
    ensures rest == Step(s, Event.Deliver).wire && p.chart.Blocked() == Step(s, Event.Deliver).blocked
    ensures p.pose == Step(s, Event.Deliver).pose
    ensures rest == [] ==> Poses(es) != [] && p.pose == Gridify(Poses(es)[|Poses(es)| - 1])
    ensures rest == [] ==> forall c :: c in p.chart.Blocked() <==> OnGrid(c) && Seen(es, c) >= 3
    ensures planned ==> p.World().blocked == p.chart.Blocked() && p.World().start == p.pose
    ensures planned ==> (nulled <==> Crashes(p.World())) && (solution <==> Reachable(p.World(), p.World().goal))
    ensures planned && solution ==> Planner.Spells(p.goalPath.items, p.heap, p.World())
  {
    UpdateFits(es, s, p.chart);
    DecodedPose(wire);
    RunThen(START, es, s, Event.Deliver);
    ghost var reached;
    rest, planned, solution, nulled, reached := p.HandleUpdate(wire);
    if rest == [] {
      Arrived(es, Step(s, Event.Deliver));
    }
  }
}

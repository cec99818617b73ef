/** How often a key is written and a message counted. */
module Uniqueness {
  import opened Alignment
  import opened Delivery
  import opened Events
  import opened Lanes
  import opened Offsets
  import opened Protocol
  import opened Tallies
  import opened TimeSources
  import opened Windows
  import opened WindowRuns

  // ------------------------------------------------------------------
  // Arrival time: a key is written at most once
  // ------------------------------------------------------------------

  /** Along the writes of one partition the window starts strictly increase. */
  ghost predicate OrderedKeys(trace: seq<Emission>) {
    forall i, j :: 0 <= i < j < |trace| && trace[i].partition == trace[j].partition ==>
      trace[i].slice.windowStart < trace[j].slice.windowStart
  }

  /** Every later write of a partition is newer than every earlier one. */
  ghost predicate Newer(earlier: seq<Emission>, later: seq<Emission>) {
    forall e, x :: e in earlier && x in later && e.partition == x.partition ==>
      e.slice.windowStart < x.slice.windowStart
  }

  /** Everything written for the partition lies at or before the lane's last emission. */
  ghost predicate WrittenUpTo(trace: seq<Emission>, p: int, lane: Lane) {
    lane.manager.emittedThrough.Some? ==>
      forall e :: e in trace && e.partition == p ==> e.slice.windowStart <= Emitted(lane)
  }

  /** Everything written for a partition closed before the clock's own window. */
  ghost predicate BehindClock(w: World, clock: map<int, real>, trace: seq<Emission>)
    requires w.cfg.size > 0
  {
    forall e :: e in trace ==>
      e.partition in clock && e.slice.windowStart + w.cfg.size <= Align(w.cfg.size, clock[e.partition])
  }

  ghost predicate ReplicaKeys(w: World, c: Cluster, rep: Replica)
    requires w.cfg.size > 0
  {
    && (forall p :: p in rep.lanes ==> WrittenUpTo(InView(c, rep), p, rep.lanes[p]))
    && (rep.stage.Popped? ==>
          && OrderedKeys(rep.stage.entries) && Newer(c.trace, rep.stage.entries)
          && BehindClock(w, c.clock, rep.stage.entries)
          && forall e :: e in rep.stage.entries ==> e.partition in rep.lanes)
  }

  ghost predicate KeysInv(w: World, c: Cluster)
    requires w.cfg.size > 0
  {
    && OrderedKeys(c.trace) && BehindClock(w, c.clock, c.trace)
    && forall r :: r in c.replicas ==> ReplicaKeys(w, c, c.replicas[r])
  }

  lemma OrderedKeysConcat(a: seq<Emission>, b: seq<Emission>)
    requires OrderedKeys(a) && OrderedKeys(b) && Newer(a, b)
    ensures OrderedKeys(a + b)
  {
    var t := a + b;
    forall i, j | 0 <= i < j < |t| && t[i].partition == t[j].partition
      ensures t[i].slice.windowStart < t[j].slice.windowStart
    {
      if i < |a| <= j {
        assert t[i] in a && t[j] in b;
      }
    }
  }

  ghost predicate Ascending(slices: seq<Slice>) {
    forall i, j :: 0 <= i < j < |slices| ==> slices[i].windowStart < slices[j].windowStart
  }

  ghost predicate AllAscend(w: World, lanes: map<int, Lane>, now: real)
    requires Sized(w, lanes)
  {
    forall p :: p in lanes ==> Ascending(LaneSlices(w.cfg, w.source, lanes[p], now))
  }

  lemma {:induction false} CollectOrdered(w: World, lanes: map<int, Lane>, order: seq<int>, now: real)
    requires Sized(w, lanes)
    requires forall i, j :: 0 <= i < j < |order| ==> order[i] != order[j]
    requires AllAscend(w, lanes, now)
    ensures OrderedKeys(Collect(w, lanes, order, now))
  {
    hide LaneSlices, Sized, CountBelow;
    if order != [] {
      var p, before := order[|order| - 1], order[..|order| - 1];
      CollectOrdered(w, lanes, before, now);
      if p in lanes {
        SizedLane(w, lanes, p);
        var prior := Collect(w, lanes, before, now);
        var tagged := TagAll(p, lanes[p], LaneSlices(w.cfg, w.source, lanes[p], now));
        forall e | e in prior ensures e.partition in before {
          var q, j := CollectOnly(w, lanes, before, now, e);
        }
        assert p !in before;
        assert forall x :: x in tagged ==> x.partition == p;
        OrderedKeysConcat(prior, tagged);
      }
    }
  }

  // --- polling ---

  lemma {:induction false} IngestEmits(cfg: Settings, lane: Lane, events: seq<Event>, arrival: real)
    requires cfg.size > 0
    ensures var after := IngestAll(cfg, ARRIVAL, lane, events, arrival);
      lane.manager.emittedThrough.None? && after.manager.emittedThrough.Some? ==>
        Emitted(after) == Align(cfg.size, arrival) - cfg.size
  {
    OneSource();
    hide Align, Count;
    if events != [] {
      IngestEmits(cfg, lane, events[..|events| - 1], arrival);
    }
  }

  lemma PollKeys(w: World, c: Cluster, a: Action)
    requires Inv(w, c) && KeysInv(w, c) && a.Poll? && Enabled(w, c, a) && w.source == ARRIVAL
    ensures ReplicaKeys(w, Next(w, c, a), Advance(w, c, a))
  {
    hide LaneInv, PartitionInv, EmissionOk, Sized, Align, IngestAll, OrderedKeys, Newer;
    var rep, after, done := c.replicas[a.r], Next(w, c, a), Advance(w, c, a);
    forall p | p in done.lanes ensures WrittenUpTo(c.trace, p, done.lanes[p]) {
      if p in a.counts {
        var lane := LaneAt(c, rep, p);
        var events := Records(w.logs[p], lane, a.counts[p]);
        IngestAllShape(w.cfg, w.source, lane, events, a.arrival);
        IngestEmits(w.cfg, lane, events, a.arrival);
        AlignMonotone(w.cfg.size, c.clock[p], a.arrival);
      }
    }
  }

  lemma ClockBehind(w: World, c: Cluster, a: Action, trace: seq<Emission>)
    requires Shaped(w, c) && BehindClock(w, c.clock, trace) && Enabled(w, c, a) && w.source == ARRIVAL
    ensures BehindClock(w, Next(w, c, a).clock, trace)
  {
    hide Align, Sized, Lists, PollFits;
    var after := Next(w, c, a);
    forall e | e in trace
      ensures e.partition in after.clock
              && e.slice.windowStart + w.cfg.size <= Align(w.cfg.size, after.clock[e.partition])
    {
      AlignMonotone(w.cfg.size, c.clock[e.partition], after.clock[e.partition]);
    }
  }

  // --- closing windows ---

  lemma LaneAscends(w: World, c: Cluster, rep: Replica, p: int)
    requires ReplicaInv(w, c, rep) && rep.stage.Polled? && p in rep.lanes && p in rep.owned && w.source == ARRIVAL
    requires w.cfg.size > 0 && Windows.AllSized(w.cfg, rep.lanes[p].manager.windows)
    ensures var out, after := LaneSlices(w.cfg, w.source, rep.lanes[p], rep.stage.arrival),
                              PopLane(w.cfg, w.source, rep.lanes[p], rep.stage.arrival);
      && Ascending(out)
      && (forall i :: 0 <= i < |out| ==>
            && rep.lanes[p].manager.emittedThrough.Some? && after.manager.emittedThrough.Some?
            && Emitted(rep.lanes[p]) < out[i].windowStart <= Emitted(after)
            && out[i].windowStart + w.cfg.size <= Align(w.cfg.size, c.clock[p]))
      && (after.manager.emittedThrough.Some? ==>
            rep.lanes[p].manager.emittedThrough.Some? && Emitted(rep.lanes[p]) <= Emitted(after))
  {
    hide LaneMode, EmissionOk, LastOffsets, Routing.Grouped, PopSlices, NewestClosed, Due, ClosedDurable;
    var lane, now := rep.lanes[p], rep.stage.arrival;
    assert LaneInv(w, c, rep, p);
    PopAscends(w.cfg, w.logs[p], c.committed[p], lane, now);
    NewestIsBehind(w.cfg, now);
  }

  lemma PopAscends(cfg: Settings, log: Log, committed: nat, lane: Lane, now: real)
    requires LaneOk(cfg, log, committed, committed, lane, true) && Windows.AllSized(cfg, lane.manager.windows)
    ensures var out, after := PopSlices(cfg, lane.manager, now), PopState(cfg, lane.manager, now);
      && Ascending(out)
      && (out != [] ==> lane.manager.emittedThrough.Some? && after.emittedThrough == Some(NewestClosed(cfg, now)))
      && (forall i :: 0 <= i < |out| ==> Emitted(lane) < out[i].windowStart <= NewestClosed(cfg, now))
      && (after.emittedThrough.Some? ==>
            lane.manager.emittedThrough.Some? && Emitted(lane) <= after.emittedThrough.value)
  {
    hide LastOffsets, NewestClosed, Aligned;
    var m := lane.manager;
    PopKeepsOrder(cfg, log, committed, committed, lane, now);
    PopEmits(cfg, m, now);
    if Due(cfg, m, now) {
      EmitBounds(cfg, m, now);
      ChainAligned(cfg.size, EmitAfter(cfg, m, now), PopSlices(cfg, m, now), NewestClosed(cfg, now));
    }
  }

  lemma LanesAscend(w: World, c: Cluster, rep: Replica)
    requires ReplicaInv(w, c, rep) && rep.stage.Polled? && rep.lanes.Keys <= rep.owned && w.source == ARRIVAL
    requires Sized(w, rep.lanes)
    ensures AllAscend(w, rep.lanes, rep.stage.arrival)
  {
    hide LaneInv, LaneSlices, PopLane, Align, Ascending;
    forall p | p in rep.lanes
      ensures Ascending(LaneSlices(w.cfg, w.source, rep.lanes[p], rep.stage.arrival))
    {
      LaneAscends(w, c, rep, p);
    }
  }

  /** Everything in flight is newer than what is written, and no newer than its lane. */
  lemma FlightIsNewer(w: World, c: Cluster, a: Action, x: Emission)
    requires Inv(w, c) && KeysInv(w, c) && a.Pop? && Enabled(w, c, a) && w.source == ARRIVAL
    requires x in Collect(w, c.replicas[a.r].lanes, c.replicas[a.r].order, c.replicas[a.r].stage.arrival)
    ensures var done := Advance(w, c, a);
      && x.partition in done.lanes && x.partition in c.clock
      && x.slice.windowStart + w.cfg.size <= Align(w.cfg.size, c.clock[x.partition])
      && done.lanes[x.partition].manager.emittedThrough.Some?
      && x.slice.windowStart <= Emitted(done.lanes[x.partition])
      && forall e :: e in c.trace && e.partition == x.partition ==> e.slice.windowStart < x.slice.windowStart
  {
    hide PartitionInv, EmissionOk, LaneSlices, PopLane, Align, LaneInv, Sized, CountBelow, OrderedKeys, BehindClock;
    var rep := c.replicas[a.r];
    var p, j := CollectOnly(w, rep.lanes, rep.order, rep.stage.arrival, x);
    SizedLane(w, rep.lanes, p);
    LaneAscends(w, c, rep, p);
    assert WrittenUpTo(c.trace, p, rep.lanes[p]);
  }

  lemma PopKeys(w: World, c: Cluster, a: Action)
    requires Inv(w, c) && KeysInv(w, c) && a.Pop? && Enabled(w, c, a) && w.source == ARRIVAL
    ensures ReplicaKeys(w, Next(w, c, a), Advance(w, c, a))
  {
    hide PartitionInv, EmissionOk, LaneSlices, PopLane, Align, LaneInv, Sized, Discarded, Collect, OrderedKeys;
    var rep, done := c.replicas[a.r], Advance(w, c, a);
    var now := rep.stage.arrival;
    var entries := Collect(w, rep.lanes, rep.order, now);
    LanesAscend(w, c, rep);
    CollectOrdered(w, rep.lanes, rep.order, now);
    forall x | x in entries
      ensures x.partition in done.lanes && x.partition in c.clock
      ensures x.slice.windowStart + w.cfg.size <= Align(w.cfg.size, c.clock[x.partition])
      ensures done.lanes[x.partition].manager.emittedThrough.Some?
              && x.slice.windowStart <= Emitted(done.lanes[x.partition])
      ensures forall e :: e in c.trace && e.partition == x.partition ==> e.slice.windowStart < x.slice.windowStart
    {
      FlightIsNewer(w, c, a, x);
    }
    forall p | p in done.lanes ensures WrittenUpTo(c.trace + entries, p, done.lanes[p]) {
      SizedLane(w, rep.lanes, p);
      LaneAscends(w, c, rep, p);
      assert WrittenUpTo(c.trace, p, rep.lanes[p]);
    }
    assert entries == [] ==> c.trace + entries == c.trace;
  }

  // --- every step ---

  lemma BystanderKeys(w: World, c: Cluster, after: Cluster, rep: Replica)
    requires w.cfg.size > 0 && ReplicaKeys(w, c, rep)
    requires rep.stage.Popped? ==> BehindClock(w, after.clock, rep.stage.entries)
    requires c.trace <= after.trace
    requires forall e :: e in after.trace && e.partition in rep.lanes ==> e in c.trace
    ensures ReplicaKeys(w, after, rep)
  {
    hide OrderedKeys, BehindClock;
    assert forall e :: e in c.trace ==> e in after.trace;
  }

  lemma NextKeepsKeys(w: World, c: Cluster, a: Action)
    requires Inv(w, c) && KeysInv(w, c) && w.source == ARRIVAL
    ensures KeysInv(w, Next(w, c, a))
  {
    hide ReplicaInv, PartitionInv, AllOk, Sized, OrderedKeys, Newer, BehindClock, WrittenUpTo, ReplicaKeys, Lists;
    if Enabled(w, c, a) {
      var after := Next(w, c, a);
      ClockBehind(w, c, a, c.trace);
      PersistOrders(w, c, a);
      forall r | r in after.replicas ensures ReplicaKeys(w, after, after.replicas[r]) {
        if r != a.r {
          OthersUntouched(w, c, a, r);
        } else {
          ActorKeys(w, c, a);
        }
      }
    }
  }

  lemma PersistOrders(w: World, c: Cluster, a: Action)
    requires Inv(w, c) && KeysInv(w, c) && w.source == ARRIVAL && Enabled(w, c, a)
    ensures OrderedKeys(Next(w, c, a).trace) && BehindClock(w, Next(w, c, a).clock, Next(w, c, a).trace)
  {
    hide ReplicaInv, PartitionInv, AllOk, Sized, OrderedKeys, Newer, WrittenUpTo, Lists, Align;
    ClockBehind(w, c, a, c.trace);
    if a.Persist? {
      var rep := c.replicas[a.r];
      assert ReplicaKeys(w, c, rep);
      OrderedKeysConcat(c.trace, rep.stage.entries);
    }
  }

  lemma OthersUntouched(w: World, c: Cluster, a: Action, r: int)
    requires Inv(w, c) && KeysInv(w, c) && w.source == ARRIVAL && Enabled(w, c, a)
    requires r in Next(w, c, a).replicas && r != a.r
    ensures ReplicaKeys(w, Next(w, c, a), Next(w, c, a).replicas[r])
  {
    hide ReplicaInv, PartitionInv, AllOk, Sized, OrderedKeys, Newer, WrittenUpTo, Lists, BehindClock, PollFits;
    var after, rep := Next(w, c, a), c.replicas[r];
    assert ReplicaKeys(w, c, rep);
    if rep.stage.Popped? { ClockBehind(w, c, a, rep.stage.entries); }
    if a.Persist? {
      assert ReplicaKeys(w, c, c.replicas[a.r]);
      assert rep.owned !! c.replicas[a.r].owned;
    }
    BystanderKeys(w, c, after, rep);
  }

  lemma ActorKeys(w: World, c: Cluster, a: Action)
    requires Inv(w, c) && KeysInv(w, c) && w.source == ARRIVAL && Enabled(w, c, a) && !a.Crash?
    ensures a.r in Next(w, c, a).replicas && ReplicaKeys(w, Next(w, c, a), Next(w, c, a).replicas[a.r])
  {
    hide ReplicaInv, PartitionInv, AllOk, Sized, OrderedKeys, Newer, Lists, BehindClock, PollFits;
    if a.Poll? {
      PollKeys(w, c, a);
    } else if a.Pop? {
      PopKeys(w, c, a);
    } else if !a.Join? {
      var rep, done := c.replicas[a.r], Advance(w, c, a);
      assert ReplicaKeys(w, c, rep);
      forall p | p in done.lanes ensures WrittenUpTo(Next(w, c, a).trace, p, done.lanes[p]) {
        assert WrittenUpTo(InView(c, rep), p, rep.lanes[p]);
      }
    }
  }

  lemma {:induction false} RunKeepsKeys(w: World, actions: seq<Action>)
    requires ValidWorld(w) && w.source == ARRIVAL
    ensures KeysInv(w, Run(w, actions))
  {
    hide Inv, Next, KeysInv;
    if actions == [] {
      assert KeysInv(w, Initial(w)) by { NothingWrittenYet(w); }
    } else {
      var before := actions[..|actions| - 1];
      RunKeeps(w, before);
      RunKeepsKeys(w, before);
      NextKeepsKeys(w, Run(w, before), actions[|actions| - 1]);
    }
  }

  lemma NothingWrittenYet(w: World)
    requires w.cfg.size > 0
    ensures KeysInv(w, Initial(w))
  {
  }

  /**
   * Arrival time, any crashes: over all incarnations the starts written for a partition strictly increase, so no
   * (window, partition) key is written twice and a replay never overwrites an earlier summary.
   */
  lemma KeysAreWrittenOnce(w: World, actions: seq<Action>, i: nat, j: nat)
    requires ValidWorld(w) && w.source == ARRIVAL && i < j < |Run(w, actions).trace|
    requires Run(w, actions).trace[i].partition == Run(w, actions).trace[j].partition
    ensures Run(w, actions).trace[i].slice.windowStart < Run(w, actions).trace[j].slice.windowStart
  {
    RunKeepsKeys(w, actions);
  }
}

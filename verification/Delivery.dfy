/** What every reachable state of the protocol satisfies: the invariant, and that each step keeps it. */
module Delivery {
  import opened Alignment
  import opened Events
  import opened Lanes
  import opened Offsets
  import opened Protocol
  import opened Tallies
  import opened TimeSources
  import opened Windows

  /** Arrival time on any logs, or event time on window-monotone ones. */
  ghost predicate ValidWorld(w: World) {
    && Usable(w.cfg) && w.origins.Keys == w.logs.Keys
    && (forall p :: p in w.logs ==> w.origins[p] <= |w.logs[p]|)
    && (w.source == ARRIVAL || (w.source == EVENT && forall p :: p in w.logs ==> WindowMonotone(w.cfg, w.logs[p])))
  }

  /** A write of an aligned window that counts exactly a range of its log; in event time, all of its window. */
  ghost predicate EmissionOk(w: World, e: Emission) {
    && w.cfg.size > 0 && e.partition in w.logs && e.partition in w.origins
    && Aligned(w.cfg.size, e.slice.windowStart)
    && Counts(w.cfg, w.logs[e.partition], e) && w.origins[e.partition] <= e.lo
    && (w.source == EVENT ==> WholeWindow(w.cfg, w.logs[e.partition], w.origins[e.partition], e))
  }

  ghost predicate AllOk(w: World, trace: seq<Emission>) {
    forall e :: e in trace ==> EmissionOk(w, e)
  }

  ghost predicate Covers(e: Emission, p: int, i: int) {
    e.partition == p && e.lo <= i < e.hi
  }

  /** Message `i` of partition `p` is counted in a write, or was discarded by a resync. */
  ghost predicate Durable(trace: seq<Emission>, dropped: set<(int, int)>, p: int, i: int) {
    (p, i) in dropped || exists e :: e in trace && Covers(e, p, i)
  }

  /** What is written once the flush in progress has written its entries. */
  function InView(c: Cluster, rep: Replica): seq<Emission> {
    if rep.stage.Popped? then c.trace + rep.stage.entries else c.trace
  }

  function NextOf(c: Cluster, rep: Replica, p: int): nat
    requires p in c.committed
  {
    if rep.stage.Committing? && p in rep.stage.commits then rep.stage.commits[p] else c.committed[p]
  }

  /** The lane has emitted windows whose offsets are not released yet. */
  predicate Unsettled(rep: Replica, p: int) {
    (rep.stage.Popped? && p in rep.stage.through) || (rep.stage.Written? && p in rep.stage.through)
  }

  function ThroughOf(rep: Replica, p: int): int
    requires Unsettled(rep, p)
  {
    rep.stage.through[p]
  }

  ghost predicate ClosedDurable(trace: seq<Emission>, dropped: set<(int, int)>, p: int, lane: Lane) {
    lane.manager.emittedThrough.Some? ==>
      forall i :: 0 <= i < |lane.starts| && lane.starts[i] <= Emitted(lane) ==>
        Durable(trace, dropped, p, lane.base + i)
  }

  ghost predicate LaneInv(w: World, c: Cluster, rep: Replica, p: int)
    requires p in rep.lanes && p in c.committed && p in c.clock && p in w.logs && p in w.origins
  {
    var lane := rep.lanes[p];
    && w.origins[p] <= lane.base
    && LaneOk(w.cfg, w.logs[p], c.committed[p], NextOf(c, rep, p), lane, !Unsettled(rep, p))
    && LaneMode(w.cfg, w.source, w.logs[p], w.origins[p], c.clock[p], lane)
    && (Unsettled(rep, p) ==> lane.manager.emittedThrough == Some(ThroughOf(rep, p)))
    && ClosedDurable(InView(c, rep), c.dropped, p, lane)
  }

  ghost predicate ReplicaInv(w: World, c: Cluster, rep: Replica) {
    && c.committed.Keys == c.clock.Keys == w.logs.Keys == w.origins.Keys && rep.lanes.Keys <= w.logs.Keys
    && (forall p :: p in rep.lanes ==> LaneInv(w, c, rep, p))
    && (rep.stage.Popped? ==> AllOk(w, rep.stage.entries))
    && (rep.stage.Polled? ==> forall p :: p in rep.owned && p in c.clock ==> c.clock[p] == rep.stage.arrival)
  }

  ghost predicate PartitionInv(w: World, c: Cluster, p: int)
    requires p in w.logs && p in w.origins && p in c.committed && w.cfg.size > 0
  {
    && w.origins[p] <= c.committed[p] <= |w.logs[p]|
    && (w.source == EVENT ==> Boundary(w.cfg, w.logs[p], w.origins[p], c.committed[p]))
    && forall i :: w.origins[p] <= i < c.committed[p] ==> Durable(c.trace, c.dropped, p, i)
  }

  ghost predicate Inv(w: World, c: Cluster) {
    && ValidWorld(w) && Shaped(w, c)
    && (forall p :: p in w.logs ==> PartitionInv(w, c, p))
    && (forall q, r :: q in c.replicas && r in c.replicas && q != r ==> c.replicas[q].owned !! c.replicas[r].owned)
    && (forall r :: r in c.replicas ==> ReplicaInv(w, c, c.replicas[r]))
    && AllOk(w, c.trace)
  }

  // ------------------------------------------------------------------
  // Bystanders
  // ------------------------------------------------------------------

  /** A replica's invariant survives anything that leaves its own partitions' offsets and clocks alone. */
  lemma BystanderKeeps(w: World, c: Cluster, after: Cluster, rep: Replica)
    requires ReplicaInv(w, c, rep) && rep.lanes.Keys <= rep.owned
    requires after.committed.Keys == c.committed.Keys && after.clock.Keys == c.clock.Keys
    requires forall p :: p in rep.owned && p in c.committed ==>
      after.committed[p] == c.committed[p] && after.clock[p] == c.clock[p]
    requires c.trace <= after.trace && c.dropped <= after.dropped
    ensures ReplicaInv(w, after, rep)
  {
    hide LaneOk, LaneMode, EmissionOk;
    forall p | p in rep.lanes ensures LaneInv(w, after, rep, p) {
      assert LaneInv(w, c, rep, p);
      assert NextOf(after, rep, p) == NextOf(c, rep, p);
      ClosedDurableGrows(InView(c, rep), InView(after, rep), c.dropped, after.dropped, p, rep.lanes[p]);
    }
  }

  lemma ClosedDurableGrows(trace: seq<Emission>, more: seq<Emission>, dropped: set<(int, int)>,
                           droppedMore: set<(int, int)>, p: int, lane: Lane)
    requires ClosedDurable(trace, dropped, p, lane)
    requires (forall e :: e in trace ==> e in more) && dropped <= droppedMore
    ensures ClosedDurable(more, droppedMore, p, lane)
  {
    hide Covers;
  }

  lemma PartitionGrows(w: World, c: Cluster, after: Cluster, p: int)
    requires w.cfg.size > 0 && p in w.logs && p in w.origins && p in c.committed && PartitionInv(w, c, p)
    requires p in after.committed && after.committed[p] == c.committed[p]
    requires c.trace <= after.trace && c.dropped <= after.dropped
    ensures PartitionInv(w, after, p)
  {
    hide Covers, Boundary;
    assert forall e :: e in c.trace ==> e in after.trace;
    forall i | w.origins[p] <= i < c.committed[p] ensures Durable(after.trace, after.dropped, p, i) {
      assert Durable(c.trace, c.dropped, p, i);
    }
  }

  // ------------------------------------------------------------------
  // Poll
  // ------------------------------------------------------------------

  /** The lane a poll extends is settled, and in order for the new arrival time. */
  lemma LaneBeforePoll(w: World, c: Cluster, a: Action, p: int)
    requires Inv(w, c) && a.Poll? && Enabled(w, c, a) && p in c.replicas[a.r].owned
    ensures p in w.logs && p in w.origins && p in c.committed
    ensures var lane := LaneAt(c, c.replicas[a.r], p);
      && w.origins[p] <= lane.base && w.cfg.size > 0
      && LaneOk(w.cfg, w.logs[p], c.committed[p], c.committed[p], lane, true)
      && LaneMode(w.cfg, w.source, w.logs[p], w.origins[p], a.arrival, lane)
      && ClosedDurable(c.trace, c.dropped, p, lane)
  {
    hide LaneOk, LaneMode, Covers, EmissionOk, Sized, AllOk, Boundary, Lists;
    var rep := c.replicas[a.r];
    var log, origin, committed := w.logs[p], w.origins[p], c.committed[p];
    assert PartitionInv(w, c, p);
    if p in rep.lanes {
      assert LaneInv(w, c, rep, p);
    } else {
      NewLaneOk(w.cfg, log, committed);
      NewLaneMode(w.cfg, w.source, log, origin, c.clock[p], committed);
    }
    LaterClock(w.cfg, w.source, log, origin, c.clock[p], a.arrival, LaneAt(c, rep, p));
  }

  lemma PolledLaneKeeps(w: World, c: Cluster, a: Action, p: int)
    requires Inv(w, c) && a.Poll? && Enabled(w, c, a) && p in Advance(w, c, a).lanes
    ensures p in w.logs && p in Next(w, c, a).clock
    ensures LaneInv(w, Next(w, c, a), Advance(w, c, a), p)
  {
    hide LaneOk, LaneMode, Durable, ReplicaInv, PartitionInv, Sized, AllOk, ClosedDurable, Lists;
    var rep, committed := c.replicas[a.r], c.committed[p];
    LaneBeforePoll(w, c, a, p);
    if p in a.counts {
      var lane, log := LaneAt(c, rep, p), w.logs[p];
      var events := Records(log, lane, a.counts[p]);
      IngestAllKeeps(w.cfg, w.source, log, w.origins[p], committed, committed, lane, a.arrival, events);
      IngestAllShape(w.cfg, w.source, lane, events, a.arrival);
      ConsumedClosedDurable(w.cfg, log, committed, lane, IngestAll(w.cfg, w.source, lane, events, a.arrival),
                            c.trace, c.dropped, p);
    }
  }

  /** Consuming more closes nothing. */
  lemma ConsumedClosedDurable(cfg: Settings, log: Log, committed: nat, lane: Lane, after: Lane,
                              trace: seq<Emission>, dropped: set<(int, int)>, p: int)
    requires LaneOk(cfg, log, committed, committed, lane, true) && LaneOk(cfg, log, committed, committed, after, true)
    requires after.base == lane.base && lane.starts <= after.starts
    requires lane.manager.emittedThrough.Some? ==> after.manager.emittedThrough == lane.manager.emittedThrough
    requires ClosedDurable(trace, dropped, p, lane)
    ensures ClosedDurable(trace, dropped, p, after)
  {
    hide Routing.Grouped, LastOffsets, Durable;
    forall i | 0 <= i < |after.starts| && after.starts[i] <= Emitted(after)
      ensures Durable(trace, dropped, p, after.base + i)
    {
      assert i < committed - lane.base;
      assert lane.starts[i] == after.starts[i];
    }
  }

  lemma PollKeeps(w: World, c: Cluster, a: Action)
    requires Inv(w, c) && a.Poll? && Enabled(w, c, a)
    ensures ReplicaInv(w, Next(w, c, a), Advance(w, c, a))
  {
    hide LaneInv, AllOk;
    forall p | p in Advance(w, c, a).lanes ensures LaneInv(w, Next(w, c, a), Advance(w, c, a), p) {
      PolledLaneKeeps(w, c, a, p);
    }
  }

  // ------------------------------------------------------------------
  // Pop
  // ------------------------------------------------------------------

  lemma {:induction false} CollectHas(w: World, lanes: map<int, Lane>, order: seq<int>, now: real, p: int, j: nat)
    requires Sized(w, lanes) && p in order && p in lanes
    requires j < |LaneSlices(w.cfg, w.source, lanes[p], now)|
    ensures Tag(p, lanes[p], LaneSlices(w.cfg, w.source, lanes[p], now)[j]) in Collect(w, lanes, order, now)
  {
    hide LaneSlices, Tag, Sized;
    var last, before := order[|order| - 1], order[..|order| - 1];
    SizedLane(w, lanes, p);
    if last == p {
      var tagged := TagAll(p, lanes[p], LaneSlices(w.cfg, w.source, lanes[p], now));
      assert tagged[j] in tagged;
    } else {
      assert p in before;
      CollectHas(w, lanes, before, now, p, j);
    }
  }

  lemma {:induction false} CollectOnly(w: World, lanes: map<int, Lane>, order: seq<int>, now: real, e: Emission)
    returns (p: int, j: nat)
    requires Sized(w, lanes) && e in Collect(w, lanes, order, now)
    ensures p in lanes && p in order && j < |LaneSlices(w.cfg, w.source, lanes[p], now)|
    ensures e == Tag(p, lanes[p], LaneSlices(w.cfg, w.source, lanes[p], now)[j])
  {
    hide LaneSlices, Tag, Sized;
    var last, before := order[|order| - 1], order[..|order| - 1];
    if last in lanes { SizedLane(w, lanes, last); }
    if e in Collect(w, lanes, before, now) {
      p, j := CollectOnly(w, lanes, before, now, e);
    } else {
      p := last;
      var tagged := TagAll(p, lanes[p], LaneSlices(w.cfg, w.source, lanes[p], now));
      j :| 0 <= j < |tagged| && tagged[j] == e;
    }
  }

  /** Everything one lane emits in a flush is sound. */
  lemma LaneEmitsOk(w: World, c: Cluster, r: int, p: int, j: nat)
    requires Inv(w, c) && r in c.replicas && c.replicas[r].stage.Polled? && p in c.replicas[r].lanes
    requires j < |LaneSlices(w.cfg, w.source, c.replicas[r].lanes[p], c.replicas[r].stage.arrival)|
    ensures EmissionOk(w, Tag(p, c.replicas[r].lanes[p],
      LaneSlices(w.cfg, w.source, c.replicas[r].lanes[p], c.replicas[r].stage.arrival)[j]))
  {
    var rep := c.replicas[r];
    assert LaneInv(w, c, rep, p);
    LaneEmits(w.cfg, w.source, w.logs[p], w.origins[p], c.committed[p], c.committed[p], rep.lanes[p], c.clock[p], p, j);
  }

  lemma LaneEmits(cfg: Settings, source: string, log: Log, origin: nat, committed: nat, next: nat, lane: Lane,
                  now: real, p: int, j: nat)
    requires LaneOk(cfg, log, committed, next, lane, true) && LaneMode(cfg, source, log, origin, now, lane)
    requires origin <= lane.base && Windows.AllSized(cfg, lane.manager.windows)
    requires j < |LaneSlices(cfg, source, lane, now)|
    ensures var e := Tag(p, lane, LaneSlices(cfg, source, lane, now)[j]);
      && Counts(cfg, log, e) && origin <= e.lo && Aligned(cfg.size, e.slice.windowStart)
      && (source == EVENT ==> WholeWindow(cfg, log, origin, e))
  {
    hide LaneOk, LaneMode, WholeWindow, Counts, PopSlices, Due, Aligned;
    LaneBasics(cfg, log, committed, next, lane);
    var clock := Clock(source, lane.manager, now).value;
    var out := PopSlices(cfg, lane.manager, clock);
    PopKeepsOrder(cfg, log, committed, next, lane, clock);
    TaggedCount(cfg, log, lane, p, out);
    if source == EVENT {
      ModeIsEvent(cfg, source, log, origin, now, lane);
      NewestIsBehind(cfg, clock);
      WatermarkInLast(cfg, log, origin, lane);
      EmissionIsWhole(cfg, log, origin, committed, next, lane, p, out[j]);
    }
  }

  lemma LaneBasics(cfg: Settings, log: Log, committed: nat, next: nat, lane: Lane)
    requires LaneOk(cfg, log, committed, next, lane, true)
    ensures Usable(cfg) && NonDecreasing(lane.starts) && Position(lane) <= |log|
    ensures lane.starts == [] ==> lane.manager == FRESH
  {
  }

  lemma WatermarkInLast(cfg: Settings, log: Log, origin: nat, lane: Lane)
    requires EventLane(cfg, log, origin, lane)
    ensures lane.starts != [] ==>
      lane.manager.maxTs.Some? && Align(cfg.size, lane.manager.maxTs.value) == lane.starts[|lane.starts| - 1]
  {
  }

  /** What a flush closes in one lane is counted by its entries or discarded. */
  lemma ClosedByFlush(w: World, c: Cluster, r: int, p: int, i: nat)
    requires Inv(w, c) && r in c.replicas && c.replicas[r].stage.Polled? && p in c.replicas[r].lanes
    requires p in c.committed && c.committed[p] - c.replicas[r].lanes[p].base <= i
    requires var rep := c.replicas[r];
      var after := PopLane(w.cfg, w.source, rep.lanes[p], rep.stage.arrival);
      i < |after.starts| && after.manager.emittedThrough.Some? && after.starts[i] <= Emitted(after)
    ensures var rep := c.replicas[r];
      Durable(Collect(w, rep.lanes, rep.order, rep.stage.arrival),
              Discarded(w, rep.lanes, rep.stage.arrival), p, rep.lanes[p].base + i)
  {
    hide LaneMode, EmissionOk, AllOk, Sized, LastOffsets, Routing.Grouped, Aligned, LaneSlices, Tag;
    var rep := c.replicas[r];
    var lane, now, committed := rep.lanes[p], rep.stage.arrival, c.committed[p];
    assert LaneInv(w, c, rep, p);
    assert LaneOk(w.cfg, w.logs[p], committed, committed, lane, true);
    SizedLane(w, rep.lanes, p);
    var j := LaneCloses(w.cfg, w.source, w.logs[p], committed, lane, now, i);
    if lane.starts[i] in LaneDropped(w.cfg, w.source, lane, now) {
      assert (p, lane.base + i) in Discarded(w, rep.lanes, now);
    } else {
      var slice := LaneSlices(w.cfg, w.source, lane, now)[j];
      CollectHas(w, rep.lanes, rep.order, now, p, j);
      TagCovers(lane, p, slice, i);
      TagPartition(lane, p, slice);
      assert Covers(Tag(p, lane, slice), p, lane.base + i);
    }
  }

  lemma PoppedClosedDurable(w: World, c: Cluster, r: int, p: int, i: nat)
    requires Inv(w, c) && r in c.replicas && c.replicas[r].stage.Polled? && p in c.replicas[r].lanes
    requires var rep := c.replicas[r];
      var after := PopLane(w.cfg, w.source, rep.lanes[p], rep.stage.arrival);
      i < |after.starts| && after.manager.emittedThrough.Some? && after.starts[i] <= Emitted(after)
    ensures var rep := c.replicas[r];
      Durable(c.trace + Collect(w, rep.lanes, rep.order, rep.stage.arrival),
              c.dropped + Discarded(w, rep.lanes, rep.stage.arrival), p, rep.lanes[p].base + i)
  {
    hide LaneMode, EmissionOk, AllOk, Sized, LastOffsets, Routing.Grouped, PopState, Collect, Discarded, Covers;
    var rep := c.replicas[r];
    var lane := rep.lanes[p];
    assert LaneInv(w, c, rep, p);
    if i < c.committed[p] - lane.base {
      assert LaneOk(w.cfg, w.logs[p], c.committed[p], c.committed[p], lane, true);
      assert lane.starts[i] <= Emitted(lane);
      assert Durable(c.trace, c.dropped, p, lane.base + i);
    } else {
      ClosedByFlush(w, c, r, p, i);
    }
  }

  lemma TagPartition(lane: Lane, p: int, slice: Slice)
    ensures Tag(p, lane, slice).partition == p && Tag(p, lane, slice).slice == slice
  {
  }

  lemma LaneCloses(cfg: Settings, source: string, log: Log, committed: nat, lane: Lane, now: real, i: nat)
    returns (j: nat)
    requires LaneOk(cfg, log, committed, committed, lane, true) && Windows.AllSized(cfg, lane.manager.windows)
    requires var after := PopLane(cfg, source, lane, now);
      && after.manager.emittedThrough.Some?
      && committed - lane.base <= i < |lane.starts| && lane.starts[i] <= Emitted(after)
    ensures lane.starts[i] in LaneDropped(cfg, source, lane, now) ||
      (j < |LaneSlices(cfg, source, lane, now)| && LaneSlices(cfg, source, lane, now)[j].windowStart == lane.starts[i])
  {
    hide Routing.Grouped, LastOffsets, PopSlices, Dropped, NewestClosed;
    var clock := Clock(source, lane.manager, now);
    assert clock.Some? && Due(cfg, lane.manager, clock.value);
    j := ClosedIsCounted(cfg, log, committed, committed, lane, clock.value, i);
  }

  lemma PoppedLaneKeeps(w: World, c: Cluster, a: Action, p: int)
    requires Inv(w, c) && a.Pop? && Enabled(w, c, a) && p in Advance(w, c, a).lanes
    ensures p in w.logs && LaneInv(w, Next(w, c, a), Advance(w, c, a), p)
  {
    hide LaneOk, LaneMode, EmissionOk, AllOk, Sized, Covers, Boundary, LaneSlices, PopLane, Collect, Discarded,
      PartitionInv;
    var rep, after, done := c.replicas[a.r], Next(w, c, a), Advance(w, c, a);
    var now := rep.stage.arrival;
    var lane, popped := rep.lanes[p], done.lanes[p];
    var entries := Collect(w, rep.lanes, rep.order, now);
    assert LaneInv(w, c, rep, p);
    SizedLane(w, rep.lanes, p);
    PopKeepsMode(w.cfg, w.source, w.logs[p], w.origins[p], c.committed[p], c.committed[p], lane, now);
    LaneSettles(w.cfg, w.source, w.logs[p], c.committed[p], lane, now);
    if LaneSlices(w.cfg, w.source, lane, now) != [] {
      CollectHas(w, rep.lanes, rep.order, now, p, 0);
      assert entries != [];
    }
    forall i | popped.manager.emittedThrough.Some? && 0 <= i < |popped.starts| && popped.starts[i] <= Emitted(popped)
      ensures Durable(c.trace + entries, after.dropped, p, popped.base + i)
    {
      PoppedClosedDurable(w, c, a.r, p, i);
    }
    assert entries == [] ==> c.trace + entries == c.trace;
  }

  /** A lane that emits nothing is unchanged; one that emits stands at its last summary. */
  lemma LaneSettles(cfg: Settings, source: string, log: Log, committed: nat, lane: Lane, now: real)
    requires LaneOk(cfg, log, committed, committed, lane, true) && Windows.AllSized(cfg, lane.manager.windows)
    ensures var out, after := LaneSlices(cfg, source, lane, now), PopLane(cfg, source, lane, now);
      && after.base == lane.base && after.starts == lane.starts
      && if out == [] then after == lane
         else after.manager.emittedThrough == Some(out[|out| - 1].windowStart)
  {
    hide LaneOk, PopSlices, PopState, NewestClosed, Due;
    var clock := Clock(source, lane.manager, now);
    if clock.Some? {
      LaneBasics(cfg, log, committed, committed, lane);
      PopKeepsOrder(cfg, log, committed, committed, lane, clock.value);
      PopMoves(cfg, lane.manager, clock.value);
    }
  }

  lemma PopKeeps(w: World, c: Cluster, a: Action)
    requires Inv(w, c) && a.Pop? && Enabled(w, c, a)
    ensures ReplicaInv(w, Next(w, c, a), Advance(w, c, a))
  {
    hide LaneInv, EmissionOk, LaneSlices, Tag;
    var rep := c.replicas[a.r];
    forall p | p in Advance(w, c, a).lanes ensures LaneInv(w, Next(w, c, a), Advance(w, c, a), p) {
      PoppedLaneKeeps(w, c, a, p);
    }
    forall e | e in Collect(w, rep.lanes, rep.order, rep.stage.arrival) ensures EmissionOk(w, e) {
      var p, j := CollectOnly(w, rep.lanes, rep.order, rep.stage.arrival, e);
      LaneEmitsOk(w, c, a.r, p, j);
    }
  }

  // ------------------------------------------------------------------
  // Persist, Release, Commit
  // ------------------------------------------------------------------

  lemma PersistKeeps(w: World, c: Cluster, a: Action)
    requires Inv(w, c) && a.Persist? && Enabled(w, c, a)
    ensures ReplicaInv(w, Next(w, c, a), Advance(w, c, a)) && AllOk(w, Next(w, c, a).trace)
  {
    hide LaneOk, LaneMode, EmissionOk, Sized, Durable, PartitionInv;
    var rep, after, done := c.replicas[a.r], Next(w, c, a), Advance(w, c, a);
    forall p | p in done.lanes ensures LaneInv(w, after, done, p) {
      assert LaneInv(w, c, rep, p);
    }
  }

  lemma ReleasedLaneKeeps(w: World, c: Cluster, a: Action, p: int)
    requires Inv(w, c) && a.Release? && Enabled(w, c, a) && p in Advance(w, c, a).lanes
    ensures p in w.logs && LaneInv(w, Next(w, c, a), Advance(w, c, a), p)
  {
    hide LaneOk, EmissionOk, AllOk, Sized, Durable, PartitionInv, Released;
    var rep, after, done := c.replicas[a.r], Next(w, c, a), Advance(w, c, a);
    var lane, through := rep.lanes[p], rep.stage.through;
    assert LaneInv(w, c, rep, p);
    if p in through {
      ReleaseKeepsOrder(w.cfg, w.logs[p], c.committed[p], c.committed[p], lane);
      assert NextOf(after, done, p) == NextAfter(lane, Emitted(lane), c.committed[p]);
      ReleaseKeepsMode(w.cfg, w.source, w.logs[p], w.origins[p], c.clock[p], lane, Emitted(lane));
    } else {
      assert NextOf(after, done, p) == c.committed[p];
    }
  }

  lemma ReleaseKeepsMode(cfg: Settings, source: string, log: Log, origin: nat, clock: real, lane: Lane, through: int)
    requires LaneMode(cfg, source, log, origin, clock, lane)
    ensures LaneMode(cfg, source, log, origin, clock, ReleaseLane(lane, through))
  {
    hide WindowMonotone, Boundary, Align, Remaining;
  }

  lemma ReleaseKeeps(w: World, c: Cluster, a: Action)
    requires Inv(w, c) && a.Release? && Enabled(w, c, a)
    ensures ReplicaInv(w, Next(w, c, a), Advance(w, c, a))
  {
    hide LaneInv, EmissionOk;
    forall p | p in Advance(w, c, a).lanes ensures LaneInv(w, Next(w, c, a), Advance(w, c, a), p) {
      ReleasedLaneKeeps(w, c, a, p);
    }
  }

  /** Committing moves the group to where the released lane already stood. */
  lemma CommittedLaneKeeps(w: World, c: Cluster, a: Action, p: int)
    requires Inv(w, c) && a.Commit? && Enabled(w, c, a) && p in Advance(w, c, a).lanes
    ensures p in w.logs && p in Next(w, c, a).committed
    ensures LaneInv(w, Next(w, c, a), Advance(w, c, a), p) && PartitionInv(w, Next(w, c, a), p)
    ensures Next(w, c, a).committed[p] >= c.committed[p]
  {
    hide EmissionOk, AllOk, Sized, LaneOk, LaneMode, ClosedDurable, Boundary, Durable;
    var rep, after, done := c.replicas[a.r], Next(w, c, a), Advance(w, c, a);
    assert LaneInv(w, c, rep, p) && PartitionInv(w, c, p);
    assert after.committed[p] == NextOf(c, rep, p) == NextOf(after, done, p);
    LaneCommits(w, c, rep, p);
  }

  /** Everything a lane is about to commit is durable, and ends where a window does. */
  lemma LaneCommits(w: World, c: Cluster, rep: Replica, p: int)
    requires rep.stage.Committing? && p in rep.lanes && p in c.committed && p in c.clock
    requires p in w.logs && p in w.origins && w.cfg.size > 0 && LaneInv(w, c, rep, p) && PartitionInv(w, c, p)
    ensures var next := NextOf(c, rep, p);
      && c.committed[p] <= next <= |w.logs[p]|
      && LaneOk(w.cfg, w.logs[p], next, next, rep.lanes[p], true)
      && (w.source == EVENT ==> Boundary(w.cfg, w.logs[p], w.origins[p], next))
      && forall i :: w.origins[p] <= i < next ==> Durable(c.trace, c.dropped, p, i)
  {
    hide Durable, Routing.Grouped, LastOffsets, LaneMode, Boundary, Routing.Bucket, Routes;
    var lane, next := rep.lanes[p], NextOf(c, rep, p);
    if w.source == EVENT {
      ModeIsEvent(w.cfg, w.source, w.logs[p], w.origins[p], c.clock[p], lane);
      CommitIsBoundary(w.cfg, w.logs[p], w.origins[p], c.committed[p], next, lane);
    }
    forall i | c.committed[p] <= i < next ensures Durable(c.trace, c.dropped, p, i) {
      assert lane.starts[i - lane.base] <= Emitted(lane);
      assert Durable(c.trace, c.dropped, p, lane.base + (i - lane.base));
    }
  }

  lemma CommitKeeps(w: World, c: Cluster, a: Action)
    requires Inv(w, c) && a.Commit? && Enabled(w, c, a)
    ensures ReplicaInv(w, Next(w, c, a), Advance(w, c, a))
    ensures forall p :: p in w.logs ==> PartitionInv(w, Next(w, c, a), p)
  {
    hide LaneInv, PartitionInv, EmissionOk;
    var rep, after := c.replicas[a.r], Next(w, c, a);
    forall p | p in Advance(w, c, a).lanes ensures LaneInv(w, after, Advance(w, c, a), p) {
      CommittedLaneKeeps(w, c, a, p);
    }
    forall p | p in w.logs ensures PartitionInv(w, after, p) {
      if p in rep.stage.commits {
        CommittedLaneKeeps(w, c, a, p);
      } else {
        PartitionGrows(w, c, after, p);
      }
    }
  }

  // ------------------------------------------------------------------
  // Every step, every run
  // ------------------------------------------------------------------

  lemma InitiallyHolds(w: World)
    requires ValidWorld(w)
    ensures Inv(w, Initial(w))
  {
    hide WindowMonotone, StartOf;
  }

  lemma ActorKeeps(w: World, c: Cluster, a: Action)
    requires Inv(w, c) && Enabled(w, c, a) && !a.Join? && !a.Crash?
    ensures ReplicaInv(w, Next(w, c, a), Advance(w, c, a)) && AllOk(w, Next(w, c, a).trace)
    ensures forall p :: p in w.logs ==> PartitionInv(w, Next(w, c, a), p)
  {
    hide ReplicaInv, PartitionInv, AllOk;
    match a {
      case Poll(_, _, _, _) => PollKeeps(w, c, a);
      case Pop(_) => PopKeeps(w, c, a);
      case Persist(_) => PersistKeeps(w, c, a);
      case Release(_) => ReleaseKeeps(w, c, a);
      case Commit(_) => CommitKeeps(w, c, a);
    }
    if !a.Commit? {
      forall p | p in w.logs ensures PartitionInv(w, Next(w, c, a), p) {
        PartitionGrows(w, c, Next(w, c, a), p);
      }
    }
  }

  lemma NextKeeps(w: World, c: Cluster, a: Action)
    requires Inv(w, c)
    ensures Inv(w, Next(w, c, a))
  {
    hide ReplicaInv, PartitionInv, AllOk, Shaped, ValidWorld;
    var after := Next(w, c, a);
    NextKeepsShape(w, c, a);
    if Enabled(w, c, a) {
      ShapeOf(w, c);
      if a.Join? {
        NewcomerOk(w, c, a.owned);
      } else if !a.Crash? {
        ActorKeeps(w, c, a);
      }
      forall r | r in after.replicas ensures ReplicaInv(w, after, after.replicas[r]) {
        if r != a.r {
          BystanderUnaffected(w, c, a, r);
        } else if a.Join? {
          BystanderKeeps(w, c, after, after.replicas[r]);
        }
      }
      if a.Join? || a.Crash? {
        forall p | p in w.logs ensures PartitionInv(w, after, p) { PartitionGrows(w, c, after, p); }
      }
      forall q, r | q in after.replicas && r in after.replicas && q != r
        ensures after.replicas[q].owned !! after.replicas[r].owned
      {
        OwnedIsFixed(w, c, a, q);
        OwnedIsFixed(w, c, a, r);
      }
    }
  }

  lemma ShapeOf(w: World, c: Cluster)
    requires ValidWorld(w) && Shaped(w, c)
    ensures w.cfg.size > 0 && w.origins.Keys == w.logs.Keys
    ensures c.committed.Keys == c.clock.Keys == w.logs.Keys
    ensures forall r :: r in c.replicas ==> c.replicas[r].lanes.Keys <= c.replicas[r].owned <= w.logs.Keys
  {
  }

  lemma NewcomerOk(w: World, c: Cluster, owned: set<int>)
    requires Inv(w, c)
    ensures ReplicaInv(w, c, Replica(owned, [], map[], Idle))
  {
    hide PartitionInv;
  }

  lemma OwnedIsFixed(w: World, c: Cluster, a: Action, r: int)
    requires Shaped(w, c) && Enabled(w, c, a) && r in Next(w, c, a).replicas
    ensures if r in c.replicas then Next(w, c, a).replicas[r].owned == c.replicas[r].owned
            else a.Join? && a.r == r && Next(w, c, a).replicas[r].owned == a.owned
  {
  }

  lemma BystanderUnaffected(w: World, c: Cluster, a: Action, r: int)
    requires Inv(w, c) && Enabled(w, c, a) && r in Next(w, c, a).replicas && r != a.r
    ensures ReplicaInv(w, Next(w, c, a), Next(w, c, a).replicas[r])
  {
    hide ReplicaInv, PartitionInv, AllOk, Sized, ValidWorld;
    var after, rep := Next(w, c, a), c.replicas[r];
    NextKeepsShape(w, c, a);
    if a.r in c.replicas {
      assert rep.owned !! c.replicas[a.r].owned;
    }
    BystanderKeeps(w, c, after, rep);
  }

  ghost predicate Started(w: World) {
    w.cfg.size > 0 && w.origins.Keys == w.logs.Keys
  }

  ghost function Run(w: World, actions: seq<Action>): (c: Cluster)
    requires Started(w)
    ensures Shaped(w, c)
  {
    if actions == [] then Initial(w)
    else
      var before := Run(w, actions[..|actions| - 1]);
      NextKeepsShape(w, before, actions[|actions| - 1]);
      Next(w, before, actions[|actions| - 1])
  }

  lemma RunSnoc(w: World, run: seq<Action>, a: Action)
    requires Started(w)
    ensures Run(w, run + [a]) == Next(w, Run(w, run), a)
  {
    assert (run + [a])[..|run|] == run;
  }

  lemma {:induction false} RunKeeps(w: World, actions: seq<Action>)
    requires ValidWorld(w)
    ensures Inv(w, Run(w, actions))
  {
    hide Inv, Next;
    if actions == [] {
      InitiallyHolds(w);
    } else {
      RunKeeps(w, actions[..|actions| - 1]);
      NextKeeps(w, Run(w, actions[..|actions| - 1]), actions[|actions| - 1]);
    }
  }
}

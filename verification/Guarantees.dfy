/** What the protocol promises in every reachable state, with crashes and takeovers at any step. */
module Guarantees {
  import opened Alignment
  import opened Delivery
  import opened Events
  import opened Lanes
  import opened Offsets
  import opened Protocol
  import opened Routing
  import opened Sets
  import opened Tallies
  import opened TimeSources
  import opened Windows

  // ------------------------------------------------------------------
  // Effectively-once windows in event time
  // ------------------------------------------------------------------

  /** The messages of one window, by their own clocks, in log order. */
  function OwnEvents(cfg: Settings, log: Log, start: int): seq<Event>
    requires cfg.size > 0
  {
    if log == [] then []
    else
      var last, prior := log[|log| - 1], OwnEvents(cfg, log[..|log| - 1], start);
      if StartOf(cfg, last) == start then prior + [last] else prior
  }

  lemma {:induction false} OwnEventsAreRange(cfg: Settings, log: Log, origin: nat, start: int, lo: nat, hi: nat, n: nat)
    requires cfg.size > 0 && origin <= lo <= hi <= n <= |log|
    requires forall i :: origin <= i < n ==> (StartOf(cfg, log[i]) == start <==> lo <= i < hi)
    ensures OwnEvents(cfg, log[origin..n], start) == log[lo..hi]
  {
    hide StartOf, OwnEvents;
    if n == origin {
      NoOwnEvents(cfg, start);
    } else {
      OwnEventsStep(cfg, log, origin, n, start);
      if hi < n {
        OwnEventsAreRange(cfg, log, origin, start, lo, hi, n - 1);
      } else if lo < hi {
        OwnEventsAreRange(cfg, log, origin, start, lo, hi - 1, n - 1);
        assert log[lo..hi - 1] + [log[n - 1]] == log[lo..hi];
      } else {
        OwnEventsAreRange(cfg, log, origin, start, n - 1, n - 1, n - 1);
      }
    }
  }

  lemma NoOwnEvents(cfg: Settings, start: int)
    requires cfg.size > 0
    ensures OwnEvents(cfg, [], start) == []
  {
  }

  lemma OwnEventsStep(cfg: Settings, log: Log, origin: nat, n: nat, start: int)
    requires cfg.size > 0 && origin < n <= |log|
    ensures OwnEvents(cfg, log[origin..n], start)
            == OwnEvents(cfg, log[origin..n - 1], start)
               + if StartOf(cfg, log[n - 1]) == start then [log[n - 1]] else []
  {
    hide StartOf;
    assert log[origin..n][..n - origin - 1] == log[origin..n - 1];
  }

  /** The one summary a window of a partition can have: the fold of all its messages since the group began. */
  function TrueSlice(w: World, p: int, start: int): (s: Slice)
    requires w.cfg.size > 0 && p in w.logs && p in w.origins && w.origins[p] <= |w.logs[p]|
    ensures s.windowStart == start
  {
    Snapshot(TallyOf(start, w.cfg.size, OwnEvents(w.cfg, w.logs[p][w.origins[p]..], start)))
  }

  lemma EmissionIsTrue(w: World, e: Emission)
    requires EmissionOk(w, e) && w.source == EVENT && w.origins[e.partition] <= |w.logs[e.partition]|
    ensures e.slice == TrueSlice(w, e.partition, e.slice.windowStart)
  {
    hide StartOf, Snapshot;
    var log, origin := w.logs[e.partition], w.origins[e.partition];
    OwnEventsAreRange(w.cfg, log, origin, e.slice.windowStart, e.lo, e.hi, |log|);
    assert log[origin..|log|] == log[origin..];
  }

  /**
   * Event time, any crashes: every summary ever written, by any incarnation, is the complete one. No write is partial,
   * and a replay rewrites the identical value.
   */
  lemma EveryWriteIsComplete(w: World, actions: seq<Action>)
    requires ValidWorld(w) && w.source == EVENT
    ensures forall e :: e in Run(w, actions).trace ==>
      e.partition in w.logs && e.slice == TrueSlice(w, e.partition, e.slice.windowStart)
  {
    RunKeeps(w, actions);
    forall e | e in Run(w, actions).trace
      ensures e.partition in w.logs && e.slice == TrueSlice(w, e.partition, e.slice.windowStart)
    {
      EmissionIsTrue(w, e);
    }
  }

  /**
   * Event time, by the payload alone: a write counts a message if and only if the message's own clock lies in the
   * write's window.
   */
  lemma WritesFollowThePayload(w: World, actions: seq<Action>, e: Emission, i: nat)
    requires ValidWorld(w) && w.source == "event" && e in Run(w, actions).trace
    requires e.partition in w.logs && w.origins[e.partition] <= i < |w.logs[e.partition]|
    ensures var clock, start := w.logs[e.partition][i].timestamp, e.slice.windowStart;
      clock.Some? && (e.lo <= i < e.hi <==> start as real <= clock.value < (start + w.cfg.size) as real)
  {
    hide Run, LaneOk, Align, Aligned, ReplicaInv, PartitionInv, Sized, Lists, Counts;
    RunKeeps(w, actions);
    assert EmissionOk(w, e);
    var log := w.logs[e.partition];
    assert Stamped(log[i]);
    AlignBounds(w.cfg.size, log[i].timestamp.value);
    assert StartOf(w.cfg, log[i]) == Align(w.cfg.size, log[i].timestamp.value);
    AlignedApart(w.cfg.size, e.slice.windowStart, StartOf(w.cfg, log[i]));
    AlignedApart(w.cfg.size, StartOf(w.cfg, log[i]), e.slice.windowStart);
  }

  // ------------------------------------------------------------------
  // Nothing is lost
  // ------------------------------------------------------------------

  /** Either time source: a committed message is counted in a durable write, or a resync discarded it. */
  lemma CommittedIsDurable(w: World, actions: seq<Action>, p: int, i: int)
    requires ValidWorld(w) && p in w.logs
    requires w.origins[p] <= i < Run(w, actions).committed[p]
    ensures var c := Run(w, actions);
      (p, i) in c.dropped || exists e :: e in c.trace && Covers(e, p, i)
  {
    hide Covers, LaneInv, EmissionOk, Boundary;
    var c := Run(w, actions);
    RunKeeps(w, actions);
    assert PartitionInv(w, c, p);
    assert Durable(c.trace, c.dropped, p, i);
  }

  /** Each write holds exactly the messages it covers, so a covered message is counted there once. */
  lemma CoverIsCounted(w: World, actions: seq<Action>, e: Emission)
    requires ValidWorld(w) && e in Run(w, actions).trace
    ensures e.partition in w.logs && w.origins[e.partition] <= e.lo <= e.hi <= |w.logs[e.partition]|
    ensures e.slice == Snapshot(TallyOf(e.slice.windowStart, w.cfg.size, w.logs[e.partition][e.lo..e.hi]))
    ensures e.slice.totalEdits == e.hi - e.lo
  {
    RunKeeps(w, actions);
    assert EmissionOk(w, e);
  }

  /** Event time without resync losses: every window with a committed message has been written, complete. */
  lemma CommittedWindowIsWritten(w: World, actions: seq<Action>, p: int, i: int)
    requires ValidWorld(w) && w.source == EVENT && p in w.logs
    requires w.origins[p] <= i < Run(w, actions).committed[p] && (p, i) !in Run(w, actions).dropped
    ensures i < |w.logs[p]|
    ensures exists e :: e in Run(w, actions).trace && e.partition == p
                        && e.slice == TrueSlice(w, p, StartOf(w.cfg, w.logs[p][i]))
  {
    var c := Run(w, actions);
    RunKeeps(w, actions);
    assert PartitionInv(w, c, p);
    CommittedIsDurable(w, actions, p, i);
    var e :| e in c.trace && Covers(e, p, i);
    assert EmissionOk(w, e);
    EmissionIsTrue(w, e);
    assert e.slice.windowStart == StartOf(w.cfg, w.logs[p][i]);
  }

  /** A flush discards messages exactly when some lane resynchronises past one of its open windows. */
  lemma DiscardsOnlyAtResync(w: World, actions: seq<Action>, r: int)
    requires ValidWorld(w) && r in Run(w, actions).replicas && Run(w, actions).replicas[r].stage.Polled?
    ensures var rep := Run(w, actions).replicas[r];
      Discarded(w, rep.lanes, rep.stage.arrival) == {} <==>
      forall p :: p in rep.lanes ==> LaneDropped(w.cfg, w.source, rep.lanes[p], rep.stage.arrival).Keys == {}
  {
    hide LaneDropped, ReplicaInv, PartitionInv, Sized, Lists, Discarded, AllOk;
    var c := Run(w, actions);
    var rep := c.replicas[r];
    RunKeeps(w, actions);
    forall p | p in rep.lanes && LaneDropped(w.cfg, w.source, rep.lanes[p], rep.stage.arrival).Keys != {}
      ensures Discarded(w, rep.lanes, rep.stage.arrival) != {}
    {
      SomethingDropped(w, c, rep, p);
    }
    NothingDropped(w, rep.lanes, rep.stage.arrival);
  }

  lemma SomethingDropped(w: World, c: Cluster, rep: Replica, p: int)
    requires ReplicaInv(w, c, rep) && rep.stage.Polled? && p in rep.lanes && w.cfg.size > 0
    requires LaneDropped(w.cfg, w.source, rep.lanes[p], rep.stage.arrival).Keys != {}
    ensures Discarded(w, rep.lanes, rep.stage.arrival) != {}
  {
    hide LaneDropped, LaneInv, EmissionOk;
    var k := Pick(LaneDropped(w.cfg, w.source, rep.lanes[p], rep.stage.arrival).Keys);
    var i := DroppedMessage(w, c, rep, p, k);
    assert (p, rep.lanes[p].base + i) in Discarded(w, rep.lanes, rep.stage.arrival);
  }

  lemma NothingDropped(w: World, lanes: map<int, Lane>, now: real)
    requires w.cfg.size > 0
    ensures (forall p :: p in lanes ==> LaneDropped(w.cfg, w.source, lanes[p], now).Keys == {}) ==>
      Discarded(w, lanes, now) == {}
  {
    hide LaneDropped;
  }

  /** A window a resync drops holds at least one message. */
  lemma DroppedMessage(w: World, c: Cluster, rep: Replica, p: int, k: int) returns (i: nat)
    requires ReplicaInv(w, c, rep) && rep.stage.Polled? && p in rep.lanes && w.cfg.size > 0
    requires k in LaneDropped(w.cfg, w.source, rep.lanes[p], rep.stage.arrival)
    ensures i < |rep.lanes[p].starts| && rep.lanes[p].starts[i] == k
  {
    hide LaneDropped, LaneMode, EmissionOk, LastOffsets;
    var lane := rep.lanes[p];
    assert LaneInv(w, c, rep, p);
    DroppedWasOpen(w.cfg, w.source, lane, rep.stage.arrival, k);
    i := OpenHasMessage(w.cfg, w.logs[p], c.committed[p], NextOf(c, rep, p), lane, k);
  }

  lemma OpenHasMessage(cfg: Settings, log: Log, committed: nat, next: nat, lane: Lane, k: int) returns (i: nat)
    requires LaneOk(cfg, log, committed, next, lane, true) && k in lane.manager.windows
    ensures i < |lane.starts| && lane.starts[i] == k
  {
    hide LastOffsets;
    var routes := Routes(log, lane.base, lane.starts);
    BucketEmpty(routes, k);
    i :| 0 <= i < |routes| && routes[i].start == k;
  }

  lemma DroppedWasOpen(cfg: Settings, source: string, lane: Lane, now: real, k: int)
    requires cfg.size > 0 && k in LaneDropped(cfg, source, lane, now)
    ensures k in lane.manager.windows
  {
  }

  // ------------------------------------------------------------------
  // Offsets and windows stay in step
  // ------------------------------------------------------------------

  /**
   * The consumed messages from the committed offset on are exactly those in open windows, and the pending offsets
   * are the last of each open window.
   */
  ghost predicate InStep(lane: Lane, committed: nat) {
    && lane.base <= committed <= Position(lane)
    && lane.pending.Keys == lane.manager.windows.Keys
    && (forall i :: 0 <= i < |lane.starts| ==>
          (lane.starts[i] in lane.manager.windows <==> lane.base + i >= committed))
    && (forall k :: k in lane.pending ==>
          committed <= lane.pending[k] < Position(lane) && lane.starts[lane.pending[k] - lane.base] == k)
    && (forall i :: 0 <= i < |lane.starts| && lane.starts[i] in lane.pending ==>
          lane.base + i <= lane.pending[lane.starts[i]])
  }

  /** Between flushes, offsets and windows are in step. */
  lemma FlushSettles(w: World, actions: seq<Action>, r: int, p: int)
    requires ValidWorld(w) && r in Run(w, actions).replicas
    requires Run(w, actions).replicas[r].stage.Idle? && p in Run(w, actions).replicas[r].lanes
    ensures p in w.logs && InStep(Run(w, actions).replicas[r].lanes[p], Run(w, actions).committed[p])
  {
    hide LaneMode, EmissionOk, AllOk, InStep, LaneOk, PartitionInv, ClosedDurable;
    var c := Run(w, actions);
    RunKeeps(w, actions);
    assert LaneInv(w, c, c.replicas[r], p);
    SettledLane(w.cfg, w.logs[p], c.committed[p], c.replicas[r].lanes[p]);
  }

  lemma SettledLane(cfg: Settings, log: Log, committed: nat, lane: Lane)
    requires LaneOk(cfg, log, committed, committed, lane, true)
    ensures InStep(lane, committed)
  {
    hide LaneOk;
    OpenArePending(cfg, log, committed, lane);
    OpenAreUncommitted(cfg, log, committed, lane);
    PendingInLane(cfg, log, committed, lane);
  }

  lemma OpenAreUncommitted(cfg: Settings, log: Log, committed: nat, lane: Lane)
    requires LaneOk(cfg, log, committed, committed, lane, true)
    ensures forall i :: 0 <= i < |lane.starts| ==>
      (lane.starts[i] in lane.manager.windows <==> lane.base + i >= committed)
  {
    hide Grouped, LastOffsets, Routes, Bucket;
    forall i | 0 <= i < |lane.starts| ensures lane.starts[i] in lane.manager.windows <==> lane.base + i >= committed {
      OpenIffUncommitted(cfg, log, committed, lane, lane.starts[i]);
    }
  }

  /** The offset pending for a window is the last uncommitted one of its messages. */
  lemma PendingInLane(cfg: Settings, log: Log, committed: nat, lane: Lane)
    requires LaneOk(cfg, log, committed, committed, lane, true)
    ensures lane.base <= committed <= Position(lane)
    ensures forall k :: k in lane.pending ==>
      committed <= lane.pending[k] < Position(lane) && lane.starts[lane.pending[k] - lane.base] == k
    ensures forall i :: 0 <= i < |lane.starts| && lane.starts[i] in lane.pending ==>
      lane.base + i <= lane.pending[lane.starts[i]]
  {
    hide Grouped, LastOffsets, Routes, Bucket, NonDecreasing;
    PendingOfTail(lane.pending, lane.base, lane.starts, committed - lane.base);
  }

  lemma PendingOfTail(p: Pending, base: nat, starts: seq<int>, cut: nat)
    requires cut <= |starts| && LastOffsets(p, base + cut, starts[cut..])
    ensures forall k :: k in p ==> base + cut <= p[k] < base + |starts| && starts[p[k] - base] == k
    ensures forall i :: 0 <= i < |starts| && starts[i] in p ==> base + i <= p[starts[i]]
  {
    hide LastOffsets;
    var tail := starts[cut..];
    PendingIsLast(p, base + cut, tail);
    forall k | k in p ensures starts[p[k] - base] == k {
      assert tail[p[k] - base - cut] == starts[p[k] - base];
    }
    forall i | cut <= i < |starts| ensures base + i <= p[starts[i]] {
      assert tail[i - cut] == starts[i];
    }
  }

  lemma OpenArePending(cfg: Settings, log: Log, committed: nat, lane: Lane)
    requires LaneOk(cfg, log, committed, committed, lane, true)
    ensures lane.pending.Keys == lane.manager.windows.Keys
  {
    hide Grouped, LastOffsets, Routes, Bucket;
    var cut := committed - lane.base;
    var open := lane.starts[cut..];
    PendingIsLast(lane.pending, committed, open);
    forall k ensures k in lane.pending <==> k in lane.manager.windows {
      OpenIffUncommitted(cfg, log, committed, lane, k);
      if i :| cut <= i < |lane.starts| && lane.starts[i] == k { assert open[i - cut] == k; }
    }
  }

  lemma PendingIsLast(p: Pending, base: nat, open: seq<int>)
    requires LastOffsets(p, base, open)
    ensures forall k :: k in p <==> exists i :: 0 <= i < |open| && open[i] == k
    ensures forall k :: k in p ==> base <= p[k] < base + |open| && open[p[k] - base] == k
    ensures forall i :: 0 <= i < |open| ==> base + i <= p[open[i]]
  {
  }

  lemma OpenIffUncommitted(cfg: Settings, log: Log, committed: nat, lane: Lane, k: int)
    requires LaneOk(cfg, log, committed, committed, lane, true)
    ensures k in lane.manager.windows <==>
      exists i :: committed - lane.base <= i < |lane.starts| && lane.starts[i] == k
  {
    hide LastOffsets;
    if k in lane.manager.windows {
      var i := OpenHasMessage(cfg, log, committed, committed, lane, k);
      assert k > Emitted(lane);
    } else if i :| committed - lane.base <= i < |lane.starts| && lane.starts[i] == k {
      var routes := Routes(log, lane.base, lane.starts);
      assert routes[i].start == k;
      BucketEmpty(routes, k);
    }
  }

  // ------------------------------------------------------------------
  // Offsets never go back, and no message is ever late
  // ------------------------------------------------------------------

  lemma StepNeverUncommits(w: World, c: Cluster, a: Action, p: int)
    requires Inv(w, c) && p in w.logs
    ensures p in Next(w, c, a).committed && Next(w, c, a).committed[p] >= c.committed[p]
  {
    hide EmissionOk, AllOk, PartitionInv;
    if a.Commit? && Enabled(w, c, a) && p in c.replicas[a.r].stage.commits {
      CommittedLaneKeeps(w, c, a, p);
    }
  }

  /** The committed offset never decreases, whoever commits and whoever crashes. */
  lemma {:induction false} CommittedNeverDecreases(w: World, actions: seq<Action>, n: nat, p: int)
    requires ValidWorld(w) && n <= |actions| && p in w.logs
    ensures Run(w, actions[..n]).committed[p] <= Run(w, actions).committed[p]
  {
    hide Inv, Next;
    if n == |actions| {
      assert actions[..n] == actions;
    } else {
      var before := actions[..|actions| - 1];
      assert before[..n] == actions[..n];
      CommittedNeverDecreases(w, before, n, p);
      RunKeeps(w, before);
      StepNeverUncommits(w, Run(w, before), actions[|actions| - 1], p);
    }
  }

  lemma {:induction false} IngestIsNeverLate(cfg: Settings, source: string, log: Log, origin: nat, committed: nat,
                                             lane: Lane, arrival: real, events: seq<Event>)
    requires cfg.size > 0
    requires LaneOk(cfg, log, committed, committed, lane, true) && LaneMode(cfg, source, log, origin, arrival, lane)
    requires Position(lane) + |events| <= |log| && events == log[Position(lane)..Position(lane) + |events|]
    ensures IngestAll(cfg, source, lane, events, arrival).manager.late == lane.manager.late
  {
    hide LaneMode, LaneOk, Ingest;
    if events != [] {
      var n := |events| - 1;
      IngestIsNeverLate(cfg, source, log, origin, committed, lane, arrival, events[..n]);
      IngestAllKeeps(cfg, source, log, origin, committed, committed, lane, arrival, events[..n]);
      IngestAllShape(cfg, source, lane, events[..n], arrival);
      assert events[n] == log[Position(lane) + n];
      OneIsNeverLate(cfg, source, log, origin, committed, IngestAll(cfg, source, lane, events[..n], arrival), arrival);
    }
  }

  lemma OneIsNeverLate(cfg: Settings, source: string, log: Log, origin: nat, committed: nat, lane: Lane, arrival: real)
    requires LaneOk(cfg, log, committed, committed, lane, true) && LaneMode(cfg, source, log, origin, arrival, lane)
    requires Position(lane) < |log|
    ensures Ingest(cfg, source, lane, log[Position(lane)], arrival).manager.late == lane.manager.late
  {
    hide Grouped, LastOffsets, Align;
    var e := log[Position(lane)];
    if source == EVENT {
      assert Stamped(e);
      assert Align(cfg.size, EventTimestamp(e, arrival, source)) == StartOf(cfg, e);
      if lane.starts != [] {
        assert StartOf(cfg, log[Position(lane) - 1]) <= StartOf(cfg, e);
      }
    }
  }

  /** In order, no polled message is late: the late count only moves at a resync. */
  lemma PollIsNeverLate(w: World, actions: seq<Action>, a: Action, p: int)
    requires ValidWorld(w) && a.Poll? && Enabled(w, Run(w, actions), a) && p in a.counts
    ensures var c := Run(w, actions);
      p in c.committed && p in Advance(w, c, a).lanes
      && Advance(w, c, a).lanes[p].manager.late == LaneAt(c, c.replicas[a.r], p).manager.late
  {
    hide LaneOk, LaneMode, ReplicaInv, PartitionInv, ClosedDurable, IngestAll, Run, Sized, AllOk, WindowMonotone;
    var c := Run(w, actions);
    RunKeeps(w, actions);
    LaneBeforePoll(w, c, a, p);
    var lane := LaneAt(c, c.replicas[a.r], p);
    IngestIsNeverLate(w.cfg, w.source, w.logs[p], w.origins[p], c.committed[p], lane, a.arrival,
                      Records(w.logs[p], lane, a.counts[p]));
  }
}

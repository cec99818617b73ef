/** Why a lane stays in order under each time source, and what its emissions then amount to. */
module TimeSources {
  import opened Alignment
  import opened Events
  import opened Lanes
  import opened Offsets
  import opened Routing
  import opened Tallies
  import opened Windows

  /** The window a message belongs to by its own clock. */
  function StartOf(cfg: Settings, e: Event): int
    requires cfg.size > 0
  {
    Align(cfg.size, EventTimestamp(e, 0.0, EVENT))
  }

  /** Every message carries a usable clock, and the windows never go backwards along the log. */
  ghost predicate WindowMonotone(cfg: Settings, log: Log) {
    && cfg.size > 0
    && (forall i :: 0 <= i < |log| ==> Stamped(log[i]))
    && (forall i, j :: 0 <= i < j < |log| ==> StartOf(cfg, log[i]) <= StartOf(cfg, log[j]))
  }

  /** No window has messages on both sides of `cut`. */
  ghost predicate Boundary(cfg: Settings, log: Log, origin: nat, cut: nat)
    requires cfg.size > 0
  {
    forall i, j :: origin <= i < cut <= j < |log| ==> StartOf(cfg, log[i]) < StartOf(cfg, log[j])
  }

  /** Event time: starts are the messages' own windows and the watermark sits in the last one, still open. */
  ghost predicate EventLane(cfg: Settings, log: Log, origin: nat, lane: Lane) {
    && cfg.size > 0 && origin <= lane.base && Position(lane) <= |log| && Boundary(cfg, log, origin, lane.base)
    && (forall i :: 0 <= i < |lane.starts| ==> lane.starts[i] == StartOf(cfg, log[lane.base + i]))
    && (lane.starts != [] ==>
          && lane.manager.maxTs.Some? && lane.manager.emittedThrough.Some?
          && Align(cfg.size, lane.manager.maxTs.value) == lane.starts[|lane.starts| - 1] > Emitted(lane))
  }

  /** Arrival time: everything counted lies at or before the clock's window, everything emitted before it. */
  ghost predicate ArrivalLane(cfg: Settings, clock: real, lane: Lane) {
    && cfg.size > 0
    && (forall i :: 0 <= i < |lane.starts| ==> lane.starts[i] <= Align(cfg.size, clock))
    && (lane.manager.emittedThrough.Some? ==> Emitted(lane) + cfg.size <= Align(cfg.size, clock))
  }

  ghost predicate LaneMode(cfg: Settings, source: string, log: Log, origin: nat, clock: real, lane: Lane) {
    || (source == EVENT && WindowMonotone(cfg, log) && EventLane(cfg, log, origin, lane))
    || (source == ARRIVAL && ArrivalLane(cfg, clock, lane))
  }

  lemma ModeIsEvent(cfg: Settings, source: string, log: Log, origin: nat, clock: real, lane: Lane)
    requires LaneMode(cfg, source, log, origin, clock, lane) && source == EVENT
    ensures WindowMonotone(cfg, log) && EventLane(cfg, log, origin, lane)
  {
    OneSource();
  }

  /** Arrival stamps follow the clock; event stamps do not look at it. */
  ghost predicate ClockMoves(source: string, clock: real, arrival: real) {
    source == ARRIVAL ==> clock <= arrival
  }

  lemma NewLaneMode(cfg: Settings, source: string, log: Log, origin: nat, clock: real, base: nat)
    requires cfg.size > 0 && origin <= base <= |log|
    requires source == ARRIVAL || (source == EVENT && WindowMonotone(cfg, log) && Boundary(cfg, log, origin, base))
    ensures LaneMode(cfg, source, log, origin, clock, NewLane(base))
  {
  }

  lemma LaterClock(cfg: Settings, source: string, log: Log, origin: nat, clock: real, arrival: real, lane: Lane)
    requires LaneMode(cfg, source, log, origin, clock, lane) && ClockMoves(source, clock, arrival)
    ensures LaneMode(cfg, source, log, origin, arrival, lane)
  {
    if source == ARRIVAL {
      AlignMonotone(cfg.size, clock, arrival);
    }
  }

  /** The next message falls at or after the last one's window, and after everything emitted. */
  lemma NextInOrder(cfg: Settings, source: string, log: Log, origin: nat, lane: Lane, arrival: real)
    requires LaneMode(cfg, source, log, origin, arrival, lane) && Position(lane) < |log|
    ensures InOrder(lane, Align(cfg.size, EventTimestamp(log[Position(lane)], arrival, source)))
    ensures source == EVENT ==>
      Align(cfg.size, EventTimestamp(log[Position(lane)], arrival, source)) == StartOf(cfg, log[Position(lane)])
  {
    hide Align, Boundary;
    var e := log[Position(lane)];
    if source == EVENT {
      assert Stamped(e);
      if lane.starts != [] {
        assert StartOf(cfg, log[Position(lane) - 1]) <= StartOf(cfg, e);
      }
    }
  }

  lemma EventIngestMode(cfg: Settings, log: Log, origin: nat, lane: Lane, arrival: real)
    requires EventLane(cfg, log, origin, lane) && WindowMonotone(cfg, log) && Position(lane) < |log|
    requires lane.starts == [] ==> lane.manager == FRESH
    ensures EventLane(cfg, log, origin, Ingest(cfg, EVENT, lane, log[Position(lane)], arrival))
  {
    hide Align, Boundary, Count, Noted, WindowMonotone;
    var e := log[Position(lane)];
    var ts := EventTimestamp(e, arrival, EVENT);
    assert LaneMode(cfg, EVENT, log, origin, arrival, lane);
    NextInOrder(cfg, EVENT, log, origin, lane, arrival);
    AddEmits(cfg, lane, e, ts);
    if lane.starts != [] && ts <= lane.manager.maxTs.value {
      AlignMonotone(cfg.size, ts, lane.manager.maxTs.value);
    }
  }

  lemma ArrivalIngestMode(cfg: Settings, log: Log, origin: nat, lane: Lane, e: Event, arrival: real)
    requires ArrivalLane(cfg, arrival, lane) && InOrder(lane, Align(cfg.size, arrival))
    requires lane.starts == [] ==> lane.manager == FRESH
    ensures ArrivalLane(cfg, arrival, Ingest(cfg, ARRIVAL, lane, e, arrival))
  {
    hide Align, Count, Noted;
    OneSource();
    AddEmits(cfg, lane, e, arrival);
  }

  /** One message keeps the lane in order under either time source. */
  lemma IngestKeeps(cfg: Settings, source: string, log: Log, origin: nat, committed: nat, next: nat, lane: Lane,
                    arrival: real)
    requires LaneOk(cfg, log, committed, next, lane, true) && LaneMode(cfg, source, log, origin, arrival, lane)
    requires Position(lane) < |log|
    ensures var after := Ingest(cfg, source, lane, log[Position(lane)], arrival);
      LaneOk(cfg, log, committed, next, after, true) && LaneMode(cfg, source, log, origin, arrival, after)
  {
    hide Ingest, EventLane, ArrivalLane, Grouped, LastOffsets, WindowMonotone, InOrder, Routes, Align;
    OneSource();
    NextInOrder(cfg, source, log, origin, lane, arrival);
    IngestKeepsOrder(cfg, source, log, committed, next, lane, arrival);
    if source == EVENT {
      EventIngestMode(cfg, log, origin, lane, arrival);
    } else {
      ArrivalIngestMode(cfg, log, origin, lane, log[Position(lane)], arrival);
    }
  }

  lemma IngestShape(cfg: Settings, source: string, lane: Lane, e: Event, arrival: real)
    requires cfg.size > 0
    ensures var after := Ingest(cfg, source, lane, e, arrival);
      && after.base == lane.base && Position(after) == Position(lane) + 1 && lane.starts <= after.starts
      && (lane.manager.emittedThrough.Some? ==> after.manager.emittedThrough == lane.manager.emittedThrough)
  {
  }

  lemma {:induction false} IngestAllShape(cfg: Settings, source: string, lane: Lane, events: seq<Event>, arrival: real)
    requires cfg.size > 0
    ensures var after := IngestAll(cfg, source, lane, events, arrival);
      && after.base == lane.base && Position(after) == Position(lane) + |events| && lane.starts <= after.starts
      && (lane.manager.emittedThrough.Some? ==> after.manager.emittedThrough == lane.manager.emittedThrough)
  {
    hide Ingest;
    if events != [] {
      var n := |events| - 1;
      IngestAllShape(cfg, source, lane, events[..n], arrival);
      IngestShape(cfg, source, IngestAll(cfg, source, lane, events[..n], arrival), events[n], arrival);
    }
  }

  /** Each message goes to the aligned window that contains its payload clock, or else its arrival. */
  lemma {:induction false} StartsContainStamps(cfg: Settings, source: string, lane: Lane, events: seq<Event>,
                                               arrival: real, i: nat)
    requires cfg.size > 0 && i < |events|
    ensures |IngestAll(cfg, source, lane, events, arrival).starts| == |lane.starts| + |events|
    ensures var start := IngestAll(cfg, source, lane, events, arrival).starts[|lane.starts| + i];
      var payload := events[i].timestamp;
      var stamp := if source == "event" && payload.Some? && payload.value > 0.0 then payload.value else arrival;
      Aligned(cfg.size, start) && start as real <= stamp < (start + cfg.size) as real
  {
    hide AddTo, Accepts, Align;
    var n := |events| - 1;
    IngestAllShape(cfg, source, lane, events[..n], arrival);
    if i < n {
      StartsContainStamps(cfg, source, lane, events[..n], arrival, i);
    } else {
      AlignBounds(cfg.size, EventTimestamp(events[n], arrival, source));
    }
  }

  lemma {:induction false} IngestAllKeeps(cfg: Settings, source: string, log: Log, origin: nat, committed: nat,
                                          next: nat, lane: Lane, arrival: real, events: seq<Event>)
    requires cfg.size > 0
    requires LaneOk(cfg, log, committed, next, lane, true) && LaneMode(cfg, source, log, origin, arrival, lane)
    requires Position(lane) + |events| <= |log| && events == log[Position(lane)..Position(lane) + |events|]
    ensures LaneOk(cfg, log, committed, next, IngestAll(cfg, source, lane, events, arrival), true)
    ensures LaneMode(cfg, source, log, origin, arrival, IngestAll(cfg, source, lane, events, arrival))
  {
    hide LaneMode, LaneOk, Ingest;
    if events != [] {
      var n := |events| - 1;
      IngestAllKeeps(cfg, source, log, origin, committed, next, lane, arrival, events[..n]);
      IngestAllShape(cfg, source, lane, events[..n], arrival);
      assert events[n] == log[Position(lane) + n];
      IngestKeeps(cfg, source, log, origin, committed, next,
                  IngestAll(cfg, source, lane, events[..n], arrival), arrival);
    }
  }

  // ------------------------------------------------------------------
  // Closing windows
  // ------------------------------------------------------------------

  /** Closing stays strictly behind the clock's own window. */
  lemma NewestIsBehind(cfg: Settings, now: real)
    requires Usable(cfg)
    ensures NewestClosed(cfg, now) + cfg.size <= Align(cfg.size, now)
  {
    AlignMonotone(cfg.size, now - cfg.grace, now);
  }

  lemma PopKeepsMode(cfg: Settings, source: string, log: Log, origin: nat, committed: nat, next: nat, lane: Lane,
                     now: real)
    requires LaneOk(cfg, log, committed, next, lane, true) && LaneMode(cfg, source, log, origin, now, lane)
    ensures var after := PopLane(cfg, source, lane, now);
      LaneOk(cfg, log, committed, next, after, false) && LaneMode(cfg, source, log, origin, now, after)
  {
    hide Grouped, LastOffsets, Align, WellFormed, WindowMonotone, EventLane, ArrivalLane, NewestClosed, Due,
      PopSlices, PopState;
    var clock := Clock(source, lane.manager, now);
    if clock.Some? {
      PopKeepsOrder(cfg, log, committed, next, lane, clock.value);
      NewestIsBehind(cfg, clock.value);
      PopMoves(cfg, lane.manager, clock.value);
      OneSource();
      if source == EVENT {
        EventPopMode(cfg, log, origin, lane, clock.value);
      } else {
        ArrivalPopMode(cfg, now, lane);
      }
    }
  }

  lemma PopMoves(cfg: Settings, m: Manager, now: real)
    requires cfg.size > 0
    ensures var after := PopState(cfg, m, now);
      && after.maxTs == m.maxTs
      && after.emittedThrough == if Due(cfg, m, now) then Some(NewestClosed(cfg, now)) else m.emittedThrough
  {
    hide NewestClosed, Dropped;
  }

  lemma EventPopMode(cfg: Settings, log: Log, origin: nat, lane: Lane, now: real)
    requires EventLane(cfg, log, origin, lane) && lane.manager.maxTs == Some(now)
    requires NewestClosed(cfg, now) + cfg.size <= Align(cfg.size, now)
    ensures EventLane(cfg, log, origin, lane.(manager := PopState(cfg, lane.manager, now)))
  {
    hide NewestClosed, Align, Boundary, StartOf, Dropped;
    PopMoves(cfg, lane.manager, now);
  }

  lemma ArrivalPopMode(cfg: Settings, now: real, lane: Lane)
    requires ArrivalLane(cfg, now, lane) && NewestClosed(cfg, now) + cfg.size <= Align(cfg.size, now)
    ensures ArrivalLane(cfg, now, lane.(manager := PopState(cfg, lane.manager, now)))
  {
    hide NewestClosed, Align, Dropped;
    PopMoves(cfg, lane.manager, now);
  }

  /** The emission counts exactly the messages of its window, wherever in the log they are. */
  ghost predicate WholeWindow(cfg: Settings, log: Log, origin: nat, e: Emission)
    requires cfg.size > 0
  {
    && e.hi <= |log|
    && forall i :: origin <= i < |log| ==> (StartOf(cfg, log[i]) == e.slice.windowStart <==> e.lo <= i < e.hi)
  }

  /** In event time nothing of an emitted window is still to come or was consumed before this incarnation. */
  lemma EmissionIsWhole(cfg: Settings, log: Log, origin: nat, committed: nat, next: nat, lane: Lane, p: int,
                        slice: Slice)
    requires LaneOk(cfg, log, committed, next, lane, true) && lane.starts != []
    requires WindowMonotone(cfg, log) && EventLane(cfg, log, origin, lane)
    requires Emitted(lane) < slice.windowStart < lane.starts[|lane.starts| - 1] && Aligned(cfg.size, slice.windowStart)
    ensures WholeWindow(cfg, log, origin, Tag(p, lane, slice))
  {
    hide Grouped, LastOffsets, Align, Aligned;
    var w, n := slice.windowStart, |lane.starts|;
    CountBelowCuts(lane.starts, w);
    CountBelowCuts(lane.starts, w + 1);
    assert Aligned(cfg.size, lane.starts[0]) by {
      assert lane.starts[0] == StartOf(cfg, log[lane.base]);
      AlignBounds(cfg.size, EventTimestamp(log[lane.base], 0.0, EVENT));
    }
    AlignedApart(cfg.size, w, lane.starts[0]);
    assert w >= lane.starts[0];
    forall i | origin <= i < |log|
      ensures StartOf(cfg, log[i]) == w <==> Tag(p, lane, slice).lo <= i < Tag(p, lane, slice).hi
    {
      if i < lane.base {
        assert StartOf(cfg, log[i]) < StartOf(cfg, log[lane.base]) == lane.starts[0];
      } else if i < lane.base + n {
        assert lane.starts[i - lane.base] == StartOf(cfg, log[i]);
        TagCovers(lane, p, slice, i - lane.base);
      } else {
        assert StartOf(cfg, log[lane.base + n - 1]) <= StartOf(cfg, log[i]);
        assert lane.starts[n - 1] == StartOf(cfg, log[lane.base + n - 1]);
      }
    }
  }

  /** A commit point of a settled event-time lane separates windows. */
  lemma CommitIsBoundary(cfg: Settings, log: Log, origin: nat, committed: nat, next: nat, lane: Lane)
    requires LaneOk(cfg, log, committed, next, lane, true)
    requires WindowMonotone(cfg, log) && EventLane(cfg, log, origin, lane)
    ensures Boundary(cfg, log, origin, next)
  {
    hide Grouped, LastOffsets, Align;
    var n := |lane.starts|;
    forall i, j | origin <= i < next <= j < |log| ensures StartOf(cfg, log[i]) < StartOf(cfg, log[j]) {
      if i >= lane.base {
        assert lane.starts[i - lane.base] == StartOf(cfg, log[i]);
        if j < lane.base + n {
          assert lane.starts[j - lane.base] == StartOf(cfg, log[j]);
        } else {
          assert lane.starts[n - 1] == StartOf(cfg, log[lane.base + n - 1]) <= StartOf(cfg, log[j]);
        }
      }
    }
  }
}

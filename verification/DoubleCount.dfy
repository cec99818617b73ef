/** A run of the protocol in arrival time that counts one message twice: a crash between a write and its commit. */
module DoubleCount {
  import opened Alignment
  import opened Counterexamples
  import opened Delivery
  import opened Events
  import opened ExactlyOnce
  import opened Lanes
  import opened Offsets
  import opened Protocol
  import opened Tallies
  import opened Windows

  /** One partition with one message. */
  function OneMessage(e: Event): World {
    World(CONFIG, ARRIVAL, map[0 := [e]], map[0 := 0], 0.0)
  }

  /** A replica joins, polls the message one second into a window, closes that window five seconds later, and writes. */
  function UpToTheWrite(r: int, k: int): seq<Action> {
    [Join(r, {0}), Poll(r, PollTime(k), map[0 := 1], [0]), Pop(r), Poll(r, CloseTime(k), map[], [0]), Pop(r),
     Persist(r)]
  }

  function PollTime(k: int): real { (Times(k, 5) + 1) as real }

  function CloseTime(k: int): real { (Times(k, 5) + 6) as real }

  /** The lane after that poll. */
  function Polled(e: Event, k: int): Lane {
    Ingest(CONFIG, ARRIVAL, NewLane(0), e, PollTime(k))
  }

  function Written(e: Event, k: int): Emission
  {
    Emission(0, Snapshot(TallyOf(Times(k, 5), 5, [e])), 0, 1)
  }

  lemma PolledLane(e: Event, k: int)
    ensures var lane := Polled(e, k);
      && lane.base == 0 && lane.starts == [Times(k, 5)]
      && lane.manager.windows == map[Times(k, 5) := TallyOf(Times(k, 5), 5, [e])]
      && lane.manager.emittedThrough == Some(Times(k, 5) - 5) && lane.pending == map[Times(k, 5) := 0]
      && WellFormed(CONFIG, lane.manager)
  {
    hide Align, Count;
    OneSource();
    AlignIs(PollTime(k), k);
    assert [e][..0] == [];
    FreshIsWellFormed(CONFIG);
    AddKeepsWellFormed(CONFIG, FRESH, e, PollTime(k));
  }

  /** At the poll's own time nothing is due. */
  lemma NothingDueYet(e: Event, k: int)
    ensures AllSized(CONFIG, Polled(e, k).manager.windows)
    ensures PopLane(CONFIG, ARRIVAL, Polled(e, k), PollTime(k)) == Polled(e, k)
    ensures LaneSlices(CONFIG, ARRIVAL, Polled(e, k), PollTime(k)) == []
    ensures LaneDropped(CONFIG, ARRIVAL, Polled(e, k), PollTime(k)) == map[]
  {
    hide Align, Ingest, WellFormed, TallyOf;
    PolledLane(e, k);
    AlignIs(PollTime(k) - CONFIG.grace, k);
  }

  /** Five seconds later exactly the message's window is. */
  lemma WindowDue(e: Event, k: int)
    ensures var lane := Polled(e, k);
      && AllSized(CONFIG, lane.manager.windows)
      && LaneDropped(CONFIG, ARRIVAL, lane, CloseTime(k)) == map[]
      && TagAll(0, lane, LaneSlices(CONFIG, ARRIVAL, lane, CloseTime(k))) == [Written(e, k)]
  {
    hide Align, Ingest, WellFormed, Snapshot, TallyOf;
    PolledLane(e, k);
    var lane := Polled(e, k);
    AlignIs(CloseTime(k) - CONFIG.grace, k + 1);
    OneWindowDue(lane.manager, CloseTime(k), Times(k, 5));
    CountBelowOne(Times(k, 5), Times(k, 5));
    CountBelowOne(Times(k, 5), Times(k, 5) + 1);
  }

  lemma CountBelowOne(start: int, w: int)
    ensures CountBelow([start], w) == if start < w then 1 else 0
  {
    assert [start][..0] == [];
  }

  // ------------------------------------------------------------------
  // The steps
  // ------------------------------------------------------------------

  /** No replica is alive, nothing is committed, and the clock has not passed the poll. */
  ghost predicate Ready(e: Event, c: Cluster, k: int) {
    && Shaped(OneMessage(e), c) && c.replicas == map[] && c.committed == map[0 := 0]
    && c.clock.Keys == {0} && c.clock[0] <= PollTime(k)
  }

  /** A replica owning the partition, whose message it has polled or not. */
  ghost predicate Alone(e: Event, c: Cluster, before: Cluster, r: int, rep: Replica, clock: real) {
    && Shaped(OneMessage(e), c) && c.replicas == map[r := rep] && c.committed == map[0 := 0]
    && c.clock == map[0 := clock] && c.trace == before.trace && c.torn == before.torn
    && c.dropped == before.dropped
  }

  lemma Joins(e: Event, c: Cluster, r: int, k: int)
    requires Ready(e, c, k)
    ensures Alone(e, Next(OneMessage(e), c, Join(r, {0})), c, r, Replica({0}, [], map[], Idle), c.clock[0])
  {
    hide Sized;
    NextKeepsShape(OneMessage(e), c, Join(r, {0}));
  }

  lemma Polls(e: Event, c: Cluster, before: Cluster, r: int, k: int, clock: real)
    requires Alone(e, c, before, r, Replica({0}, [], map[], Idle), clock) && clock <= PollTime(k)
    ensures Alone(e, Next(OneMessage(e), c, Poll(r, PollTime(k), map[0 := 1], [0])), before, r,
                  Replica({0}, [0], map[0 := Polled(e, k)], Stage.Polled(PollTime(k))), PollTime(k))
  {
    hide Sized, PollTime, PollLanes, Polled;
    var w, rep := OneMessage(e), Replica({0}, [], map[], Idle);
    NextKeepsShape(w, c, Poll(r, PollTime(k), map[0 := 1], [0]));
    PollsOne(e, c, rep, k);
    assert Lists([0], rep.lanes.Keys + map[0 := 1].Keys);
  }

  lemma PollsOne(e: Event, c: Cluster, rep: Replica, k: int)
    requires rep.owned == {0} && rep.lanes == map[] && c.committed == map[0 := 0]
    ensures PollFits(OneMessage(e), c, rep, map[0 := 1])
    ensures PollLanes(OneMessage(e), c, rep, PollTime(k), map[0 := 1]) == map[0 := Polled(e, k)]
  {
    hide Ingest, PollTime;
    var events := Records([e], NewLane(0), 1);
    assert events == [e] && events[..0] == [];
    assert LaneAt(c, rep, 0) == NewLane(0);
    assert IngestAll(CONFIG, ARRIVAL, NewLane(0), events, PollTime(k)) == Polled(e, k);
  }

  lemma PopsNothing(e: Event, c: Cluster, before: Cluster, r: int, k: int)
    requires Alone(e, c, before, r, Replica({0}, [0], map[0 := Polled(e, k)], Stage.Polled(PollTime(k))), PollTime(k))
    ensures Alone(e, Next(OneMessage(e), c, Pop(r)), before, r,
                  Replica({0}, [0], map[0 := Polled(e, k)], Idle), PollTime(k))
  {
    hide Sized, Polled, LaneSlices, PopLane, Tag, Discarded, PollTime, WellFormed, Collect;
    NextKeepsShape(OneMessage(e), c, Pop(r));
    PolledLane(e, k);
    NothingDueYet(e, k);
    CollectOne(OneMessage(e), 0, Polled(e, k), PollTime(k));
    DiscardsNothing(OneMessage(e), Polled(e, k), PollTime(k));
    assert Collect(OneMessage(e), map[0 := Polled(e, k)], [0], PollTime(k)) == [];
    assert PopLanes(OneMessage(e), map[0 := Polled(e, k)], PollTime(k)) == map[0 := Polled(e, k)];
  }


  lemma DiscardsNothing(w: World, lane: Lane, now: real)
    requires w.cfg.size > 0 && LaneDropped(w.cfg, w.source, lane, now) == map[]
    ensures Discarded(w, map[0 := lane], now) == {}
  {
    hide LaneDropped;
  }

  lemma PollsAgain(e: Event, c: Cluster, before: Cluster, r: int, k: int)
    requires Alone(e, c, before, r, Replica({0}, [0], map[0 := Polled(e, k)], Idle), PollTime(k))
    ensures Alone(e, Next(OneMessage(e), c, Poll(r, CloseTime(k), map[], [0])), before, r,
                  Replica({0}, [0], map[0 := Polled(e, k)], Stage.Polled(CloseTime(k))), CloseTime(k))
  {
    hide Sized, Polled, PollLanes;
    var w, rep := OneMessage(e), Replica({0}, [0], map[0 := Polled(e, k)], Idle);
    NextKeepsShape(w, c, Poll(r, CloseTime(k), map[], [0]));
    var none: map<int, nat> := map[];
    assert PollFits(w, c, rep, none);
    NonePolled(w, c, rep, CloseTime(k));
    assert Lists([0], rep.lanes.Keys + none.Keys);
  }

  lemma NonePolled(w: World, c: Cluster, rep: Replica, arrival: real)
    requires w.cfg.size > 0 && PollFits(w, c, rep, map[])
    ensures PollLanes(w, c, rep, arrival, map[]) == rep.lanes
  {
  }

  /** One replica lives, and has just written the message's window. */
  ghost predicate HasWritten(e: Event, c: Cluster, r: int, k: int) {
    && c.replicas.Keys == {r} && c.replicas[r].lanes.Keys == {0}
    && c.replicas[r].lanes[0].pending == map[Times(k, 5) := 0]
    && c.replicas[r].stage == Stage.Written([Written(e, k)], map[0 := Times(k, 5)])
  }

  /** The second flush closes the message's window, and its write counts the message. */
  lemma PopsAndWrites(e: Event, c: Cluster, before: Cluster, r: int, k: int)
    requires Alone(e, c, before, r, Replica({0}, [0], map[0 := Polled(e, k)], Stage.Polled(CloseTime(k))), CloseTime(k))
    ensures Shaped(OneMessage(e), Next(OneMessage(e), c, Pop(r)))
    ensures var after := Next(OneMessage(e), Next(OneMessage(e), c, Pop(r)), Persist(r));
      && Shaped(OneMessage(e), after) && HasWritten(e, after, r, k) && after.committed == map[0 := 0]
      && after.clock == map[0 := CloseTime(k)] && after.torn == before.torn && after.dropped == before.dropped
      && after.trace == before.trace + [Written(e, k)]
  {
    hide Sized, Polled, LaneSlices, PopLane, Tag, Discarded, CloseTime, WellFormed, Collect, Written, Through;
    var w := OneMessage(e);
    PolledLane(e, k);
    StillPending(e, k);
    ThroughOne(w, 0, Polled(e, k), CloseTime(k));
    NextKeepsShape(w, c, Pop(r));
    NextKeepsShape(w, Next(w, c, Pop(r)), Persist(r));
    PolledLane(e, k);
    WindowDue(e, k);
    CollectOne(w, 0, Polled(e, k), CloseTime(k));
    DiscardsNothing(w, Polled(e, k), CloseTime(k));
    assert Collect(w, map[0 := Polled(e, k)], [0], CloseTime(k)) == [Written(e, k)];
  }

  /** What that flush leaves pending until it releases it. */
  lemma StillPending(e: Event, k: int)
    ensures PopLane(CONFIG, ARRIVAL, Polled(e, k), CloseTime(k)).pending == map[Times(k, 5) := 0]
    ensures AllSized(CONFIG, Polled(e, k).manager.windows)
    ensures var out := LaneSlices(CONFIG, ARRIVAL, Polled(e, k), CloseTime(k));
      |out| == 1 && out[0].windowStart == Times(k, 5)
  {
    hide LaneSlices, PopState, Ingest, WellFormed, CloseTime, Snapshot, CountBelow;
    PolledLane(e, k);
    WindowDue(e, k);
    var out := LaneSlices(CONFIG, ARRIVAL, Polled(e, k), CloseTime(k));
    assert TagAll(0, Polled(e, k), out)[0] == Written(e, k);
  }

  /** A replica that joins, polls, closes the window and writes it, step by step. */
  lemma WritesTheMessage(e: Event, run: seq<Action>, r: int, k: int)
    requires Started(OneMessage(e)) && Ready(e, Run(OneMessage(e), run), k)
    ensures var before, after := Run(OneMessage(e), run), Run(OneMessage(e), run + UpToTheWrite(r, k));
      && HasWritten(e, after, r, k) && after.committed == map[0 := 0]
      && after.clock == map[0 := CloseTime(k)] && after.torn == before.torn && after.dropped == before.dropped
      && after.trace == before.trace + [Written(e, k)]
  {
    hide Run, Next, Alone, Ready, Polled, Written, PollTime, CloseTime, Shaped, OneMessage;
    var w, c := OneMessage(e), Run(OneMessage(e), run);
    var join, poll, again := Join(r, {0}), Poll(r, PollTime(k), map[0 := 1], [0]), Poll(r, CloseTime(k), map[], [0]);
    var one := run + [join];
    var two := one + [poll];
    var three := two + [Pop(r)];
    var four := three + [again];
    var five := four + [Pop(r)];
    RunSnoc(w, run, join);
    Joins(e, c, r, k);
    RunSnoc(w, one, poll);
    ReadyClock(e, c, k);
    Polls(e, Run(w, one), c, r, k, c.clock[0]);
    RunSnoc(w, two, Pop(r));
    PopsNothing(e, Run(w, two), c, r, k);
    RunSnoc(w, three, again);
    PollsAgain(e, Run(w, three), c, r, k);
    RunSnoc(w, four, Pop(r));
    RunSnoc(w, five, Persist(r));
    PopsAndWrites(e, Run(w, four), c, r, k);
    assert run + UpToTheWrite(r, k) == five + [Persist(r)];
  }

  lemma ReadyClock(e: Event, c: Cluster, k: int)
    requires Ready(e, c, k)
    ensures 0 in c.clock && c.clock[0] <= PollTime(k)
  {
  }

  /** Releasing and committing after the write moves the group past the message. */
  lemma CommitsTheMessage(e: Event, c: Cluster, r: int, k: int)
    requires Shaped(OneMessage(e), c) && HasWritten(e, c, r, k) && c.committed == map[0 := 0]
    ensures Shaped(OneMessage(e), Next(OneMessage(e), c, Release(r)))
    ensures var after := Next(OneMessage(e), Next(OneMessage(e), c, Release(r)), Commit(r));
      after.committed == map[0 := 1] && after.trace == c.trace && after.torn == c.torn && after.dropped == c.dropped
  {
    hide Sized, Lists, Written, OneMessage, PollFits, Shaped, ReleaseLanes, Protocol.Commits, HasWritten;
    NextKeepsShape(OneMessage(e), c, Release(r));
    ReleasesTheMessage(e, c, r, k);
  }

  lemma ReleasesTheMessage(e: Event, c: Cluster, r: int, k: int)
    requires HasWritten(e, c, r, k)
    ensures r in c.replicas && c.replicas[r].stage.Written?
    ensures Protocol.Commits(c.replicas[r].lanes, c.replicas[r].stage.through) == map[0 := 1]
  {
    hide Written;
    var p := c.replicas[r].lanes[0].pending;
    assert Settled(p, Times(k, 5)) == map[Times(k, 5) := 0];
    OneReleased(p, Times(k, 5), Times(k, 5), 0);
  }

  /** Replica 0 writes window 0 and crashes before its commit; replica 1 takes over, writes window 20 and commits. */
  function CrashAndReplay(): seq<Action> {
    UpToTheWrite(0, 0) + [Crash(0)] + UpToTheWrite(1, 4) + [Release(1)] + [Commit(1)]
  }

  /**
   * In that run, which is one the protocol allows, the crash tears message 0, the replay writes it under another key
   * and commits it, and it is counted twice.
   */
  lemma ReplayCountsTwice(e: Event)
    ensures Started(OneMessage(e)) && ValidWorld(OneMessage(e))
    ensures var c := Run(OneMessage(e), CrashAndReplay());
      && (0, 0) in c.torn && (0, 0) !in c.dropped && c.committed == map[0 := 1]
      && |c.trace| == 2 && c.trace[0].slice.windowStart == 0 && c.trace[1].slice.windowStart == 20
      && Covers(c.trace[0], 0, 0) && Covers(c.trace[1], 0, 0) && TimesCounted(c.trace, 0, 0) == 2
  {
    hide Run, Shaped, UpToTheWrite, Written, TimesCounted, Lists, PollFits;
    var w := OneMessage(e);
    RunEmpty(w);
    WritesTheMessage(e, [], 0, 0);
    var first := UpToTheWrite(0, 0);
    assert [] + first == first;
    var c := Run(w, first);
    RunSnoc(w, first, Crash(0));
    var crashed := Run(w, first + [Crash(0)]);
    WritesMessageZero(e, 0);
    WritesMessageZero(e, 4);
    var replayed := first + [Crash(0)] + UpToTheWrite(1, 4);
    WritesTheMessage(e, first + [Crash(0)], 1, 4);
    RunSnoc(w, replayed, Release(1));
    CommitsTheMessage(e, Run(w, replayed), 1, 4);
    RunSnoc(w, replayed + [Release(1)], Commit(1));
    assert Run(w, CrashAndReplay()).trace == [Written(e, 0), Written(e, 4)];
    CountsBoth(Written(e, 0), Written(e, 4));
  }

  lemma WritesMessageZero(e: Event, k: int)
    ensures Covers(Written(e, k), 0, 0) && Written(e, k).slice.windowStart == Times(k, 5)
    ensures (0, 0) in Messages([Written(e, k)])
  {
    hide Snapshot;
    assert Written(e, k) in [Written(e, k)];
  }

  lemma RunEmpty(w: World)
    requires Started(w)
    ensures Run(w, []) == Initial(w)
  {
  }

  lemma CountsBoth(x: Emission, y: Emission)
    requires Covers(x, 0, 0) && Covers(y, 0, 0)
    ensures TimesCounted([x, y], 0, 0) == 2
  {
    CountsOne(x);
    CountsOne(y);
    TimesConcat([x], [y], 0, 0);
    assert [x] + [y] == [x, y];
  }

  lemma CountsOne(x: Emission)
    requires Covers(x, 0, 0)
    ensures TimesCounted([x], 0, 0) == 1
  {
    assert [x][..0] == [];
  }
}

/**
 * The commit-after-write protocol as a state machine: aggregators join, poll, close windows, write, release and
 * commit, and any of them may crash between any two steps. A crash loses its windows and its offset bookkeeping; the
 * logs, the committed offsets and everything written survive.
 */
module Protocol {
  import opened Events
  import opened Lanes
  import opened Offsets
  import opened Windows

  /** What a run cannot change: settings, time source, the partitions' logs and where each group offset began. */
  datatype World = World(
    cfg: Settings, source: string, logs: map<int, Log>, origins: map<int, nat>, epoch: real)

  /** Where an aggregator is in its loop; everything between `Popped` and `Idle` is one flush. */
  datatype Stage =
    | Idle
    | Polled(arrival: real)
    | Popped(entries: seq<Emission>, through: map<int, int>)
    | Written(entries: seq<Emission>, through: map<int, int>)
    | Committing(entries: seq<Emission>, commits: map<int, nat>)

  /** One incarnation: the partitions it owns and the lane of each partition it has seen, in insertion order. */
  datatype Replica = Replica(owned: set<int>, order: seq<int>, lanes: map<int, Lane>, stage: Stage)

  /**
   * `clock` is the last wall-clock reading used for each partition, by whichever incarnation owned it, and `trace` is
   * every write in order. `dropped` (offsets a resync discarded) and `torn` (offsets whose writes a crash cut off from
   * their commit) are history, as pairs of partition and offset.
   */
  datatype Cluster = Cluster(
    committed: map<int, nat>, replicas: map<int, Replica>,
    clock: map<int, real>, trace: seq<Emission>, dropped: set<(int, int)>, torn: set<(int, int)>)

  datatype Action =
    | Join(r: int, owned: set<int>)
    | Poll(r: int, arrival: real, counts: map<int, nat>, order: seq<int>)
    | Pop(r: int)
    | Persist(r: int)
    | Release(r: int)
    | Commit(r: int)
    | Crash(r: int)

  ghost predicate Lists(order: seq<int>, keys: set<int>) {
    && (forall i, j :: 0 <= i < j < |order| ==> order[i] != order[j])
    && (forall p :: p in order <==> p in keys)
  }

  function Initial(w: World): Cluster {
    Cluster(w.origins, map[], map p | p in w.logs :: w.epoch, [], {}, {})
  }

  // ------------------------------------------------------------------
  // Steps
  // ------------------------------------------------------------------

  function LaneAt(c: Cluster, rep: Replica, p: int): Lane
    requires p in c.committed
  {
    if p in rep.lanes then rep.lanes[p] else NewLane(c.committed[p])
  }

  /** The records fit in the logs of owned partitions. */
  ghost predicate PollFits(w: World, c: Cluster, rep: Replica, counts: map<int, nat>) {
    && counts.Keys <= rep.owned
    && forall p :: p in counts ==>
         p in c.committed && p in w.logs && Position(LaneAt(c, rep, p)) + counts[p] <= |w.logs[p]|
  }

  function Records(log: Log, lane: Lane, n: nat): seq<Event>
    requires Position(lane) + n <= |log|
  {
    log[Position(lane)..Position(lane) + n]
  }

  ghost function PollLanes(w: World, c: Cluster, rep: Replica, arrival: real, counts: map<int, nat>): map<int, Lane>
    requires w.cfg.size > 0 && PollFits(w, c, rep, counts)
  {
    map p | p in rep.lanes.Keys + counts.Keys ::
      if p in counts then
        IngestAll(w.cfg, w.source, LaneAt(c, rep, p), Records(w.logs[p], LaneAt(c, rep, p), counts[p]), arrival)
      else rep.lanes[p]
  }

  ghost predicate Sized(w: World, lanes: map<int, Lane>) {
    w.cfg.size > 0 && forall p :: p in lanes ==> WellFormed(w.cfg, lanes[p].manager)
  }

  lemma SizedLane(w: World, lanes: map<int, Lane>, p: int)
    requires Sized(w, lanes) && p in lanes
    ensures w.cfg.size > 0 && AllSized(w.cfg, lanes[p].manager.windows)
  {
  }

  ghost function PopLanes(w: World, lanes: map<int, Lane>, now: real): map<int, Lane>
    requires w.cfg.size > 0
  {
    map p | p in lanes :: PopLane(w.cfg, w.source, lanes[p], now)
  }

  /** The summaries of every partition in turn. */
  ghost function Collect(w: World, lanes: map<int, Lane>, order: seq<int>, now: real): seq<Emission>
    requires Sized(w, lanes)
  {
    if order == [] then []
    else
      var p, before := order[|order| - 1], Collect(w, lanes, order[..|order| - 1], now);
      if p in lanes then before + TagAll(p, lanes[p], LaneSlices(w.cfg, w.source, lanes[p], now)) else before
  }

  ghost function Through(w: World, lanes: map<int, Lane>, now: real): map<int, int>
    requires Sized(w, lanes)
  {
    map p | p in lanes && LaneSlices(w.cfg, w.source, lanes[p], now) != [] ::
      var out := LaneSlices(w.cfg, w.source, lanes[p], now);
      out[|out| - 1].windowStart
  }

  /** The offsets a call discards by resynchronising. */
  ghost function Discarded(w: World, lanes: map<int, Lane>, now: real): set<(int, int)>
    requires w.cfg.size > 0
  {
    set p, i | p in lanes && 0 <= i < |lanes[p].starts|
               && lanes[p].starts[i] in LaneDropped(w.cfg, w.source, lanes[p], now) :: (p, lanes[p].base + i)
  }

  ghost function ReleaseLanes(lanes: map<int, Lane>, through: map<int, int>): map<int, Lane> {
    map p | p in lanes :: if p in through then ReleaseLane(lanes[p], through[p]) else lanes[p]
  }

  ghost function Commits(lanes: map<int, Lane>, through: map<int, int>): map<int, nat> {
    map p | p in lanes && p in through && Released(lanes[p].pending, through[p]).Some? ::
      Released(lanes[p].pending, through[p]).value
  }

  /** The messages some writes count. */
  ghost function Messages(entries: seq<Emission>): set<(int, int)> {
    set e, i | e in entries && e.lo <= i < e.hi :: (e.partition, i)
  }

  /** What a flush has written and not committed yet. */
  function Uncommitted(stage: Stage): seq<Emission> {
    if stage.Written? || stage.Committing? then stage.entries else []
  }

  ghost predicate Enabled(w: World, c: Cluster, a: Action) {
    match a
    case Join(r, owned) =>
      r !in c.replicas && owned <= w.logs.Keys && forall q :: q in c.replicas ==> owned !! c.replicas[q].owned
    case Poll(r, arrival, counts, order) =>
      && r in c.replicas && c.replicas[r].stage.Idle? && PollFits(w, c, c.replicas[r], counts)
      && Lists(order, c.replicas[r].lanes.Keys + counts.Keys)
      && (w.source == ARRIVAL ==>
            forall p :: p in c.replicas[r].owned && p in c.clock ==> c.clock[p] <= arrival)
    case Pop(r) => r in c.replicas && c.replicas[r].stage.Polled?
    case Persist(r) => r in c.replicas && c.replicas[r].stage.Popped?
    case Release(r) => r in c.replicas && c.replicas[r].stage.Written?
    case Commit(r) => r in c.replicas && c.replicas[r].stage.Committing?
    case Crash(r) => r in c.replicas
  }

  /** Well-formedness that every run keeps, in order or not. */
  ghost predicate Shaped(w: World, c: Cluster) {
    && w.cfg.size > 0 && c.committed.Keys == c.clock.Keys == w.logs.Keys
    && forall r :: r in c.replicas ==>
         && c.replicas[r].lanes.Keys <= c.replicas[r].owned <= w.logs.Keys
         && Lists(c.replicas[r].order, c.replicas[r].lanes.Keys)
         && Sized(w, c.replicas[r].lanes)
         && (c.replicas[r].stage.Committing? ==> c.replicas[r].stage.commits.Keys <= c.replicas[r].lanes.Keys)
  }

  /** One replica's own step; the stages follow the aggregator's loop. */
  ghost function Advance(w: World, c: Cluster, a: Action): Replica
    requires Shaped(w, c) && Enabled(w, c, a) && !a.Join? && !a.Crash?
  {
    var rep := c.replicas[a.r];
    match a
    case Poll(_, arrival, counts, order) =>
      rep.(lanes := PollLanes(w, c, rep, arrival, counts), order := order, stage := Polled(arrival))
    case Pop(_) =>
      var now := rep.stage.arrival;
      var entries := Collect(w, rep.lanes, rep.order, now);
      rep.(lanes := PopLanes(w, rep.lanes, now),
           stage := if entries == [] then Idle else Popped(entries, Through(w, rep.lanes, now)))
    case Persist(_) => rep.(stage := Written(rep.stage.entries, rep.stage.through))
    case Release(_) =>
      rep.(lanes := ReleaseLanes(rep.lanes, rep.stage.through),
           stage := Committing(rep.stage.entries, Commits(rep.lanes, rep.stage.through)))
    case Commit(_) => rep.(stage := Idle)
  }

  ghost function Next(w: World, c: Cluster, a: Action): Cluster
    requires Shaped(w, c)
  {
    if !Enabled(w, c, a) then c
    else
      match a
      case Join(r, owned) => c.(replicas := c.replicas[r := Replica(owned, [], map[], Idle)])
      case Crash(r) =>
        c.(replicas := c.replicas - {r},
           torn := c.torn + Messages(Uncommitted(c.replicas[r].stage)))
      case Poll(r, arrival, _, _) =>
        c.(replicas := c.replicas[r := Advance(w, c, a)],
           clock := map p | p in c.clock :: if p in c.replicas[r].owned then arrival else c.clock[p])
      case Pop(r) =>
        c.(replicas := c.replicas[r := Advance(w, c, a)],
           dropped := c.dropped + Discarded(w, c.replicas[r].lanes, c.replicas[r].stage.arrival))
      case Persist(r) =>
        c.(replicas := c.replicas[r := Advance(w, c, a)], trace := c.trace + c.replicas[r].stage.entries)
      case Release(r) => c.(replicas := c.replicas[r := Advance(w, c, a)])
      case Commit(r) =>
        c.(replicas := c.replicas[r := Advance(w, c, a)], committed := c.committed + c.replicas[r].stage.commits)
  }

  lemma {:induction false} IngestAllWellFormed(cfg: Settings, source: string, lane: Lane, events: seq<Event>,
                                               arrival: real)
    requires WellFormed(cfg, lane.manager)
    ensures WellFormed(cfg, IngestAll(cfg, source, lane, events, arrival).manager)
  {
    if events != [] {
      var n := |events| - 1;
      IngestAllWellFormed(cfg, source, lane, events[..n], arrival);
      AddKeepsWellFormed(cfg, IngestAll(cfg, source, lane, events[..n], arrival).manager, events[n],
                         EventTimestamp(events[n], arrival, source));
    }
  }

  lemma AdvanceKeepsSized(w: World, c: Cluster, a: Action)
    requires Shaped(w, c) && Enabled(w, c, a) && !a.Join? && !a.Crash?
    ensures Sized(w, Advance(w, c, a).lanes)
  {
    hide WellFormed, Ingest;
    var rep, after := c.replicas[a.r], Advance(w, c, a);
    if a.Poll? {
      forall p | p in after.lanes ensures WellFormed(w.cfg, after.lanes[p].manager) {
        if p in a.counts {
          var lane := LaneAt(c, rep, p);
          FreshIsWellFormed(w.cfg);
          IngestAllWellFormed(w.cfg, w.source, lane, Records(w.logs[p], lane, a.counts[p]), a.arrival);
        }
      }
    } else if a.Pop? {
      forall p | p in after.lanes ensures WellFormed(w.cfg, after.lanes[p].manager) {
        var clock := Clock(w.source, rep.lanes[p].manager, rep.stage.arrival);
        if clock.Some? { PopKeepsWellFormed(w.cfg, rep.lanes[p].manager, clock.value); }
      }
    }
  }

  lemma FreshIsWellFormed(cfg: Settings)
    requires cfg.size > 0
    ensures WellFormed(cfg, FRESH)
  {
  }

  /** A flush of a single lane. */
  lemma CollectOne(w: World, p: int, lane: Lane, now: real)
    requires w.cfg.size > 0 && WellFormed(w.cfg, lane.manager)
    ensures Sized(w, map[p := lane]) && AllSized(w.cfg, lane.manager.windows)
    ensures Collect(w, map[p := lane], [p], now) == TagAll(p, lane, LaneSlices(w.cfg, w.source, lane, now))
  {
    hide LaneSlices, Tag, WellFormed;
    SizedOne(w, p, lane);
    assert [p][..0] == [];
  }

  lemma ThroughOne(w: World, p: int, lane: Lane, now: real)
    requires w.cfg.size > 0 && WellFormed(w.cfg, lane.manager)
    ensures Sized(w, map[p := lane]) && AllSized(w.cfg, lane.manager.windows)
    ensures var out := LaneSlices(w.cfg, w.source, lane, now);
      Through(w, map[p := lane], now) == if out == [] then map[] else map[p := out[|out| - 1].windowStart]
    ensures PopLanes(w, map[p := lane], now) == map[p := PopLane(w.cfg, w.source, lane, now)]
  {
    hide LaneSlices, WellFormed, PopLane, Sized, AllSized;
    SizedOne(w, p, lane);
  }

  lemma SizedOne(w: World, p: int, lane: Lane)
    requires w.cfg.size > 0 && WellFormed(w.cfg, lane.manager)
    ensures Sized(w, map[p := lane]) && AllSized(w.cfg, lane.manager.windows)
  {
  }

  /** A step keeps its own replica in shape. */
  lemma AdvanceKeepsReplica(w: World, c: Cluster, a: Action)
    requires Shaped(w, c) && Enabled(w, c, a) && !a.Join? && !a.Crash?
    ensures var rep, after := c.replicas[a.r], Advance(w, c, a);
      && after.owned == rep.owned && after.lanes.Keys <= after.owned && Lists(after.order, after.lanes.Keys)
      && (after.stage.Committing? ==> after.stage.commits.Keys <= after.lanes.Keys)
  {
    hide Sized, Collect, IngestAll, PopLane, Released, Through;
  }

  lemma NextKeepsShape(w: World, c: Cluster, a: Action)
    requires Shaped(w, c)
    ensures Shaped(w, Next(w, c, a))
  {
    hide Sized, Lists, Advance, PollFits, Discarded, Messages;
    if Enabled(w, c, a) && !a.Join? && !a.Crash? {
      AdvanceKeepsSized(w, c, a);
      AdvanceKeepsReplica(w, c, a);
    } else {
      NoLanes(w);
    }
  }

  lemma NoLanes(w: World)
    requires w.cfg.size > 0
    ensures var none: map<int, Lane> := map[]; Sized(w, none) && Lists([], none.Keys)
  {
  }
}

/** A sole replica's polls, as the protocol runs them: what is proved of any cut of a log into polls holds there. */
module PollRuns {
  import opened Confluence
  import opened Delivery
  import opened Events
  import opened Lanes
  import opened Protocol
  import opened Tallies
  import opened TimeSources
  import opened Windows

  /** The protocol's steps for one poll and the flush after it. */
  ghost function TurnActions(cfg: Settings, r: int, p: int, lane: Lane, chunk: seq<Event>, arrival: real): seq<Action>
    requires WellFormed(cfg, lane.manager)
  {
    PollIsWellFormed(cfg, lane, chunk);
    [Poll(r, arrival, map[p := |chunk|], [p]), Pop(r)]
    + if LaneSlices(cfg, EVENT, PollOnce(cfg, lane, chunk), 0.0) == [] then []
      else [Persist(r), Release(r), Commit(r)]
  }

  /** A replica joins and then polls one partition, at whatever times. */
  ghost function PollActions(cfg: Settings, r: int, p: int, polls: seq<seq<Event>>, arrivals: seq<real>): seq<Action>
    requires cfg.size > 0 && |arrivals| == |polls|
  {
    if polls == [] then [Join(r, {p})]
    else
      var n := |polls| - 1;
      PollActions(cfg, r, p, polls[..n], arrivals[..n])
      + TurnActions(cfg, r, p, RunPolls(cfg, polls[..n]).lane, polls[n], arrivals[n])
  }

  function Slices(trace: seq<Emission>): (slices: seq<Slice>)
    ensures |slices| == |trace| && forall i :: 0 <= i < |trace| ==> slices[i] == trace[i].slice
  {
    seq(|trace|, i requires 0 <= i < |trace| => trace[i].slice)
  }

  /** The replica sits between turns with this lane, which it has only if it has polled. */
  ghost predicate Rests(c: Cluster, r: int, p: int, lane: Lane) {
    && r in c.replicas && c.replicas[r].owned == {p} && c.replicas[r].stage.Idle? && p in c.committed
    && c.replicas[r].lanes.Keys <= {p} && LaneAt(c, c.replicas[r], p) == lane
  }

  /** The next messages of a log, each with a usable clock. */
  ghost predicate Follows(log: Log, lane: Lane, chunk: seq<Event>) {
    && Position(lane) + |chunk| <= |log| && chunk == log[Position(lane)..Position(lane) + |chunk|]
    && forall e :: e in chunk ==> Stamped(e)
  }

  /** The wall clock does not matter to messages that carry their own. */
  lemma {:induction false} ArrivalIsIgnored(cfg: Settings, lane: Lane, chunk: seq<Event>, arrival: real)
    requires cfg.size > 0 && forall e :: e in chunk ==> Stamped(e)
    ensures IngestAll(cfg, EVENT, lane, chunk, arrival) == PollOnce(cfg, lane, chunk)
  {
    hide AddTo, Accepts;
    if chunk != [] {
      assert chunk[|chunk| - 1] in chunk;
      ArrivalIsIgnored(cfg, lane, chunk[..|chunk| - 1], arrival);
    }
  }

  lemma EventClock(cfg: Settings, lane: Lane, now: real)
    requires cfg.size > 0 && AllSized(cfg, lane.manager.windows)
    ensures LaneSlices(cfg, EVENT, lane, now) == LaneSlices(cfg, EVENT, lane, 0.0)
    ensures PopLane(cfg, EVENT, lane, now) == PopLane(cfg, EVENT, lane, 0.0)
  {
    OneSource();
  }

  /** After the poll. */
  lemma PollStep(w: World, c: Cluster, r: int, p: int, lane: Lane, chunk: seq<Event>, arrival: real)
    requires Shaped(w, c) && w.source == EVENT && Rests(c, r, p, lane) && p in w.logs && Follows(w.logs[p], lane, chunk)
    ensures var after := Next(w, c, Poll(r, arrival, map[p := |chunk|], [p]));
      && r in after.replicas && after.trace == c.trace && after.committed == c.committed
      && after.replicas[r] == Replica({p}, [p], map[p := PollOnce(w.cfg, lane, chunk)], Polled(arrival))
  {
    hide IngestAll, Sized, Shaped, Stamped;
    OneSource();
    SizedWorld(w, c);
    var rep, counts := c.replicas[r], map[p := |chunk|];
    ArrivalIsIgnored(w.cfg, lane, chunk, arrival);
    assert PollFits(w, c, rep, counts);
    assert Lists([p], rep.lanes.Keys + counts.Keys);
    assert Records(w.logs[p], lane, |chunk|) == chunk;
    assert PollLanes(w, c, rep, arrival, counts) == map[p := PollOnce(w.cfg, lane, chunk)];
  }

  lemma SizedWorld(w: World, c: Cluster)
    requires Shaped(w, c)
    ensures w.cfg.size > 0
  {
  }

  /** After the windows are closed. */
  lemma PopStep(w: World, c: Cluster, r: int, p: int, polled: Lane, arrival: real)
    requires Shaped(w, c) && w.source == EVENT && r in c.replicas && WellFormed(w.cfg, polled.manager)
    requires c.replicas[r] == Replica({p}, [p], map[p := polled], Polled(arrival))
    ensures var after, out := Next(w, c, Pop(r)), LaneSlices(w.cfg, EVENT, polled, 0.0);
      && r in after.replicas && after.trace == c.trace && after.committed == c.committed
      && after.replicas[r]
         == Replica({p}, [p], map[p := PopLane(w.cfg, EVENT, polled, 0.0)],
                    if out == [] then Idle
                    else Popped(TagAll(p, polled, out), map[p := out[|out| - 1].windowStart]))
  {
    hide LaneSlices, PopLane, Collect, Through, PopLanes, Discarded, Sized, Lists, WellFormed, Tag;
    SizedOne(w, p, polled);
    CollectOne(w, p, polled, arrival);
    ThroughOne(w, p, polled, arrival);
    EventClock(w.cfg, polled, arrival);
  }

  /** After the write, the release and the commit. */
  lemma WriteSteps(w: World, c: Cluster, r: int, p: int, popped: Lane, entries: seq<Emission>, through: int)
    requires Shaped(w, c) && r in c.replicas
    requires c.replicas[r] == Replica({p}, [p], map[p := popped], Popped(entries, map[p := through]))
    ensures Shaped(w, Next(w, c, Persist(r))) && Shaped(w, Next(w, Next(w, c, Persist(r)), Release(r)))
    ensures var after := Next(w, Next(w, Next(w, c, Persist(r)), Release(r)), Commit(r));
      && r in after.replicas && after.trace == c.trace + entries && c.committed.Keys <= after.committed.Keys
      && after.replicas[r] == Replica({p}, [p], map[p := ReleaseLane(popped, through)], Idle)
  {
    hide Shaped, Commits, Lists, PollFits;
    NextKeepsShape(w, c, Persist(r));
    NextKeepsShape(w, Next(w, c, Persist(r)), Release(r));
    assert ReleaseLanes(map[p := popped], map[p := through]) == map[p := ReleaseLane(popped, through)];
  }

  /** Up to the closing of the windows. */
  lemma PollAndClose(w: World, run: seq<Action>, r: int, p: int, lane: Lane, chunk: seq<Event>, arrival: real)
    requires Started(w) && w.source == EVENT && Rests(Run(w, run), r, p, lane) && p in w.logs
    requires Follows(w.logs[p], lane, chunk) && WellFormed(w.cfg, PollOnce(w.cfg, lane, chunk).manager)
    ensures var c, polled := Run(w, run + [Poll(r, arrival, map[p := |chunk|], [p])] + [Pop(r)]),
                             PollOnce(w.cfg, lane, chunk);
      var out := LaneSlices(w.cfg, EVENT, polled, 0.0);
      && r in c.replicas && c.trace == Run(w, run).trace && c.committed == Run(w, run).committed
      && c.replicas[r]
         == Replica({p}, [p], map[p := PopLane(w.cfg, EVENT, polled, 0.0)],
                    if out == [] then Idle
                    else Popped(TagAll(p, polled, out), map[p := out[|out| - 1].windowStart]))
  {
    hide Run, Next, Shaped, PollOnce, LaneSlices, PopLane, WellFormed, Follows, Tag, Rests;
    var poll := Poll(r, arrival, map[p := |chunk|], [p]);
    RunSnoc(w, run, poll);
    PollStep(w, Run(w, run), r, p, lane, chunk, arrival);
    RunSnoc(w, run + [poll], Pop(r));
    PopStep(w, Run(w, run + [poll]), r, p, PollOnce(w.cfg, lane, chunk), arrival);
  }

  lemma WriteRun(w: World, popped: seq<Action>, r: int, p: int, lane: Lane, entries: seq<Emission>, through: int)
    requires Started(w) && r in Run(w, popped).replicas
    requires Run(w, popped).replicas[r] == Replica({p}, [p], map[p := lane], Popped(entries, map[p := through]))
    ensures var after := Run(w, popped + [Persist(r), Release(r), Commit(r)]);
      && r in after.replicas && after.trace == Run(w, popped).trace + entries
      && Run(w, popped).committed.Keys <= after.committed.Keys
      && after.replicas[r] == Replica({p}, [p], map[p := ReleaseLane(lane, through)], Idle)
  {
    hide Run, Next, Shaped, ReleaseLane;
    RunSnoc(w, popped, Persist(r));
    RunSnoc(w, popped + [Persist(r)], Release(r));
    RunSnoc(w, popped + [Persist(r)] + [Release(r)], Commit(r));
    WriteSteps(w, Run(w, popped), r, p, lane, entries, through);
    assert popped + [Persist(r)] + [Release(r)] + [Commit(r)] == popped + [Persist(r), Release(r), Commit(r)];
  }

  lemma TurnUnrolled(run: seq<Action>, poll: Action, pop: Action, rest: seq<Action>)
    ensures run + ([poll, pop] + rest) == run + [poll] + [pop] + rest
  {
  }

  /** One poll and its flush in the protocol are one turn of the run over polls. */
  lemma TurnIsProtocol(w: World, run: seq<Action>, r: int, p: int, f: Flushed, chunk: seq<Event>, arrival: real)
    requires Started(w) && w.source == EVENT && Rests(Run(w, run), r, p, f.lane) && p in w.logs
    requires Follows(w.logs[p], f.lane, chunk) && WellFormed(w.cfg, f.lane.manager)
    ensures var after, turn := Run(w, run + TurnActions(w.cfg, r, p, f.lane, chunk, arrival)), Turn(w.cfg, f, chunk);
      && Rests(after, r, p, turn.lane) && after.replicas[r].lanes == map[p := turn.lane]
      && Slices(Run(w, run).trace) + turn.emitted[|f.emitted|..] == Slices(after.trace)
  {
    hide Run, Shaped, PollOnce, LaneSlices, PopLane, ReleaseLane, WellFormed, Follows, Tag, Turn, Slices;
    PollIsWellFormed(w.cfg, f.lane, chunk);
    var polled := PollOnce(w.cfg, f.lane, chunk);
    SizedOne(w, p, polled);
    TurnEmits(w.cfg, f, chunk);
    var poll, out := Poll(r, arrival, map[p := |chunk|], [p]), LaneSlices(w.cfg, EVENT, polled, 0.0);
    var popped, rest := run + [poll] + [Pop(r)], if out == [] then [] else [Persist(r), Release(r), Commit(r)];
    PollAndClose(w, run, r, p, f.lane, chunk, arrival);
    TurnUnrolled(run, poll, Pop(r), rest);
    if out == [] {
      assert popped + rest == popped;
    } else {
      WriteRun(w, popped, r, p, PopLane(w.cfg, EVENT, polled, 0.0), TagAll(p, polled, out), out[|out| - 1].windowStart);
      TagsKeepSlices(p, polled, out);
      SlicesConcat(Run(w, run).trace, TagAll(p, polled, out));
    }
  }

  lemma TurnEmits(cfg: Settings, f: Flushed, chunk: seq<Event>)
    requires WellFormed(cfg, f.lane.manager)
    ensures WellFormed(cfg, PollOnce(cfg, f.lane, chunk).manager)
    ensures AllSized(cfg, PollOnce(cfg, f.lane, chunk).manager.windows)
    ensures var polled, turn := PollOnce(cfg, f.lane, chunk), Turn(cfg, f, chunk);
      var out, popped := LaneSlices(cfg, EVENT, polled, 0.0), PopLane(cfg, EVENT, polled, 0.0);
      && f.emitted <= turn.emitted && turn.emitted[|f.emitted|..] == out
      && turn.lane == if out == [] then popped else ReleaseLane(popped, out[|out| - 1].windowStart)
  {
    hide PollOnce, LaneSlices, PopLane, ReleaseLane;
    PollIsWellFormed(cfg, f.lane, chunk);
  }

  lemma SlicesConcat(a: seq<Emission>, b: seq<Emission>)
    ensures Slices(a + b) == Slices(a) + Slices(b)
  {
  }

  lemma TagsKeepSlices(p: int, lane: Lane, out: seq<Slice>)
    ensures Slices(TagAll(p, lane, out)) == out
  {
    hide CountBelow;
  }

  lemma JoinStep(w: World, c: Cluster, r: int, p: int)
    requires Shaped(w, c) && Enabled(w, c, Join(r, {p})) && p in c.committed && c.committed[p] == 0
    ensures Rests(Next(w, c, Join(r, {p})), r, p, NewLane(0)) && Next(w, c, Join(r, {p})).trace == c.trace
  {
    hide Shaped;
  }

  /** The polls are the log's messages from the start, in order. */
  lemma {:induction false} ChunkFollows(cfg: Settings, log: Log, polls: seq<seq<Event>>)
    requires cfg.size > 0 && polls != [] && Joined(polls) <= log && forall e :: e in log ==> Stamped(e)
    ensures Position(RunPolls(cfg, polls[..|polls| - 1]).lane) == |Joined(polls[..|polls| - 1])|
    ensures Follows(log, RunPolls(cfg, polls[..|polls| - 1]).lane, polls[|polls| - 1])
  {
    hide Stamped, RunPolls;
    var front, chunk := polls[..|polls| - 1], polls[|polls| - 1];
    ConsumedSoFar(cfg, front);
    assert log[..|Joined(polls)|] == Joined(front) + chunk;
    forall i | 0 <= i < |chunk| ensures chunk[i] == log[|Joined(front)| + i] && chunk[i] in log {}
  }

  lemma {:induction false} ConsumedSoFar(cfg: Settings, polls: seq<seq<Event>>)
    requires cfg.size > 0
    ensures RunPolls(cfg, polls).lane.base == 0 && Position(RunPolls(cfg, polls).lane) == |Joined(polls)|
  {
    hide LaneSlices, IngestAll, WellFormed;
    if polls != [] {
      var front, chunk := polls[..|polls| - 1], polls[|polls| - 1];
      ConsumedSoFar(cfg, front);
      IngestAllShape(cfg, EVENT, RunPolls(cfg, front).lane, chunk, 0.0);
      PopMovesNothing(cfg, PollOnce(cfg, RunPolls(cfg, front).lane, chunk));
    }
  }

  lemma PopMovesNothing(cfg: Settings, lane: Lane)
    requires cfg.size > 0
    ensures PopLane(cfg, EVENT, lane, 0.0).base == lane.base && PopLane(cfg, EVENT, lane, 0.0).starts == lane.starts
  {
    hide PopState;
  }

  lemma {:induction false} EmittedGrows(cfg: Settings, polls: seq<seq<Event>>)
    requires cfg.size > 0 && polls != []
    ensures RunPolls(cfg, polls[..|polls| - 1]).emitted <= RunPolls(cfg, polls).emitted
  {
    hide PollOnce, LaneSlices, WellFormed;
  }

  /**
   * Event time: a sole replica that joins at the start of a log and polls it, however cut and whenever, is after each
   * flush where the run over those polls is, and has written exactly what that run emits. So cutting the log into polls
   * differently changes neither (`Confluence.PollsDoNotMatter`).
   */
  lemma {:induction false} PollsAreProtocol(w: World, run: seq<Action>, r: int, p: int, polls: seq<seq<Event>>,
                                            arrivals: seq<real>)
    requires Started(w) && w.source == EVENT && p in w.logs && |arrivals| == |polls|
    requires Joined(polls) <= w.logs[p] && forall e :: e in w.logs[p] ==> Stamped(e)
    requires Enabled(w, Run(w, run), Join(r, {p})) && p in Run(w, run).committed && Run(w, run).committed[p] == 0
    ensures var after, f := Run(w, run + PollActions(w.cfg, r, p, polls, arrivals)), RunPolls(w.cfg, polls);
      && Rests(after, r, p, f.lane) && (polls != [] ==> after.replicas[r].lanes == map[p := f.lane])
      && Slices(Run(w, run).trace) + f.emitted == Slices(after.trace)
  {
    hide Run, Turn, TurnActions, WellFormed, Follows, Slices, Enabled, Stamped, Next, Rests, Joined, Shaped;
    if polls == [] {
      RunSnoc(w, run, Join(r, {p}));
      JoinStep(w, Run(w, run), r, p);
      SliceNothing(w, run, r, p);
    } else {
      var n := |polls| - 1;
      var front, chunk := polls[..n], polls[n];
      var steps, before := PollActions(w.cfg, r, p, front, arrivals[..n]), RunPolls(w.cfg, front);
      JoinedPrefix(front, chunk, polls, w.logs[p]);
      PollsAreProtocol(w, run, r, p, front, arrivals[..n]);
      ChunkFollows(w.cfg, w.logs[p], polls);
      EmittedGrows(w.cfg, polls);
      TurnIsProtocol(w, run + steps, r, p, before, chunk, arrivals[n]);
      SameActions(run, steps, TurnActions(w.cfg, r, p, before.lane, chunk, arrivals[n]));
      Regroup(Slices(Run(w, run).trace), before.emitted, RunPolls(w.cfg, polls).emitted);
    }
  }

  lemma SliceNothing(w: World, run: seq<Action>, r: int, p: int)
    requires w.cfg.size > 0
    ensures RunPolls(w.cfg, []) == Flushed(NewLane(0), [])
    ensures PollActions(w.cfg, r, p, [], []) == [Join(r, {p})]
  {
  }

  lemma JoinedPrefix(front: seq<seq<Event>>, chunk: seq<Event>, polls: seq<seq<Event>>, log: Log)
    requires polls != [] && front == polls[..|polls| - 1] && chunk == polls[|polls| - 1] && Joined(polls) <= log
    ensures Joined(front) <= log
  {
  }

  lemma SameActions(a: seq<Action>, b: seq<Action>, d: seq<Action>)
    ensures (a + b) + d == a + (b + d)
  {
  }

  lemma Regroup(written: seq<Slice>, earlier: seq<Slice>, emitted: seq<Slice>)
    requires earlier <= emitted
    ensures (written + earlier) + emitted[|earlier|..] == written + emitted
  {
  }

  /** Two such replicas over one log, cutting it differently, rest in the same lane and have written the same slices. */
  lemma CutsDoNotMatter(w: World, run: seq<Action>, r: int, p: int, a: seq<seq<Event>>, timesA: seq<real>,
                        b: seq<seq<Event>>, timesB: seq<real>)
    requires Started(w) && w.source == EVENT && p in w.logs && Usable(w.cfg) && WindowMonotone(w.cfg, w.logs[p])
    requires |timesA| == |a| && |timesB| == |b| && Joined(a) == Joined(b) <= w.logs[p]
    requires Smooth(w.cfg, a) && Smooth(w.cfg, b)
    requires Enabled(w, Run(w, run), Join(r, {p})) && p in Run(w, run).committed && Run(w, run).committed[p] == 0
    ensures var x, y := Run(w, run + PollActions(w.cfg, r, p, a, timesA)),
                        Run(w, run + PollActions(w.cfg, r, p, b, timesB));
      exists lane :: Rests(x, r, p, lane) && Rests(y, r, p, lane) && Slices(x.trace) == Slices(y.trace)
  {
    hide Run, PollActions, RunPolls, Smooth, StartOf, Rests, Enabled, Slices, Joined, Stamped;
    MonotonePrefix(w.cfg, Joined(a), w.logs[p]);
    PollsDoNotMatter(w.cfg, a, b);
    PollsAreProtocol(w, run, r, p, a, timesA);
    PollsAreProtocol(w, run, r, p, b, timesB);
  }

  lemma MonotonePrefix(cfg: Settings, prefix: Log, log: Log)
    requires WindowMonotone(cfg, log) && prefix <= log
    ensures WindowMonotone(cfg, prefix) && forall e :: e in log ==> Stamped(e)
  {
    hide StartOf, Stamped;
    assert forall i :: 0 <= i < |prefix| ==> prefix[i] == log[i];
  }
}

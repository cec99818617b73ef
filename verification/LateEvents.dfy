/** What a resync discards is counted late, message by message. */
module LateEvents {
  import opened Delivery
  import opened Guarantees
  import opened Lanes
  import opened Offsets
  import opened Protocol
  import opened Routing
  import opened Sets
  import opened Tallies
  import opened TimeSources
  import WindowRuns
  import opened Windows

  /** The positions of the messages of one window. */
  ghost function PositionsAt(starts: seq<int>, k: int): set<int> {
    set i | 0 <= i < |starts| && starts[i] == k
  }

  ghost function PositionsIn(starts: seq<int>, keys: set<int>): set<int> {
    set i | 0 <= i < |starts| && starts[i] in keys
  }

  /** The offsets of one partition among some messages. */
  ghost function Of(messages: set<(int, int)>, p: int): set<int> {
    set x | x in messages && x.0 == p :: x.1
  }

  lemma {:induction false} BucketCounts(log: Log, base: nat, starts: seq<int>, k: int)
    requires base + |starts| <= |log|
    ensures |Bucket(Routes(log, base, starts), k)| == |PositionsAt(starts, k)|
  {
    if starts == [] {
      assert PositionsAt(starts, k) == {};
    } else {
      var n := |starts| - 1;
      BucketCounts(log, base, starts[..n], k);
      assert Routes(log, base, starts)[..n] == Routes(log, base, starts[..n]);
      assert PositionsAt(starts, k) == PositionsAt(starts[..n], k) + if starts[n] == k then {n} else {};
    }
  }

  /** Windows that count what their positions say hold as many events as there are positions in any of them. */
  lemma {:induction false} TotalCountsPositions(windows: map<int, Tally>, starts: seq<int>)
    requires forall k :: k in windows ==> windows[k].total == |PositionsAt(starts, k)|
    ensures TotalOf(windows) == |PositionsIn(starts, windows.Keys)|
    decreases windows.Keys
  {
    if windows.Keys == {} {
      assert PositionsIn(starts, windows.Keys) == {};
    } else {
      var k := Pick(windows.Keys);
      TotalCountsPositions(windows - {k}, starts);
      var rest, own := PositionsIn(starts, (windows - {k}).Keys), PositionsAt(starts, k);
      assert PositionsIn(starts, windows.Keys) == own + rest;
      assert own !! rest;
    }
  }

  lemma OpenCountsPositions(cfg: Settings, log: Log, committed: nat, lane: Lane, k: int)
    requires LaneOk(cfg, log, committed, committed, lane, true) && k in lane.manager.windows
    ensures lane.manager.windows[k].total == |PositionsAt(lane.starts, k)|
  {
    hide LastOffsets;
    BucketCounts(log, lane.base, lane.starts, k);
  }

  ghost function Shifted(positions: set<int>, base: int): set<int> {
    set i | i in positions :: base + i
  }

  lemma ShiftedHas(positions: set<int>, base: int, x: int)
    ensures x in Shifted(positions, base) <==> x - base in positions
  {
    if x - base in positions { assert base + (x - base) in Shifted(positions, base); }
  }

  lemma {:induction false} ShiftedSize(positions: set<int>, base: int)
    ensures |Shifted(positions, base)| == |positions|
  {
    if positions == {} {
      assert Shifted(positions, base) == {};
    } else {
      var i := Pick(positions);
      var rest := Shifted(positions - {i}, base);
      ShiftedSize(positions - {i}, base);
      forall x ensures x in Shifted(positions, base) <==> x in rest + {base + i} {
        ShiftedHas(positions, base, x);
        ShiftedHas(positions - {i}, base, x);
      }
      ShiftedHas(positions - {i}, base, base + i);
      assert Shifted(positions, base) == rest + {base + i};
    }
  }

  /** What one lane drops. */
  lemma LaneCountsLate(cfg: Settings, source: string, log: Log, committed: nat, lane: Lane, now: real)
    requires LaneOk(cfg, log, committed, committed, lane, true)
    ensures PopLane(cfg, source, lane, now).manager.late
         == lane.manager.late + |PositionsIn(lane.starts, LaneDropped(cfg, source, lane, now).Keys)|
  {
    hide LastOffsets, Grouped, NewestClosed, EmitAfter;
    var dropped := LaneDropped(cfg, source, lane, now);
    forall k | k in dropped ensures dropped[k].total == |PositionsAt(lane.starts, k)| {
      OpenCountsPositions(cfg, log, committed, lane, k);
    }
    TotalCountsPositions(dropped, lane.starts);
    NoneDropped();
  }

  lemma NoneDropped()
    ensures TotalOf(map[]) == 0
  {
  }

  /** A flush raises a partition's late count by exactly the number of its offsets it discards. */
  lemma DiscardsAreCountedLate(w: World, actions: seq<Action>, r: int, p: int)
    requires ValidWorld(w) && r in Run(w, actions).replicas && Run(w, actions).replicas[r].stage.Polled?
    requires p in Run(w, actions).replicas[r].lanes
    ensures Enabled(w, Run(w, actions), Pop(r)) && p in Advance(w, Run(w, actions), Pop(r)).lanes
    ensures var c, rep := Run(w, actions), Run(w, actions).replicas[r];
      && Advance(w, c, Pop(r)).lanes[p].manager.late
         == rep.lanes[p].manager.late + |Of(Discarded(w, rep.lanes, rep.stage.arrival), p)|
      && Next(w, c, Pop(r)).dropped == c.dropped + Discarded(w, rep.lanes, rep.stage.arrival)
  {
    hide Run, LaneDropped, PopLane, Collect, Sized, Lists, PartitionInv, AllOk, LaneMode, LaneOk, ClosedDurable;
    var c := Run(w, actions);
    var rep := c.replicas[r];
    var lane, now := rep.lanes[p], rep.stage.arrival;
    RunKeeps(w, actions);
    assert LaneInv(w, c, rep, p);
    LaneCountsLate(w.cfg, w.source, w.logs[p], c.committed[p], lane, now);
    DiscardedOf(w, rep.lanes, p, now);
  }

  lemma DiscardedOf(w: World, lanes: map<int, Lane>, p: int, now: real)
    requires w.cfg.size > 0 && p in lanes
    ensures |Of(Discarded(w, lanes, now), p)|
         == |PositionsIn(lanes[p].starts, LaneDropped(w.cfg, w.source, lanes[p], now).Keys)|
  {
    hide LaneDropped;
    var positions := PositionsIn(lanes[p].starts, LaneDropped(w.cfg, w.source, lanes[p], now).Keys);
    ShiftedSize(positions, lanes[p].base);
    forall x ensures x in Of(Discarded(w, lanes, now), p) <==> x in Shifted(positions, lanes[p].base) {
      ShiftedHas(positions, lanes[p].base, x);
      DiscardedHas(w, lanes, p, now, x);
    }
    assert Of(Discarded(w, lanes, now), p) == Shifted(positions, lanes[p].base);
  }

  lemma DiscardedHas(w: World, lanes: map<int, Lane>, p: int, now: real, x: int)
    requires w.cfg.size > 0 && p in lanes
    ensures x in Of(Discarded(w, lanes, now), p) <==>
      x - lanes[p].base in PositionsIn(lanes[p].starts, LaneDropped(w.cfg, w.source, lanes[p], now).Keys)
  {
    hide LaneDropped;
    var i := x - lanes[p].base;
    if i in PositionsIn(lanes[p].starts, LaneDropped(w.cfg, w.source, lanes[p], now).Keys) {
      assert (p, lanes[p].base + i) in Discarded(w, lanes, now);
    }
  }

  // ------------------------------------------------------------------
  // Over a whole incarnation
  // ------------------------------------------------------------------

  /** The offsets of a partition that the current incarnation of a replica has discarded. */
  ghost function DiscardedBy(w: World, run: seq<Action>, r: int, p: int): set<int>
    requires Started(w)
  {
    if run == [] then {}
    else
      var before, c, a := run[..|run| - 1], Run(w, run[..|run| - 1]), run[|run| - 1];
      if a.r != r || !Enabled(w, c, a) then DiscardedBy(w, before, r, p)
      else if a.Join? || a.Crash? then {}
      else if a.Pop? then
        DiscardedBy(w, before, r, p) + Of(Discarded(w, c.replicas[r].lanes, c.replicas[r].stage.arrival), p)
      else DiscardedBy(w, before, r, p)
  }

  /** The late count is the number of discarded offsets, which all lie in closed windows. */
  ghost predicate Tallied(lane: Lane, discarded: set<int>) {
    && lane.manager.late == |discarded|
    && forall x :: x in discarded ==>
         && lane.base <= x < Position(lane) && lane.manager.emittedThrough.Some?
         && lane.starts[x - lane.base] <= Emitted(lane)
  }

  ghost predicate LateInv(w: World, run: seq<Action>, r: int, p: int)
    requires Started(w)
  {
    var c, discarded := Run(w, run), DiscardedBy(w, run, r, p);
    && (r in c.replicas && p in c.replicas[r].lanes ==> Tallied(c.replicas[r].lanes[p], discarded))
    && (r !in c.replicas || p !in c.replicas[r].lanes ==> discarded == {})
    && (forall x :: x in discarded ==> (p, x) in c.dropped)
  }

  lemma PollKeepsTallied(w: World, run: seq<Action>, a: Action, p: int)
    requires ValidWorld(w) && a.Poll? && Enabled(w, Run(w, run), a) && p in Advance(w, Run(w, run), a).lanes
    requires LateInv(w, run, a.r, p)
    ensures Tallied(Advance(w, Run(w, run), a).lanes[p], DiscardedBy(w, run, a.r, p))
  {
    hide Run, DiscardedBy, IngestAll, Sized, Lists, LaneOk, LaneMode, ReplicaInv, PartitionInv, AllOk;
    var c := Run(w, run);
    if p in a.counts {
      PollIsNeverLate(w, run, a, p);
      IngestAllShape(w.cfg, w.source, LaneAt(c, c.replicas[a.r], p),
                     Records(w.logs[p], LaneAt(c, c.replicas[a.r], p), a.counts[p]), a.arrival);
    }
  }

  /** What a flush discards was open before and is closed after. */
  lemma DiscardedWasOpen(cfg: Settings, source: string, log: Log, committed: nat, lane: Lane, now: real, i: int)
    requires LaneOk(cfg, log, committed, committed, lane, true)
    requires i in PositionsIn(lane.starts, LaneDropped(cfg, source, lane, now).Keys)
    ensures lane.manager.emittedThrough.Some? && lane.starts[i] > Emitted(lane)
    ensures PopLane(cfg, source, lane, now).manager.emittedThrough.Some?
    ensures lane.starts[i] <= Emitted(PopLane(cfg, source, lane, now))
  {
    hide LastOffsets, NewestClosed;
    var clock := Clock(source, lane.manager, now);
    WindowRuns.EmitBounds(cfg, lane.manager, clock.value);
  }

  lemma PopKeepsTallied(w: World, run: seq<Action>, r: int, p: int)
    requires ValidWorld(w) && Enabled(w, Run(w, run), Pop(r)) && p in Run(w, run).replicas[r].lanes
    requires LateInv(w, run, r, p)
    ensures p in Advance(w, Run(w, run), Pop(r)).lanes
    ensures var rep := Run(w, run).replicas[r];
      Tallied(Advance(w, Run(w, run), Pop(r)).lanes[p],
              DiscardedBy(w, run, r, p) + Of(Discarded(w, rep.lanes, rep.stage.arrival), p))
  {
    hide Run, DiscardedBy, LaneDropped, PopLane, Collect, Sized, Lists, PartitionInv, AllOk, LaneMode, LaneOk,
      ClosedDurable,
      Discarded, Of, Tallied, Through;
    var c := Run(w, run);
    var rep := c.replicas[r];
    var lane, now, popped := rep.lanes[p], rep.stage.arrival, Advance(w, c, Pop(r)).lanes[p];
    RunKeeps(w, run);
    assert LaneInv(w, c, rep, p);
    DiscardsAreCountedLate(w, run, r, p);
    forall x | x in Of(Discarded(w, rep.lanes, now), p) ensures NewlyClosed(lane, popped, x) {
      DiscardedHas(w, rep.lanes, p, now, x);
      DiscardedWasOpen(w.cfg, w.source, w.logs[p], c.committed[p], lane, now, x - lane.base);
    }
    LaneOnlyCloses(w.cfg, w.source, w.logs[p], c.committed[p], lane, now);
    TalliedGrows(lane, popped, DiscardedBy(w, run, r, p), Of(Discarded(w, rep.lanes, now), p));
  }

  /** The offset's window was open in one lane and is closed in the other. */
  ghost predicate NewlyClosed(lane: Lane, popped: Lane, x: int) {
    && lane.base <= x < Position(lane) && lane.manager.emittedThrough.Some? && popped.manager.emittedThrough.Some?
    && Emitted(lane) < lane.starts[x - lane.base] <= Emitted(popped)
  }

  lemma TalliedGrows(lane: Lane, popped: Lane, earlier: set<int>, added: set<int>)
    requires Tallied(lane, earlier) && popped.base == lane.base && popped.starts == lane.starts
    requires lane.manager.emittedThrough.Some? ==>
      popped.manager.emittedThrough.Some? && Emitted(popped) >= Emitted(lane)
    requires popped.manager.late == lane.manager.late + |added|
    requires forall x :: x in added ==> NewlyClosed(lane, popped, x)
    ensures Tallied(popped, earlier + added)
  {
    forall x | x in earlier ensures x !in added {}
    assert |earlier + added| == |earlier| + |added|;
  }

  lemma LaneOnlyCloses(cfg: Settings, source: string, log: Log, committed: nat, lane: Lane, now: real)
    requires LaneOk(cfg, log, committed, committed, lane, true)
    ensures var popped := PopLane(cfg, source, lane, now);
      && popped.base == lane.base && popped.starts == lane.starts
      && (lane.manager.emittedThrough.Some? ==>
            popped.manager.emittedThrough.Some? && Emitted(popped) >= Emitted(lane))
  {
    hide LastOffsets, NewestClosed, Grouped;
  }

  lemma DiscardedBySnoc(w: World, run: seq<Action>, a: Action, r: int, p: int)
    requires Started(w)
    ensures var c := Run(w, run);
      DiscardedBy(w, run + [a], r, p) ==
        if a.r != r || !Enabled(w, c, a) then DiscardedBy(w, run, r, p)
        else if a.Join? || a.Crash? then {}
        else if a.Pop? then
          DiscardedBy(w, run, r, p) + Of(Discarded(w, c.replicas[r].lanes, c.replicas[r].stage.arrival), p)
        else DiscardedBy(w, run, r, p)
  {
    hide Run, Enabled, Discarded, Of;
    assert (run + [a])[..|run|] == run;
  }

  /** A replica that is not stepping keeps its lanes, and its discarded offsets stay in the history. */
  lemma OtherStepKeepsLate(w: World, run: seq<Action>, a: Action, r: int, p: int)
    requires Started(w) && LateInv(w, run, r, p) && (a.r != r || !Enabled(w, Run(w, run), a))
    ensures LateInv(w, run + [a], r, p)
  {
    hide Run, DiscardedBy, Tallied, PollFits, Lists, Sized, Collect, Discarded;
    RunSnoc(w, run, a);
    DiscardedBySnoc(w, run, a, r, p);
  }

  lemma OwnStepKeepsLate(w: World, run: seq<Action>, a: Action, p: int)
    requires ValidWorld(w) && LateInv(w, run, a.r, p) && Enabled(w, Run(w, run), a)
    ensures LateInv(w, run + [a], a.r, p)
  {
    hide Run, DiscardedBy, Tallied, PollFits, Lists, Sized, Collect, Discarded, PollLanes, PopLane, Remaining;
    var c := Run(w, run);
    RunSnoc(w, run, a);
    DiscardedBySnoc(w, run, a, a.r, p);
    if !a.Join? && !a.Crash? && p in Advance(w, c, a).lanes {
      if a.Poll? {
        PollKeepsTallied(w, run, a, p);
      } else if a.Pop? {
        PopKeepsTallied(w, run, a.r, p);
      } else {
        SameTallied(c.replicas[a.r].lanes[p], Advance(w, c, a).lanes[p], DiscardedBy(w, run, a.r, p));
      }
    }
    LanesOnlyGrow(w, c, a, p);
  }

  lemma SameTallied(lane: Lane, after: Lane, discarded: set<int>)
    requires Tallied(lane, discarded)
    requires after.manager == lane.manager && after.base == lane.base && after.starts == lane.starts
    ensures Tallied(after, discarded)
  {
  }

  lemma LanesOnlyGrow(w: World, c: Cluster, a: Action, p: int)
    requires Shaped(w, c) && Enabled(w, c, a)
    ensures !a.Join? && !a.Crash? && p in c.replicas[a.r].lanes ==> p in Advance(w, c, a).lanes
    ensures !a.Join? && !a.Crash? && p !in c.replicas[a.r].lanes && a.Pop? ==>
      Of(Discarded(w, c.replicas[a.r].lanes, c.replicas[a.r].stage.arrival), p) == {}
    ensures a.Pop? ==>
      Next(w, c, a).dropped == c.dropped + Discarded(w, c.replicas[a.r].lanes, c.replicas[a.r].stage.arrival)
  {
    hide Shaped, Sized, Lists, PollFits, IngestAll, PopLane, Collect, LaneDropped, Through;
  }

  lemma {:induction false} RunKeepsLate(w: World, run: seq<Action>, r: int, p: int)
    requires ValidWorld(w)
    ensures LateInv(w, run, r, p)
  {
    hide Next, Enabled, WindowMonotone;
    if run != [] {
      var before, a := run[..|run| - 1], run[|run| - 1];
      RunKeepsLate(w, before, r, p);
      assert run == before + [a];
      if a.r != r || !Enabled(w, Run(w, before), a) {
        OtherStepKeepsLate(w, before, a, r, p);
      } else {
        OwnStepKeepsLate(w, before, a, p);
      }
    }
  }

  /**
   * In every reachable state the late count of a partition is exactly the number of its offsets the incarnation has
   * discarded, each of them recorded as dropped: whatever a resync discards is counted in `late_events`.
   */
  lemma LateIsWhatWasDiscarded(w: World, run: seq<Action>, r: int, p: int)
    requires ValidWorld(w) && r in Run(w, run).replicas && p in Run(w, run).replicas[r].lanes
    ensures Run(w, run).replicas[r].lanes[p].manager.late == |DiscardedBy(w, run, r, p)|
    ensures forall x :: x in DiscardedBy(w, run, r, p) ==> (p, x) in Run(w, run).dropped
  {
    hide Run, DiscardedBy;
    RunKeepsLate(w, run, r, p);
  }

  /** A dropped offset was discarded, and so counted late, by some incarnation at some point of the run. */
  lemma {:induction false} DroppedWasDiscarded(w: World, run: seq<Action>, p: int, x: int) returns (n: nat, r: int)
    requires ValidWorld(w) && (p, x) in Run(w, run).dropped
    ensures n <= |run| && x in DiscardedBy(w, run[..n], r, p)
  {
    hide DiscardedBy, PollFits, Lists, Sized, Collect, Discarded, WindowMonotone, Shaped;
    var before, a := run[..|run| - 1], run[|run| - 1];
    var c := Run(w, before);
    if (p, x) in c.dropped {
      n, r := DroppedWasDiscarded(w, before, p, x);
      assert before[..n] == run[..n];
    } else {
      n, r := |run|, a.r;
      assert run[..n] == run == before + [a];
      DiscardedBySnoc(w, before, a, r, p);
      assert x in Of(Discarded(w, c.replicas[r].lanes, c.replicas[r].stage.arrival), p);
    }
  }

  /** The message is among those the incarnation has discarded, and the late count is their number. */
  ghost predicate CountedLate(w: World, run: seq<Action>, r: int, p: int, i: int)
    requires Started(w)
  {
    var c := Run(w, run);
    && r in c.replicas && p in c.replicas[r].lanes && i in DiscardedBy(w, run, r, p)
    && c.replicas[r].lanes[p].manager.late == |DiscardedBy(w, run, r, p)|
  }

  /** Commit safety: a committed message is counted in a durable write, or was discarded and counted late. */
  lemma CommittedIsWrittenOrLate(w: World, run: seq<Action>, p: int, i: int)
    requires ValidWorld(w) && p in w.logs
    requires w.origins[p] <= i < Run(w, run).committed[p]
    ensures (exists e :: e in Run(w, run).trace && Covers(e, p, i))
            || exists n, r :: 0 <= n <= |run| && CountedLate(w, run[..n], r, p, i)
  {
    hide Run, DiscardedBy, Covers, WindowMonotone;
    CommittedIsDurable(w, run, p, i);
    if (p, i) in Run(w, run).dropped {
      var n, r := DroppedWasDiscarded(w, run, p, i);
      RunKeepsLate(w, run[..n], r, p);
      assert CountedLate(w, run[..n], r, p, i);
    }
  }
}

/** Event time: how a log is cut into polls makes no difference to what is emitted or left open. */
module Confluence {
  import opened Alignment
  import opened Events
  import opened Lanes
  import opened Offsets
  import opened Routing
  import opened Tallies
  import opened TimeSources
  import opened Windows
  import opened WindowRuns
  import Guarantees

  /** A lane and everything it has emitted so far. */
  datatype Flushed = Flushed(lane: Lane, emitted: seq<Slice>)

  ghost function PollOnce(cfg: Settings, lane: Lane, chunk: seq<Event>): Lane
    requires cfg.size > 0
  {
    IngestAll(cfg, EVENT, lane, chunk, 0.0)
  }

  /** One turn of the loop: consume a poll, close what the watermark has passed, release its offsets. */
  ghost function Turn(cfg: Settings, f: Flushed, chunk: seq<Event>): Flushed
    requires WellFormed(cfg, f.lane.manager)
  {
    var polled := PollOnce(cfg, f.lane, chunk);
    PollIsWellFormed(cfg, f.lane, chunk);
    var out, popped := LaneSlices(cfg, EVENT, polled, 0.0), PopLane(cfg, EVENT, polled, 0.0);
    Flushed(if out == [] then popped else ReleaseLane(popped, out[|out| - 1].windowStart), f.emitted + out)
  }

  lemma {:induction false} PollIsWellFormed(cfg: Settings, lane: Lane, chunk: seq<Event>)
    requires WellFormed(cfg, lane.manager)
    ensures WellFormed(cfg, PollOnce(cfg, lane, chunk).manager)
  {
    if chunk != [] {
      var n := |chunk| - 1;
      PollIsWellFormed(cfg, lane, chunk[..n]);
      AddKeepsWellFormed(cfg, PollOnce(cfg, lane, chunk[..n]).manager, chunk[n], EventTimestamp(chunk[n], 0.0, EVENT));
    }
  }

  lemma TurnIsWellFormed(cfg: Settings, f: Flushed, chunk: seq<Event>)
    requires WellFormed(cfg, f.lane.manager)
    ensures WellFormed(cfg, Turn(cfg, f, chunk).lane.manager)
  {
    hide WellFormed;
    PollIsWellFormed(cfg, f.lane, chunk);
    var polled := PollOnce(cfg, f.lane, chunk);
    if polled.manager.maxTs.Some? { PopKeepsWellFormed(cfg, polled.manager, polled.manager.maxTs.value); }
  }

  /** A whole run over the polls of one partition, from a fresh start. */
  ghost function RunPolls(cfg: Settings, polls: seq<seq<Event>>): (f: Flushed)
    requires cfg.size > 0
    ensures WellFormed(cfg, f.lane.manager)
  {
    if polls == [] then Flushed(NewLane(0), [])
    else
      var before := RunPolls(cfg, polls[..|polls| - 1]);
      TurnIsWellFormed(cfg, before, polls[|polls| - 1]);
      Turn(cfg, before, polls[|polls| - 1])
  }

  /** No flush of the run finds more windows due than it may emit. */
  ghost predicate Smooth(cfg: Settings, polls: seq<seq<Event>>)
    requires cfg.size > 0
  {
    polls == [] ||
    (var polled := PollOnce(cfg, RunPolls(cfg, polls[..|polls| - 1]).lane, polls[|polls| - 1]);
     && Smooth(cfg, polls[..|polls| - 1])
     && (polled.manager.maxTs.Some? ==> !Resyncs(cfg, polled.manager, polled.manager.maxTs.value)))
  }

  // ------------------------------------------------------------------
  // What the log alone determines
  // ------------------------------------------------------------------

  function StartsOf(cfg: Settings, log: Log): seq<int>
    requires cfg.size > 0
  {
    seq(|log|, i requires 0 <= i < |log| => StartOf(cfg, log[i]))
  }

  function MaxStamp(log: Log): Option<real> {
    if log == [] then None
    else
      var prior, ts := MaxStamp(log[..|log| - 1]), EventTimestamp(log[|log| - 1], 0.0, EVENT);
      if prior.None? || ts > prior.value then Some(ts) else prior
  }

  /** The last window the watermark closes, never before the window preceding the first message. */
  function ClosedThrough(cfg: Settings, log: Log): int
    requires cfg.size > 0 && log != []
  {
    var first, newest := StartOf(cfg, log[0]) - cfg.size, NewestClosed(cfg, MaxStamp(log).value);
    if first > newest then first else newest
  }

  /** The complete summaries of every window after `after`, up to `through`. */
  function Series(cfg: Settings, routed: seq<Routed>, after: int, through: int): seq<Slice>
    requires cfg.size > 0
    decreases through - after
  {
    if through <= after then []
    else Series(cfg, routed, after, through - cfg.size) + [Complete(cfg, routed, through)]
  }

  ghost predicate Canonical(cfg: Settings, log: Log, f: Flushed)
    requires cfg.size > 0
  {
    && f.lane.base == 0 && f.lane.starts == StartsOf(cfg, log)
    && f.lane.manager.maxTs == MaxStamp(log) && f.lane.manager.late == 0
    && (log == [] ==> f.lane.manager == FRESH && f.emitted == [])
    && (log != [] ==>
          && f.lane.manager.emittedThrough == Some(ClosedThrough(cfg, log))
          && f.emitted == Series(cfg, Routes(log, 0, StartsOf(cfg, log)),
                                 StartOf(cfg, log[0]) - cfg.size, ClosedThrough(cfg, log)))
  }

  /** Two lanes over the same log with the same emission point hold the same windows and offsets. */
  lemma SameLane(cfg: Settings, log: Log, a: Lane, b: Lane, nextA: nat, nextB: nat)
    requires LaneOk(cfg, log, nextA, nextA, a, true) && LaneOk(cfg, log, nextB, nextB, b, true)
    requires a.base == b.base && a.starts == b.starts
    requires a.manager.emittedThrough == b.manager.emittedThrough && a.manager.maxTs == b.manager.maxTs
    requires a.manager.late == b.manager.late
    ensures a == b
  {
    hide Grouped, LastOffsets, CountBelow;
    ClosedEndIsNext(cfg, log, nextA, nextA, a);
    ClosedEndIsNext(cfg, log, nextB, nextB, b);
    SameWindows(cfg, log, a, b, nextA);
    SamePending(a.pending, b.pending, nextA, a.starts[nextA - a.base..]);
  }

  lemma SameWindows(cfg: Settings, log: Log, a: Lane, b: Lane, next: nat)
    requires LaneOk(cfg, log, next, next, a, true) && LaneOk(cfg, log, next, next, b, true)
    requires a.base == b.base && a.starts == b.starts && a.manager.emittedThrough == b.manager.emittedThrough
    ensures a.manager.windows == b.manager.windows
  {
    hide LastOffsets, TallyOf, Aligned;
    var m, n := a.manager.windows, b.manager.windows;
    forall k ensures (k in m <==> k in n) && (k in m ==> m[k] == n[k]) {
      if k in m || k in n { assert k > Emitted(a); }
    }
    assert m.Keys == n.Keys;
  }

  lemma SamePending(p: Pending, q: Pending, base: nat, starts: seq<int>)
    requires LastOffsets(p, base, starts) && LastOffsets(q, base, starts)
    ensures p == q
  {
    forall w ensures (w in p <==> w in q) && (w in p ==> p[w] == q[w]) {
      if w in p { assert starts[p[w] - base] == w; }
      if w in q { assert starts[q[w] - base] == w; }
    }
    assert p.Keys == q.Keys;
  }

  // ------------------------------------------------------------------
  // Every turn lands on it
  // ------------------------------------------------------------------

  lemma {:induction false} PollStamps(cfg: Settings, lane: Lane, log: Log, chunk: seq<Event>)
    requires cfg.size > 0 && lane.manager.maxTs == MaxStamp(log) && lane.starts == StartsOf(cfg, log)
    ensures var after := PollOnce(cfg, lane, chunk);
      after.manager.maxTs == MaxStamp(log + chunk) && after.starts == StartsOf(cfg, log + chunk)
  {
    hide Align, Count;
    if chunk == [] {
      assert log + chunk == log;
    } else {
      var n := |chunk| - 1;
      PollStamps(cfg, lane, log, chunk[..n]);
      assert (log + chunk)[..|log + chunk| - 1] == log + chunk[..n];
      assert StartsOf(cfg, log + chunk) == StartsOf(cfg, log + chunk[..n]) + [StartOf(cfg, chunk[n])];
    }
  }

  /** The first counted message fixes where emission begins. */
  lemma {:induction false} PollOrigin(cfg: Settings, lane: Lane, chunk: seq<Event>)
    requires cfg.size > 0 && chunk != [] && lane.manager == FRESH
    ensures PollOnce(cfg, lane, chunk).manager.emittedThrough == Some(StartOf(cfg, chunk[0]) - cfg.size)
  {
    hide Align, Count;
    var n := |chunk| - 1;
    if n > 0 {
      PollOrigin(cfg, lane, chunk[..n]);
    } else {
      assert chunk[..n] == [] && PollOnce(cfg, lane, chunk[..n]) == lane;
    }
  }

  lemma {:induction false} SeriesSplits(cfg: Settings, routed: seq<Routed>, after: int, mid: int, through: int)
    requires cfg.size > 0 && after <= mid <= through && Aligned(cfg.size, mid) && Aligned(cfg.size, through)
    ensures Series(cfg, routed, after, mid) + Series(cfg, routed, mid, through) == Series(cfg, routed, after, through)
    decreases through - mid
  {
    hide Aligned, Complete;
    if mid < through {
      AlignedStep(cfg.size, through);
      AlignedApart(cfg.size, mid, through);
      SeriesSplits(cfg, routed, after, mid, through - cfg.size);
      assert Series(cfg, routed, after, mid)
             + (Series(cfg, routed, mid, through - cfg.size) + [Complete(cfg, routed, through)])
          == Series(cfg, routed, after, mid) + Series(cfg, routed, mid, through - cfg.size)
             + [Complete(cfg, routed, through)];
    }
  }

  /** Messages of later windows do not change what was due before them. */
  lemma {:induction false} SeriesStable(cfg: Settings, routed: seq<Routed>, more: seq<Routed>, after: int, through: int)
    requires cfg.size > 0 && forall i :: 0 <= i < |more| ==> more[i].start > through
    ensures Series(cfg, routed + more, after, through) == Series(cfg, routed, after, through)
    decreases through - after
  {
    hide Snapshot;
    if through > after {
      SeriesStable(cfg, routed, more, after, through - cfg.size);
      BucketOfConcat(routed, more, through);
      BucketEmpty(more, through);
      assert Bucket(routed, through) + [] == Bucket(routed, through);
    }
  }

  lemma {:induction false} SlicesAreSeries(cfg: Settings, m: Manager, routed: seq<Routed>, after: int, through: int)
    requires Grouped(cfg, m, routed) && m.emittedThrough.Some? && after >= m.emittedThrough.value
    ensures Slices(cfg, m.windows, after, through) == Series(cfg, routed, after, through)
    decreases through - after
  {
    hide Snapshot, Count, Aligned;
    if through > after {
      SlicesAreSeries(cfg, m, routed, after, through - cfg.size);
      assert TallyAt(cfg, m.windows, through) == TallyOf(through, cfg.size, Bucket(routed, through));
    }
  }

  lemma {:induction false} MaxStampGrows(a: Log, b: Log)
    ensures MaxStamp(a).Some? ==> MaxStamp(a + b).Some? && MaxStamp(a).value <= MaxStamp(a + b).value
  {
    if b == [] {
      assert a + b == a;
    } else {
      assert (a + b)[..|a + b| - 1] == a + b[..|b| - 1];
      MaxStampGrows(a, b[..|b| - 1]);
    }
  }

  lemma NewestMonotone(cfg: Settings, s: real, t: real)
    requires cfg.size > 0 && s <= t
    ensures NewestClosed(cfg, s) <= NewestClosed(cfg, t)
  {
    AlignMonotone(cfg.size, s - cfg.grace, t - cfg.grace);
  }

  lemma PolledLaneOk(cfg: Settings, log: Log, lane: Lane, next: nat, chunk: seq<Event>)
    requires cfg.size > 0 && WindowMonotone(cfg, log) && Position(lane) + |chunk| <= |log|
    requires chunk == log[Position(lane)..Position(lane) + |chunk|]
    requires LaneOk(cfg, log, next, next, lane, true) && EventLane(cfg, log, 0, lane)
    ensures var polled := PollOnce(cfg, lane, chunk);
      && LaneOk(cfg, log, next, next, polled, true) && EventLane(cfg, log, 0, polled)
      && polled.base == lane.base && polled.manager.late == lane.manager.late
      && (lane.manager.emittedThrough.Some? ==> polled.manager.emittedThrough == lane.manager.emittedThrough)
  {
    hide LaneOk, WindowMonotone, IngestAll, EventLane;
    IngestAllKeeps(cfg, EVENT, log, 0, next, next, lane, 0.0, chunk);
    IngestAllShape(cfg, EVENT, lane, chunk, 0.0);
    Guarantees.IngestIsNeverLate(cfg, EVENT, log, 0, next, lane, 0.0, chunk);
    ModeIsEvent(cfg, EVENT, log, 0, 0.0, PollOnce(cfg, lane, chunk));
  }

  /** The emission point while the latest poll has not been flushed. */
  function PolledThrough(cfg: Settings, before: Log, chunk: seq<Event>): int
    requires cfg.size > 0 && before + chunk != []
  {
    if before == [] then StartOf(cfg, chunk[0]) - cfg.size else ClosedThrough(cfg, before)
  }

  lemma PolledLane(cfg: Settings, log: Log, before: Log, f: Flushed, next: nat, chunk: seq<Event>)
    requires cfg.size > 0 && WindowMonotone(cfg, log) && before + chunk <= log && Canonical(cfg, before, f)
    requires LaneOk(cfg, log, next, next, f.lane, true) && EventLane(cfg, log, 0, f.lane)
    ensures var polled := PollOnce(cfg, f.lane, chunk);
      && LaneOk(cfg, log, next, next, polled, true) && EventLane(cfg, log, 0, polled)
      && polled.base == 0 && polled.starts == StartsOf(cfg, before + chunk)
      && polled.manager.maxTs == MaxStamp(before + chunk) && polled.manager.late == 0
      && (before + chunk != [] ==> polled.manager.emittedThrough == Some(PolledThrough(cfg, before, chunk)))
      && (before + chunk == [] ==> polled == f.lane)
  {
    hide LaneOk, EventLane, WindowMonotone, IngestAll, ClosedThrough, StartOf, MaxStamp, Series;
    ChunkInLog(log, before, chunk);
    PolledLaneOk(cfg, log, f.lane, next, chunk);
    PollStamps(cfg, f.lane, before, chunk);
    if before == [] {
      if chunk == [] { NothingPolled(cfg, f.lane); } else { PollOrigin(cfg, f.lane, chunk); }
    }
  }

  lemma ChunkInLog(log: Log, before: Log, chunk: seq<Event>)
    requires before + chunk <= log
    ensures |before| + |chunk| <= |log| && chunk == log[|before|..|before| + |chunk|]
  {
    assert log[..|before + chunk|] == before + chunk;
  }

  lemma NothingPolled(cfg: Settings, lane: Lane)
    requires cfg.size > 0
    ensures PollOnce(cfg, lane, []) == lane
  {
  }


  /** What the flush emits extends the series so far by the windows closed since. */
  ghost predicate FlushExtends(cfg: Settings, routed: seq<Routed>, polled: Lane, first: int)
    requires WellFormed(cfg, polled.manager) && polled.manager.emittedThrough.Some?
  {
    var out, popped := LaneSlices(cfg, EVENT, polled, 0.0), PopLane(cfg, EVENT, polled, 0.0);
    var newest := NewestClosed(cfg, polled.manager.maxTs.value);
    && popped.manager.emittedThrough == Some(if newest > Emitted(polled) then newest else Emitted(polled))
    && popped.manager.late == polled.manager.late && popped.manager.maxTs == polled.manager.maxTs
    && Series(cfg, routed, first, Emitted(polled)) + out == Series(cfg, routed, first, Emitted(popped))
    && (out == [] ==> popped == polled)
    && (out != [] ==> out[|out| - 1].windowStart == Emitted(popped))
  }

  /** Without a resync the flush emits the next stretch of the series and stops where the watermark does. */
  lemma FlushEmitsSeries(cfg: Settings, log: Log, next: nat, polled: Lane, first: int)
    requires LaneOk(cfg, log, next, next, polled, true) && EventLane(cfg, log, 0, polled) && polled.starts != []
    requires !Resyncs(cfg, polled.manager, polled.manager.maxTs.value) && first <= Emitted(polled)
    ensures WellFormed(cfg, polled.manager) && FlushExtends(cfg, Routes(log, polled.base, polled.starts), polled, first)
  {
    hide LastOffsets, NewestClosed, Boundary, Grouped, Routes, FlushExtends, StartOf, Align, WellFormed;
    var m, routed := polled.manager, Routes(log, polled.base, polled.starts);
    GroupedIsWellFormed(cfg, m, routed);
    if Due(cfg, m, m.maxTs.value) {
      FlushWhenDue(cfg, routed, polled, first, m.maxTs.value);
    } else {
      FlushWhenIdle(cfg, routed, polled, first, m.maxTs.value);
    }
  }

  lemma FlushWhenDue(cfg: Settings, routed: seq<Routed>, polled: Lane, first: int, now: real)
    requires Usable(cfg) && WellFormed(cfg, polled.manager) && Grouped(cfg, polled.manager, routed)
    requires polled.manager.maxTs == Some(now) && Due(cfg, polled.manager, now) && !Resyncs(cfg, polled.manager, now)
    requires first <= Emitted(polled)
    ensures FlushExtends(cfg, routed, polled, first)
  {
    hide Aligned, NewestClosed, Snapshot, Complete, Series, Align;
    OneSource();
    var m := polled.manager;
    EmitBounds(cfg, m, now);
    SlicesAreSeries(cfg, m, routed, Emitted(polled), NewestClosed(cfg, now));
    SeriesSplits(cfg, routed, first, Emitted(polled), NewestClosed(cfg, now));
    NothingDropped(cfg, m, now);
  }

  lemma NothingDropped(cfg: Settings, m: Manager, now: real)
    requires cfg.size > 0 && !Resyncs(cfg, m, now)
    ensures Dropped(cfg, m, now) == map[] && TotalOf(Dropped(cfg, m, now)) == 0
  {
  }

  lemma FlushWhenIdle(cfg: Settings, routed: seq<Routed>, polled: Lane, first: int, now: real)
    requires Usable(cfg) && WellFormed(cfg, polled.manager) && polled.manager.emittedThrough.Some?
    requires polled.manager.maxTs == Some(now) && !Due(cfg, polled.manager, now)
    ensures FlushExtends(cfg, routed, polled, first)
  {
    hide Aligned, NewestClosed, Series, Align;
    OneSource();
    var s := Series(cfg, routed, first, Emitted(polled));
    assert s + [] == s;
  }

  /** The summaries emitted before a poll are still the right ones after it. */
  lemma SeriesCarriesOver(cfg: Settings, log: Log, before: Log, f: Flushed, next: nat, chunk: seq<Event>)
    requires cfg.size > 0 && WindowMonotone(cfg, log) && before + chunk <= log && Canonical(cfg, before, f)
    requires before + chunk != []
    requires LaneOk(cfg, log, next, next, f.lane, true) && EventLane(cfg, log, 0, f.lane)
    ensures var all := before + chunk;
      var first := StartOf(cfg, all[0]) - cfg.size;
      && first <= PolledThrough(cfg, before, chunk)
      && f.emitted == Series(cfg, Routes(log, 0, StartsOf(cfg, all)), first, PolledThrough(cfg, before, chunk))
  {
    hide LaneOk, EventLane, WindowMonotone, NewestClosed, StartOf, MaxStamp, Routes;
    if before != [] {
      var more := RoutesGrow(cfg, log, before, chunk);
      ChunkIsOpen(cfg, log, before, f, next, chunk);
      SeriesStable(cfg, Routes(before, 0, StartsOf(cfg, before)), more, StartOf(cfg, before[0]) - cfg.size,
                   ClosedThrough(cfg, before));
    }
  }

  lemma RoutesGrow(cfg: Settings, log: Log, before: Log, chunk: seq<Event>) returns (more: seq<Routed>)
    requires cfg.size > 0 && before + chunk <= log
    ensures Routes(log, 0, StartsOf(cfg, before + chunk)) == Routes(before, 0, StartsOf(cfg, before)) + more
    ensures |more| == |chunk| && forall i :: 0 <= i < |chunk| ==> more[i].start == StartOf(cfg, chunk[i])
  {
    hide StartOf;
    var all := before + chunk;
    assert all == log[..|all|];
    more := Routes(log, 0, StartsOf(cfg, all))[|before|..];
  }

  /** The next messages belong to windows the watermark has not closed. */
  lemma ChunkIsOpen(cfg: Settings, log: Log, before: Log, f: Flushed, next: nat, chunk: seq<Event>)
    requires cfg.size > 0 && WindowMonotone(cfg, log) && before + chunk <= log && Canonical(cfg, before, f)
    requires before != []
    requires LaneOk(cfg, log, next, next, f.lane, true) && EventLane(cfg, log, 0, f.lane)
    ensures forall i :: 0 <= i < |chunk| ==> StartOf(cfg, chunk[i]) > ClosedThrough(cfg, before)
  {
    hide LaneOk, NewestClosed, Boundary, StartOf, Grouped, MaxStamp, Series, ClosedThrough;
    var n := |before| - 1;
    assert f.lane.starts[n] > ClosedThrough(cfg, before);
    forall i | 0 <= i < |chunk| ensures StartOf(cfg, chunk[i]) > ClosedThrough(cfg, before) {
      assert log[|before| + i] == chunk[i] && log[n] == before[n];
      assert StartOf(cfg, log[n]) <= StartOf(cfg, log[|before| + i]);
    }
  }

  lemma RaiseCommitted(cfg: Settings, log: Log, committed: nat, next: nat, lane: Lane, settled: bool)
    requires LaneOk(cfg, log, committed, next, lane, settled)
    ensures LaneOk(cfg, log, next, next, lane, settled)
  {
    hide Grouped, LastOffsets;
  }

  lemma ThroughAfterTurn(cfg: Settings, before: Log, chunk: seq<Event>)
    requires cfg.size > 0 && before + chunk != []
    ensures var newest := NewestClosed(cfg, MaxStamp(before + chunk).value);
      var through := PolledThrough(cfg, before, chunk);
      ClosedThrough(cfg, before + chunk) == if newest > through then newest else through
  {
    hide NewestClosed, StartOf;
    if before == [] {
      assert before + chunk == chunk;
    } else {
      MaxStampGrows(before, chunk);
      NewestMonotone(cfg, MaxStamp(before).value, MaxStamp(before + chunk).value);
    }
  }

  lemma TurnIsCanonical(cfg: Settings, log: Log, before: Log, f: Flushed, next: nat, chunk: seq<Event>)
    returns (after: nat)
    requires Usable(cfg) && WindowMonotone(cfg, log) && before + chunk <= log && Canonical(cfg, before, f)
    requires LaneOk(cfg, log, next, next, f.lane, true) && EventLane(cfg, log, 0, f.lane)
    requires WellFormed(cfg, f.lane.manager)
    requires var m := PollOnce(cfg, f.lane, chunk).manager; m.maxTs.Some? ==> !Resyncs(cfg, m, m.maxTs.value)
    ensures Canonical(cfg, before + chunk, Turn(cfg, f, chunk))
    ensures LaneOk(cfg, log, after, after, Turn(cfg, f, chunk).lane, true)
    ensures EventLane(cfg, log, 0, Turn(cfg, f, chunk).lane)
  {
    hide LaneOk, EventLane, WindowMonotone, ClosedThrough, StartOf, PolledThrough, Series, WellFormed;
    PollIsWellFormed(cfg, f.lane, chunk);
    PolledLane(cfg, log, before, f, next, chunk);
    var all, polled := before + chunk, PollOnce(cfg, f.lane, chunk);
    after := next;
    if all == [] {
      assert f.emitted + [] == f.emitted;
    } else {
      var popped := PopLane(cfg, EVENT, polled, 0.0);
      SeriesCarriesOver(cfg, log, before, f, next, chunk);
      FlushEmitsSeries(cfg, log, next, polled, StartOf(cfg, all[0]) - cfg.size);
      ThroughAfterTurn(cfg, before, chunk);
      RoutesOfPrefix(cfg, log, all);
      PopKeepsMode(cfg, EVENT, log, 0, next, next, polled, 0.0);
      ModeIsEvent(cfg, EVENT, log, 0, 0.0, popped);
      if LaneSlices(cfg, EVENT, polled, 0.0) != [] {
        ReleaseKeepsOrder(cfg, log, next, next, popped);
        after := NextAfter(popped, Emitted(popped), next);
        RaiseCommitted(cfg, log, next, after, ReleaseLane(popped, Emitted(popped)), true);
        ReleaseKeepsEventLane(cfg, log, popped, Emitted(popped));
      }
    }
  }

  lemma RoutesOfPrefix(cfg: Settings, log: Log, all: Log)
    requires cfg.size > 0 && all <= log
    ensures Routes(log, 0, StartsOf(cfg, all)) == Routes(all, 0, StartsOf(cfg, all))
  {
  }

  lemma ReleaseKeepsEventLane(cfg: Settings, log: Log, lane: Lane, through: int)
    requires EventLane(cfg, log, 0, lane)
    ensures EventLane(cfg, log, 0, ReleaseLane(lane, through))
  {
    hide Remaining, Boundary;
  }

  lemma {:induction false} RunIsCanonical(cfg: Settings, log: Log, polls: seq<seq<Event>>) returns (next: nat)
    requires Usable(cfg) && WindowMonotone(cfg, log) && Joined(polls) <= log && Smooth(cfg, polls)
    ensures Canonical(cfg, Joined(polls), RunPolls(cfg, polls))
    ensures LaneOk(cfg, log, next, next, RunPolls(cfg, polls).lane, true)
    ensures EventLane(cfg, log, 0, RunPolls(cfg, polls).lane)
  {
    hide LaneOk, EventLane, WindowMonotone, Canonical, WellFormed, Turn;
    if polls == [] {
      next := 0;
      NewLaneOk(cfg, log, 0);
      NothingConsumed(cfg, log);
    } else {
      var front, chunk := polls[..|polls| - 1], polls[|polls| - 1];
      assert Joined(front) <= log;
      var was := RunIsCanonical(cfg, log, front);
      next := TurnIsCanonical(cfg, log, Joined(front), RunPolls(cfg, front), was, chunk);
    }
  }

  lemma NothingConsumed(cfg: Settings, log: Log)
    requires cfg.size > 0
    ensures Canonical(cfg, [], Flushed(NewLane(0), [])) && EventLane(cfg, log, 0, NewLane(0))
  {
  }

  /**
   * Any two ways of cutting a window-monotone log into polls, if neither resynchronises, emit the same summaries in
   * the same order and leave the same windows open and the same offsets pending.
   */
  lemma PollsDoNotMatter(cfg: Settings, a: seq<seq<Event>>, b: seq<seq<Event>>)
    requires Usable(cfg) && Joined(a) == Joined(b) && WindowMonotone(cfg, Joined(a))
    requires Smooth(cfg, a) && Smooth(cfg, b)
    ensures RunPolls(cfg, a) == RunPolls(cfg, b)
  {
    hide LaneOk, EventLane, WindowMonotone, RunPolls, Smooth, Joined, Series;
    var nextA := RunIsCanonical(cfg, Joined(a), a);
    var nextB := RunIsCanonical(cfg, Joined(a), b);
    SameLane(cfg, Joined(a), RunPolls(cfg, a).lane, RunPolls(cfg, b).lane, nextA, nextB);
  }

  /** What any such run emits is the complete series of windows, from the first message's to the last one closed. */
  lemma PollsEmitTheSeries(cfg: Settings, polls: seq<seq<Event>>)
    requires Usable(cfg) && WindowMonotone(cfg, Joined(polls)) && Smooth(cfg, polls) && Joined(polls) != []
    ensures var log := Joined(polls);
      RunPolls(cfg, polls).emitted
      == Series(cfg, Routes(log, 0, StartsOf(cfg, log)), StartOf(cfg, log[0]) - cfg.size, ClosedThrough(cfg, log))
  {
    hide LaneOk, EventLane, WindowMonotone, RunPolls, Smooth, Joined, Series;
    var next := RunIsCanonical(cfg, Joined(polls), polls);
  }
}

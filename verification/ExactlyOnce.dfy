/** Either time source: a message is counted at most once unless a crash cuts a write of it off from its commit. */
module ExactlyOnce {
  import opened Delivery
  import opened Guarantees
  import opened Lanes
  import opened Offsets
  import opened Protocol
  import opened Tallies
  import opened Uniqueness
  import opened Windows

  /** Non-empty ranges of the same partition follow each other. */
  ghost predicate OrderedRanges(trace: seq<Emission>) {
    forall i, j :: 0 <= i < j < |trace| && trace[i].partition == trace[j].partition
                   && trace[i].lo < trace[i].hi && trace[j].lo < trace[j].hi ==>
      trace[i].hi <= trace[j].lo
  }

  /** How many writes count a message. */
  ghost function TimesCounted(trace: seq<Emission>, p: int, i: int): nat {
    if trace == [] then 0
    else TimesCounted(trace[..|trace| - 1], p, i) + if Covers(trace[|trace| - 1], p, i) then 1 else 0
  }

  lemma {:induction false} TimesConcat(a: seq<Emission>, b: seq<Emission>, p: int, i: int)
    ensures TimesCounted(a + b, p, i) == TimesCounted(a, p, i) + TimesCounted(b, p, i)
  {
    hide Covers;
    if b == [] {
      assert a + b == a;
    } else {
      assert (a + b)[..|a + b| - 1] == a + b[..|b| - 1];
      TimesConcat(a, b[..|b| - 1], p, i);
    }
  }

  lemma {:induction false} CountedIffCovered(trace: seq<Emission>, p: int, i: int)
    ensures TimesCounted(trace, p, i) > 0 <==> exists e :: e in trace && Covers(e, p, i)
  {
    hide Covers;
    if trace != [] {
      var front, last := trace[..|trace| - 1], trace[|trace| - 1];
      CountedIffCovered(front, p, i);
      assert trace == front + [last];
    }
  }

  lemma CountedIffMessage(trace: seq<Emission>, p: int, i: int)
    ensures TimesCounted(trace, p, i) > 0 <==> (p, i) in Messages(trace)
  {
    CountedIffCovered(trace, p, i);
  }

  lemma {:induction false} OrderedCountOnce(trace: seq<Emission>, p: int, i: int)
    requires OrderedRanges(trace)
    ensures TimesCounted(trace, p, i) <= 1
  {
    if trace != [] {
      var n := |trace| - 1;
      OrderedCountOnce(trace[..n], p, i);
      CountedIffCovered(trace[..n], p, i);
    }
  }

  ghost predicate AfterWrite(rep: Replica) {
    rep.stage.Written? || rep.stage.Committing?
  }

  /** What a flush has closed and not committed yet. */
  function InFlight(stage: Stage): seq<Emission> {
    if stage.Popped? then stage.entries else Uncommitted(stage)
  }

  /** A flush counts uncommitted messages its lanes have closed, each of them once. */
  ghost predicate FlightOnce(c: Cluster, rep: Replica) {
    && OrderedRanges(InFlight(rep.stage))
    && (forall x :: x in InFlight(rep.stage) && x.lo < x.hi ==>
          && x.partition in rep.lanes && x.partition in c.committed
          && c.committed[x.partition] <= x.lo && x.hi <= ClosedEnd(rep.lanes[x.partition]))
    && (forall x :: x in Uncommitted(rep.stage) ==> x in c.trace)
  }

  /** A message written and not torn lies below the committed offset, or its flush is about to commit past it. */
  ghost predicate Accounted(c: Cluster, p: int, i: int) {
    TimesCounted(c.trace, p, i) > 0 && (p, i) !in c.torn && p in c.committed ==>
      || i < c.committed[p]
      || exists r :: r in c.replicas && (p, i) in Messages(Uncommitted(c.replicas[r].stage))
  }

  ghost predicate OnceInv(c: Cluster) {
    && (forall p, i :: (p, i) !in c.torn ==> TimesCounted(c.trace, p, i) <= 1)
    && (forall p, i :: Accounted(c, p, i))
    && (forall r :: r in c.replicas ==> FlightOnce(c, c.replicas[r]))
  }

  /** Ranges of ascending windows of one lane follow each other. */
  lemma TagsAscend(lane: Lane, p: int, slices: seq<Slice>)
    requires NonDecreasing(lane.starts) && Ascending(slices)
    ensures OrderedRanges(TagAll(p, lane, slices))
  {
    forall i, j | 0 <= i < j < |slices| ensures Tag(p, lane, slices[i]).hi <= Tag(p, lane, slices[j]).lo {
      CountBelowMonotone(lane.starts, slices[i].windowStart + 1, slices[j].windowStart);
    }
  }

  lemma {:induction false} CountBelowMonotone(starts: seq<int>, v: int, w: int)
    requires v <= w
    ensures CountBelow(starts, v) <= CountBelow(starts, w)
  {
    if starts != [] { CountBelowMonotone(starts[..|starts| - 1], v, w); }
  }

  lemma OrderedRangesConcat(a: seq<Emission>, b: seq<Emission>)
    requires OrderedRanges(a) && OrderedRanges(b)
    requires forall e, x ::
      e in a && x in b && e.partition == x.partition && e.lo < e.hi && x.lo < x.hi ==> e.hi <= x.lo
    ensures OrderedRanges(a + b)
  {
    var t := a + b;
    forall i, j | 0 <= i < j < |t| && t[i].partition == t[j].partition && t[i].lo < t[i].hi && t[j].lo < t[j].hi
      ensures t[i].hi <= t[j].lo
    {
      if i < |a| <= j {
        assert t[i] in a && t[j] in b;
      }
    }
  }

  lemma {:induction false} CollectRanges(w: World, lanes: map<int, Lane>, order: seq<int>, now: real)
    requires Sized(w, lanes) && AllAscend(w, lanes, now)
    requires forall i, j :: 0 <= i < j < |order| ==> order[i] != order[j]
    requires forall p :: p in lanes ==> NonDecreasing(lanes[p].starts)
    ensures OrderedRanges(Collect(w, lanes, order, now))
  {
    hide LaneSlices, Sized, CountBelow, Ascending, NonDecreasing;
    if order != [] {
      var p, before := order[|order| - 1], order[..|order| - 1];
      CollectRanges(w, lanes, before, now);
      if p in lanes {
        SizedLane(w, lanes, p);
        var prior := Collect(w, lanes, before, now);
        var tagged := TagAll(p, lanes[p], LaneSlices(w.cfg, w.source, lanes[p], now));
        TagsAscend(lanes[p], p, LaneSlices(w.cfg, w.source, lanes[p], now));
        forall e | e in prior ensures e.partition in before {
          var q, j := CollectOnly(w, lanes, before, now, e);
        }
        assert p !in before;
        assert forall x :: x in tagged ==> x.partition == p;
        OrderedRangesConcat(prior, tagged);
      }
    }
  }

  // ------------------------------------------------------------------
  // Every step
  // ------------------------------------------------------------------

  /** What one lane emits in a flush starts past the committed offset and ends where the lane then stands. */
  lemma LaneRanges(w: World, c: Cluster, rep: Replica, p: int)
    requires ReplicaInv(w, c, rep) && rep.stage.Polled? && p in rep.lanes && w.cfg.size > 0
    requires Windows.AllSized(w.cfg, rep.lanes[p].manager.windows)
    ensures var out, after := LaneSlices(w.cfg, w.source, rep.lanes[p], rep.stage.arrival),
                              PopLane(w.cfg, w.source, rep.lanes[p], rep.stage.arrival);
      && Ascending(out) && NonDecreasing(rep.lanes[p].starts)
      && forall j :: 0 <= j < |out| ==>
           var x := Tag(p, rep.lanes[p], out[j]);
           x.lo < x.hi ==> c.committed[p] <= x.lo && x.hi <= ClosedEnd(after)
  {
    hide TimeSources.LaneMode, EmissionOk, LastOffsets, Routing.Grouped, PopSlices, NewestClosed, Due,
      ClosedDurable, CountBelow;
    var lane := rep.lanes[p];
    assert LaneInv(w, c, rep, p);
    assert LaneOk(w.cfg, w.logs[p], c.committed[p], c.committed[p], lane, true);
    var clock := Clock(w.source, lane.manager, rep.stage.arrival);
    if clock.Some? {
      var out := PopSlices(w.cfg, lane.manager, clock.value);
      PopAscends(w.cfg, w.logs[p], c.committed[p], lane, clock.value);
      forall j | 0 <= j < |out| && Tag(p, lane, out[j]).lo < Tag(p, lane, out[j]).hi
        ensures c.committed[p] <= Tag(p, lane, out[j]).lo
        ensures Tag(p, lane, out[j]).hi <= lane.base + CountBelow(lane.starts, NewestClosed(w.cfg, clock.value) + 1)
      {
        var start := out[j].windowStart;
        CountBelowCuts(lane.starts, start);
        CountBelowCuts(lane.starts, start + 1);
        var i := CountBelow(lane.starts, start);
        assert lane.starts[i] == start > Emitted(lane);
        CountBelowMonotone(lane.starts, start + 1, NewestClosed(w.cfg, clock.value) + 1);
      }
    }
  }

  lemma PopOnce(w: World, c: Cluster, a: Action)
    requires Inv(w, c) && a.Pop? && Enabled(w, c, a)
    ensures FlightOnce(Next(w, c, a), Advance(w, c, a))
  {
    hide PartitionInv, EmissionOk, LaneSlices, PopLane, LaneInv, Sized, Discarded, CountBelow, NonDecreasing, Ascending;
    var rep, done := c.replicas[a.r], Advance(w, c, a);
    var now := rep.stage.arrival;
    AllAscending(w, c, rep);
    CollectRanges(w, rep.lanes, rep.order, now);
    forall x | x in Collect(w, rep.lanes, rep.order, now)
      ensures x.partition in rep.lanes && x.partition in c.committed
      ensures x.lo < x.hi ==> c.committed[x.partition] <= x.lo && x.hi <= ClosedEnd(done.lanes[x.partition])
    {
      var p, j := CollectOnly(w, rep.lanes, rep.order, now, x);
      SizedLane(w, rep.lanes, p);
      LaneRanges(w, c, rep, p);
    }
  }

  lemma AllAscending(w: World, c: Cluster, rep: Replica)
    requires ReplicaInv(w, c, rep) && rep.stage.Polled? && Sized(w, rep.lanes)
    ensures AllAscend(w, rep.lanes, rep.stage.arrival)
    ensures forall p :: p in rep.lanes ==> NonDecreasing(rep.lanes[p].starts)
  {
    hide LaneInv, LaneSlices, PopLane, Ascending, NonDecreasing, ClosedEnd, Tag;
    forall p | p in rep.lanes
      ensures Ascending(LaneSlices(w.cfg, w.source, rep.lanes[p], rep.stage.arrival))
      ensures NonDecreasing(rep.lanes[p].starts)
    {
      LaneRanges(w, c, rep, p);
    }
  }

  lemma SoleOwner(w: World, c: Cluster, q: int, r: int, p: int)
    requires Inv(w, c) && q in c.replicas && r in c.replicas && p in c.replicas[q].lanes && p in c.replicas[r].lanes
    ensures q == r
  {
    hide ReplicaInv, PartitionInv, AllOk, Sized, Lists;
    assert p in c.replicas[q].owned && p in c.replicas[r].owned;
  }

  /** A flush in flight counts no message that is already counted, unless that one is torn. */
  lemma FlightIsNew(w: World, c: Cluster, r: int, p: int, i: int)
    requires Inv(w, c) && OnceInv(c) && r in c.replicas && c.replicas[r].stage.Popped?
    requires (p, i) in Messages(c.replicas[r].stage.entries) && (p, i) !in c.torn
    ensures TimesCounted(c.trace, p, i) == 0
  {
    hide ReplicaInv, PartitionInv, AllOk, Sized, Lists, ClosedEnd, OrderedRanges, TimesCounted;
    assert FlightOnce(c, c.replicas[r]);
    assert Accounted(c, p, i);
    forall q | q in c.replicas ensures (p, i) !in Messages(Uncommitted(c.replicas[q].stage)) {
      assert FlightOnce(c, c.replicas[q]);
      if q != r { assert c.replicas[q].owned !! c.replicas[r].owned; }
    }
  }

  lemma PersistOnce(w: World, c: Cluster, a: Action, p: int, i: int)
    requires Inv(w, c) && OnceInv(c) && a.Persist? && Enabled(w, c, a)
    ensures (p, i) !in c.torn ==> TimesCounted(Next(w, c, a).trace, p, i) <= 1
    ensures Accounted(Next(w, c, a), p, i)
  {
    hide ReplicaInv, PartitionInv, AllOk, Sized, Lists, ClosedEnd, OrderedRanges, TimesCounted, Messages;
    var rep, after := c.replicas[a.r], Next(w, c, a);
    var entries := rep.stage.entries;
    assert FlightOnce(c, rep);
    TimesConcat(c.trace, entries, p, i);
    OrderedCountOnce(entries, p, i);
    CountedIffMessage(entries, p, i);
    if (p, i) in Messages(entries) {
      assert (p, i) in Messages(Uncommitted(after.replicas[a.r].stage));
      if (p, i) !in c.torn { FlightIsNew(w, c, a.r, p, i); }
    } else {
      StillAccounted(w, c, a, p, i);
    }
  }

  /** What is accounted for stays so, as long as no further write counts it. */
  lemma StillAccounted(w: World, c: Cluster, a: Action, p: int, i: int)
    requires Inv(w, c) && OnceInv(c) && Enabled(w, c, a)
    requires TimesCounted(Next(w, c, a).trace, p, i) == TimesCounted(c.trace, p, i)
    ensures Accounted(Next(w, c, a), p, i)
  {
    hide ReplicaInv, PartitionInv, AllOk, Sized, Lists, PollFits, Discarded, Collect, ClosedEnd, PopLane, IngestAll,
      TimesCounted, Messages, FlightOnce;
    var after := Next(w, c, a);
    assert Accounted(c, p, i);
    if p in c.committed {
      StepNeverUncommits(w, c, a, p);
      if r :| r in c.replicas && (p, i) in Messages(Uncommitted(c.replicas[r].stage)) {
        if r != a.r {
          assert after.replicas[r] == c.replicas[r];
        } else if a.Commit? {
          CommitReaches(w, c, a, p, i);
        } else if a.Crash? {
          assert (p, i) in after.torn;
        } else {
          OwnEntriesStay(w, c, a, p, i);
        }
      }
    }
  }

  /** Between a write and its commit the flush keeps its entries. */
  lemma OwnEntriesStay(w: World, c: Cluster, a: Action, p: int, i: int)
    requires Shaped(w, c) && Enabled(w, c, a) && !a.Commit? && !a.Crash? && !a.Join?
    requires (p, i) in Messages(Uncommitted(c.replicas[a.r].stage))
    ensures Uncommitted(Next(w, c, a).replicas[a.r].stage) == Uncommitted(c.replicas[a.r].stage)
  {
    hide Shaped, Lists, PollFits;
  }

  /** The commit of a flush passes every message its writes count. */
  lemma CommitReaches(w: World, c: Cluster, a: Action, p: int, i: int)
    requires Inv(w, c) && OnceInv(c) && a.Commit? && Enabled(w, c, a)
    requires (p, i) in Messages(Uncommitted(c.replicas[a.r].stage))
    ensures p in Next(w, c, a).committed && i < Next(w, c, a).committed[p]
  {
    hide PartitionInv, AllOk, Sized, Lists, LaneOk, ClosedEnd, TimeSources.LaneMode, ClosedDurable, OrderedRanges;
    var rep := c.replicas[a.r];
    assert FlightOnce(c, rep);
    assert LaneInv(w, c, rep, p);
    ClosedEndIsNext(w.cfg, w.logs[p], c.committed[p], NextOf(c, rep, p), rep.lanes[p]);
  }

  lemma FlightUntouched(w: World, c: Cluster, a: Action, r: int)
    requires Inv(w, c) && Enabled(w, c, a) && r in c.replicas && r in Next(w, c, a).replicas && r != a.r
    requires FlightOnce(c, c.replicas[r])
    ensures FlightOnce(Next(w, c, a), Next(w, c, a).replicas[r])
  {
    hide ReplicaInv, PartitionInv, AllOk, Sized, Lists, PollFits, Discarded, OrderedRanges, ClosedEnd;
    var rep, after := c.replicas[r], Next(w, c, a);
    if a.Commit? {
      assert rep.owned !! c.replicas[a.r].owned;
    }
    assert forall x :: x in c.trace ==> x in after.trace;
  }

  /** The flush under way stays in order as it is written and released. */
  lemma OwnFlight(w: World, c: Cluster, a: Action)
    requires Inv(w, c) && Enabled(w, c, a) && !a.Join? && !a.Crash? && !a.Pop?
    requires FlightOnce(c, c.replicas[a.r])
    ensures FlightOnce(Next(w, c, a), Next(w, c, a).replicas[a.r])
  {
    hide Inv, PollFits, Lists, FlightOnce, ReleaseLanes, PollLanes, Commits, Sized;
    InvIsShaped(w, c);
    var rep, after, done := c.replicas[a.r], Next(w, c, a), Advance(w, c, a);
    if a.Poll? || a.Commit? {
      NothingInFlight(after, done);
    } else {
      if a.Release? { ReleaseMovesNothing(rep.lanes, rep.stage.through); }
      UncommittedAreWritten(c, rep);
      SameFlight(c, after, rep, done);
    }
  }

  lemma UncommittedAreWritten(c: Cluster, rep: Replica)
    requires FlightOnce(c, rep)
    ensures forall x :: x in Uncommitted(rep.stage) ==> x in c.trace
  {
    hide OrderedRanges, ClosedEnd;
  }

  lemma ReleaseMovesNothing(lanes: map<int, Lane>, through: map<int, int>)
    ensures ReleaseLanes(lanes, through).Keys == lanes.Keys
    ensures forall p :: p in lanes ==> ClosedEnd(ReleaseLanes(lanes, through)[p]) == ClosedEnd(lanes[p])
  {
    hide Remaining, CountBelow;
  }

  lemma SameFlight(c: Cluster, after: Cluster, rep: Replica, done: Replica)
    requires FlightOnce(c, rep) && InFlight(done.stage) == InFlight(rep.stage) && done.lanes.Keys == rep.lanes.Keys
    requires forall p :: p in rep.lanes ==> ClosedEnd(done.lanes[p]) == ClosedEnd(rep.lanes[p])
    requires after.committed == c.committed && forall x :: x in Uncommitted(done.stage) ==> x in after.trace
    ensures FlightOnce(after, done)
  {
    hide OrderedRanges, ClosedEnd;
  }

  lemma InvIsShaped(w: World, c: Cluster)
    requires Inv(w, c)
    ensures ValidWorld(w) && Shaped(w, c)
  {
  }

  lemma NextKeepsOnce(w: World, c: Cluster, a: Action)
    requires Inv(w, c) && OnceInv(c)
    ensures OnceInv(Next(w, c, a))
  {
    hide ReplicaInv, PartitionInv, AllOk, Sized, Lists, PollFits, OrderedRanges, FlightOnce, TimesCounted, Accounted,
      Messages, Inv;
    InvIsShaped(w, c);
    var after := Next(w, c, a);
    if Enabled(w, c, a) {
      forall p, i
        ensures ((p, i) !in after.torn ==> TimesCounted(after.trace, p, i) <= 1) && Accounted(after, p, i)
      {
        if a.Persist? {
          PersistOnce(w, c, a, p, i);
        } else {
          StillAccounted(w, c, a, p, i);
        }
      }
      forall r | r in after.replicas ensures FlightOnce(after, after.replicas[r]) {
        if r != a.r {
          FlightUntouched(w, c, a, r);
        } else if a.Pop? {
          PopOnce(w, c, a);
        } else if a.Join? {
          NothingInFlight(after, after.replicas[r]);
        } else {
          OwnFlight(w, c, a);
        }
      }
    }
  }

  lemma NothingInFlight(c: Cluster, rep: Replica)
    requires InFlight(rep.stage) == []
    ensures FlightOnce(c, rep)
  {
  }

  lemma NothingCountedYet(w: World)
    ensures OnceInv(Initial(w))
  {
    forall p, i ensures TimesCounted([], p, i) == 0 && Accounted(Initial(w), p, i) {}
  }

  lemma {:induction false} RunKeepsOnce(w: World, actions: seq<Action>)
    requires ValidWorld(w)
    ensures OnceInv(Run(w, actions))
  {
    hide Inv, Next, OnceInv;
    if actions == [] {
      NothingCountedYet(w);
    } else {
      var before := actions[..|actions| - 1];
      RunKeeps(w, before);
      RunKeepsOnce(w, before);
      NextKeepsOnce(w, Run(w, before), actions[|actions| - 1]);
    }
  }

  /** A message is counted in at most one write unless a crash cut a write of it off from its commit. */
  lemma CountedOnceUnlessTorn(w: World, actions: seq<Action>, p: int, i: int)
    requires ValidWorld(w) && (p, i) !in Run(w, actions).torn
    ensures TimesCounted(Run(w, actions).trace, p, i) <= 1
  {
    hide Run, Inv;
    RunKeepsOnce(w, actions);
  }
}

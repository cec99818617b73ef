/**
 * One partition inside one incarnation of an aggregator: its window manager, its pending offsets and, as history,
 * where consumption started and which window each consumed message belongs to.
 */
module Lanes {
  import opened Alignment
  import opened Events
  import opened Offsets
  import opened Routing
  import opened Tallies
  import opened Windows
  import opened WindowRuns

  type Log = seq<Event>

  datatype Lane = Lane(base: nat, starts: seq<int>, manager: Manager, pending: Pending)

  function Position(lane: Lane): nat {
    lane.base + |lane.starts|
  }

  function NewLane(base: nat): Lane {
    Lane(base, [], FRESH, map[])
  }

  /** A summary written for one partition, with the range of offsets it counts. */
  datatype Emission = Emission(partition: int, slice: Slice, lo: nat, hi: nat)

  // ------------------------------------------------------------------
  // The steps
  // ------------------------------------------------------------------

  function Ingest(cfg: Settings, source: string, lane: Lane, e: Event, arrival: real): Lane
    requires cfg.size > 0
  {
    var ts := EventTimestamp(e, arrival, source);
    var start := Align(cfg.size, ts);
    Lane(lane.base, lane.starts + [start], AddTo(cfg, lane.manager, e, ts),
         if Accepts(cfg, lane.manager, ts) then Noted(lane.pending, Position(lane), start) else lane.pending)
  }

  function IngestAll(cfg: Settings, source: string, lane: Lane, events: seq<Event>, arrival: real): Lane
    requires cfg.size > 0
  {
    if events == [] then lane
    else
      var n := |events| - 1;
      Ingest(cfg, source, IngestAll(cfg, source, lane, events[..n], arrival), events[n], arrival)
  }

  /** The clock that closes windows: the wall clock, or the partition's own watermark. */
  function Clock(source: string, m: Manager, now: real): Option<real> {
    if source == ARRIVAL then Some(now) else m.maxTs
  }

  ghost function PopLane(cfg: Settings, source: string, lane: Lane, now: real): Lane
    requires cfg.size > 0
  {
    var clock := Clock(source, lane.manager, now);
    if clock.None? then lane else lane.(manager := PopState(cfg, lane.manager, clock.value))
  }

  function LaneSlices(cfg: Settings, source: string, lane: Lane, now: real): seq<Slice>
    requires cfg.size > 0 && AllSized(cfg, lane.manager.windows)
  {
    var clock := Clock(source, lane.manager, now);
    if clock.None? then [] else PopSlices(cfg, lane.manager, clock.value)
  }

  function LaneDropped(cfg: Settings, source: string, lane: Lane, now: real): map<int, Tally>
    requires cfg.size > 0
  {
    var clock := Clock(source, lane.manager, now);
    if clock.None? then map[] else Dropped(cfg, lane.manager, clock.value)
  }

  /**
   * In arrival mode the wall clock closes windows: after a flush everything emitted had its end and grace behind it,
   * and nothing left open does. Under any other source the same holds of the partition's own watermark.
   */
  lemma FlushClosesByItsClock(cfg: Settings, source: string, lane: Lane, now: real)
    requires WellFormed(cfg, lane.manager) && cfg.maxGap >= 0
    ensures var out, after := LaneSlices(cfg, source, lane, now), PopLane(cfg, source, lane, now).manager;
      && (source == "arrival" ==>
            && (forall i :: 0 <= i < |out| ==> out[i].windowEnd as real + cfg.grace <= now)
            && (forall k :: k in after.windows ==> (k + cfg.size) as real + cfg.grace > now))
      && (source != "arrival" && lane.manager.maxTs.Some? ==>
            && (forall i :: 0 <= i < |out| ==> out[i].windowEnd as real + cfg.grace <= lane.manager.maxTs.value)
            && (forall k :: k in after.windows ==> (k + cfg.size) as real + cfg.grace > lane.manager.maxTs.value))
      && (source != "arrival" && lane.manager.maxTs.None? ==> out == [] && after == lane.manager)
  {
    hide PopSlices, PopState;
    if source == "arrival" {
      ClosingIsExact(cfg, lane.manager, now);
    } else if lane.manager.maxTs.Some? {
      ClosingIsExact(cfg, lane.manager, lane.manager.maxTs.value);
    }
  }

  function ReleaseLane(lane: Lane, through: int): Lane {
    lane.(pending := Remaining(lane.pending, through))
  }

  // ------------------------------------------------------------------
  // Offsets and windows along a run of non-decreasing starts
  // ------------------------------------------------------------------

  function Routes(log: Log, base: nat, starts: seq<int>): seq<Routed>
    requires base + |starts| <= |log|
  {
    seq(|starts|, i requires 0 <= i < |starts| => Routed(log[base + i], starts[i]))
  }

  function CountBelow(starts: seq<int>, w: int): nat {
    if starts == [] then 0
    else CountBelow(starts[..|starts| - 1], w) + if starts[|starts| - 1] < w then 1 else 0
  }

  lemma {:induction false} CountBelowCuts(starts: seq<int>, w: int)
    requires NonDecreasing(starts)
    ensures CountBelow(starts, w) <= |starts|
    ensures forall i :: 0 <= i < |starts| ==> (starts[i] < w <==> i < CountBelow(starts, w))
  {
    if starts != [] {
      var prior := starts[..|starts| - 1];
      CountBelowCuts(prior, w);
      assert forall i :: 0 <= i < |prior| ==> starts[i] == prior[i] && starts[i] <= starts[|starts| - 1];
      if starts[|starts| - 1] < w && prior != [] {
        assert prior[|prior| - 1] < w;
      }
    }
  }

  /** Everything before a start that is last and not above `w` counts as below `w`, or as below `w + 1`. */
  lemma CutsBeforeLast(starts: seq<int>, w: int)
    requires NonDecreasing(starts) && starts != []
    ensures NonDecreasing(starts[..|starts| - 1])
    ensures starts[|starts| - 1] <= w ==> CountBelow(starts[..|starts| - 1], w + 1) == |starts| - 1
    ensures starts[|starts| - 1] < w ==> CountBelow(starts[..|starts| - 1], w) == |starts| - 1
  {
    var n := |starts| - 1;
    var prior := starts[..n];
    assert forall i :: 0 <= i < n ==> prior[i] <= starts[n];
    if starts[n] <= w { AllBelow(prior, w + 1); }
    if starts[n] < w { AllBelow(prior, w); }
  }

  lemma {:induction false} AllBelow(starts: seq<int>, w: int)
    requires forall i :: 0 <= i < |starts| ==> starts[i] < w
    ensures CountBelow(starts, w) == |starts|
  {
    if starts != [] { AllBelow(starts[..|starts| - 1], w); }
  }

  /** The messages of one window are a contiguous range of the log. */
  lemma {:induction false} BucketIsRange(log: Log, base: nat, starts: seq<int>, w: int)
    requires base + |starts| <= |log| && NonDecreasing(starts)
    ensures CountBelow(starts, w) <= CountBelow(starts, w + 1) <= |starts|
    ensures Bucket(Routes(log, base, starts), w)
            == log[base + CountBelow(starts, w)..base + CountBelow(starts, w + 1)]
  {
    hide NonDecreasing;
    if starts != [] {
      var n := |starts| - 1;
      CutsBeforeLast(starts, w);
      BucketIsRange(log, base, starts[..n], w);
      BucketStep(log, base, starts, w);
      RangeGrows(log, base + CountBelow(starts[..n], w), base + n);
    }
  }

  lemma BucketStep(log: Log, base: nat, starts: seq<int>, w: int)
    requires starts != [] && base + |starts| <= |log|
    ensures var n := |starts| - 1;
      Bucket(Routes(log, base, starts), w)
      == Bucket(Routes(log, base, starts[..n]), w) + if starts[n] == w then [log[base + n]] else []
  {
    var n := |starts| - 1;
    assert Routes(log, base, starts)[..n] == Routes(log, base, starts[..n]);
  }

  lemma RangeGrows(log: Log, lo: nat, hi: nat)
    ensures lo <= hi < |log| ==> log[lo..hi] + [log[hi]] == log[lo..hi + 1]
  {
  }

  // ------------------------------------------------------------------
  // The invariant of a lane
  // ------------------------------------------------------------------

  ghost predicate Usable(cfg: Settings) {
    cfg.size > 0 && cfg.grace >= 0.0 && cfg.maxGap >= 1
  }

  /** The start of the last emission, or anything below the first window while nothing was counted. */
  function Emitted(lane: Lane): int
    requires lane.manager.emittedThrough.Some?
  {
    lane.manager.emittedThrough.value
  }

  /**
   * `committed` is durable, `next` is what the commit in progress will make it. Below `next` every consumed message
   * is in an emitted window; from `next` on each is pending under its window; and a `settled` lane has emitted
   * nothing of those.
   */
  ghost predicate LaneOk(cfg: Settings, log: Log, committed: nat, next: nat, lane: Lane, settled: bool) {
    && Usable(cfg)
    && lane.base <= committed <= next <= Position(lane) <= |log|
    && (lane.starts == [] ==> lane.manager == FRESH)
    && (lane.starts != [] ==> lane.manager.emittedThrough.Some? && Emitted(lane) >= lane.starts[0] - cfg.size)
    && (forall i :: 0 <= i < next - lane.base ==> lane.starts[i] <= Emitted(lane))
    && (settled ==> forall i :: next - lane.base <= i < |lane.starts| ==> lane.starts[i] > Emitted(lane))
    && NonDecreasing(lane.starts)
    && LastOffsets(lane.pending, next, lane.starts[next - lane.base..])
    && Grouped(cfg, lane.manager, Routes(log, lane.base, lane.starts))
  }

  /** Where the next message must fall for the lane to stay in order. */
  ghost predicate InOrder(lane: Lane, start: int) {
    lane.starts != [] ==> start >= lane.starts[|lane.starts| - 1]
                          && (lane.manager.emittedThrough.Some? ==> start > Emitted(lane))
  }

  lemma NewLaneOk(cfg: Settings, log: Log, base: nat)
    requires Usable(cfg) && base <= |log|
    ensures LaneOk(cfg, log, base, base, NewLane(base), true)
  {
    assert Routes(log, base, []) == [];
  }

  lemma IngestKeepsOrder(cfg: Settings, source: string, log: Log, committed: nat, next: nat, lane: Lane, arrival: real)
    requires LaneOk(cfg, log, committed, next, lane, true) && Position(lane) < |log|
    requires InOrder(lane, Align(cfg.size, EventTimestamp(log[Position(lane)], arrival, source)))
    ensures LaneOk(cfg, log, committed, next, Ingest(cfg, source, lane, log[Position(lane)], arrival), true)
  {
    hide Align, Count, AddTo, Grouped, LastOffsets, Noted, Accepts, Routes, NonDecreasing;
    var e := log[Position(lane)];
    var ts := EventTimestamp(e, arrival, source);
    var start := Align(cfg.size, ts);
    AddEmits(cfg, lane, e, ts);
    AddGroups(cfg, lane.manager, Routes(log, lane.base, lane.starts), e, ts);
    RoutesAppend(log, lane.base, lane.starts, start);
    NoteExtends(lane.pending, next, lane.starts[next - lane.base..], start);
    TailAppend(lane.starts, next - lane.base, start);
    NonDecreasingAppend(lane.starts, start);
  }

  lemma RoutesAppend(log: Log, base: nat, starts: seq<int>, start: int)
    requires base + |starts| < |log|
    ensures Routes(log, base, starts + [start]) == Routes(log, base, starts) + [Routed(log[base + |starts|], start)]
  {
  }

  lemma TailAppend(starts: seq<int>, k: nat, start: int)
    requires k <= |starts|
    ensures (starts + [start])[k..] == starts[k..] + [start]
  {
  }

  lemma NonDecreasingAppend(starts: seq<int>, start: int)
    requires NonDecreasing(starts) && (starts != [] ==> start >= starts[|starts| - 1])
    ensures NonDecreasing(starts + [start])
  {
  }

  lemma AddEmits(cfg: Settings, lane: Lane, e: Event, ts: real)
    requires cfg.size > 0 && InOrder(lane, Align(cfg.size, ts))
    requires lane.starts == [] ==> lane.manager == FRESH
    ensures Accepts(cfg, lane.manager, ts)
    ensures AddTo(cfg, lane.manager, e, ts).emittedThrough
            == if lane.manager.emittedThrough.None? then Some(Align(cfg.size, ts) - cfg.size)
               else lane.manager.emittedThrough
  {
  }

  lemma NoteExtends(p: Pending, base: nat, starts: seq<int>, start: int)
    requires LastOffsets(p, base, starts)
    ensures LastOffsets(Noted(p, base + |starts|, start), base, starts + [start])
  {
    var q, all := Noted(p, base + |starts|, start), starts + [start];
    forall i | 0 <= i < |all| ensures all[i] in q && q[all[i]] >= base + i {
      if i < |starts| { assert all[i] == starts[i]; }
    }
  }

  // ------------------------------------------------------------------
  // Closing windows
  // ------------------------------------------------------------------

  function Tag(partition: int, lane: Lane, slice: Slice): Emission {
    Emission(partition, slice, lane.base + CountBelow(lane.starts, slice.windowStart),
             lane.base + CountBelow(lane.starts, slice.windowStart + 1))
  }

  function TagAll(partition: int, lane: Lane, slices: seq<Slice>): (tagged: seq<Emission>)
    ensures |tagged| == |slices| && forall i :: 0 <= i < |slices| ==> tagged[i] == Tag(partition, lane, slices[i])
  {
    seq(|slices|, i requires 0 <= i < |slices| => Tag(partition, lane, slices[i]))
  }

  /** The summary is the fold of exactly the messages in its range. */
  ghost predicate Counts(cfg: Settings, log: Log, e: Emission) {
    && cfg.size != 0 && e.lo <= e.hi <= |log|
    && e.slice == Snapshot(TallyOf(e.slice.windowStart, cfg.size, log[e.lo..e.hi]))
  }

  lemma TaggedCount(cfg: Settings, log: Log, lane: Lane, partition: int, slices: seq<Slice>)
    requires cfg.size != 0 && Position(lane) <= |log| && NonDecreasing(lane.starts)
    requires AllComplete(cfg, Routes(log, lane.base, lane.starts), slices)
    ensures forall i :: 0 <= i < |slices| ==> Counts(cfg, log, Tag(partition, lane, slices[i]))
  {
    hide Snapshot, Bucket;
    forall i | 0 <= i < |slices| ensures Counts(cfg, log, Tag(partition, lane, slices[i])) {
      BucketIsRange(log, lane.base, lane.starts, slices[i].windowStart);
    }
  }

  /** What the manager's call does to a settled lane. */
  lemma PopKeepsOrder(cfg: Settings, log: Log, committed: nat, next: nat, lane: Lane, now: real)
    requires LaneOk(cfg, log, committed, next, lane, true)
    ensures LaneOk(cfg, log, committed, next, lane.(manager := PopState(cfg, lane.manager, now)), false)
    ensures AllComplete(cfg, Routes(log, lane.base, lane.starts), PopSlices(cfg, lane.manager, now))
    ensures var out := PopSlices(cfg, lane.manager, now);
      if Due(cfg, lane.manager, now) then
        out != [] && out[|out| - 1].windowStart == NewestClosed(cfg, now) > Emitted(lane)
        && forall i :: 0 <= i < |out| ==>
             Emitted(lane) < out[i].windowStart <= NewestClosed(cfg, now) && Aligned(cfg.size, out[i].windowStart)
      else out == [] && PopState(cfg, lane.manager, now) == lane.manager
  {
    hide Aligned, Grouped, Snapshot, LastOffsets, NewestClosed;
    var m := lane.manager;
    GroupedIsWellFormed(cfg, m, Routes(log, lane.base, lane.starts));
    var out := PopSlices(cfg, m, now);
    PopGroups(cfg, m, Routes(log, lane.base, lane.starts), now);
    PopEmits(cfg, m, now);
    if Due(cfg, m, now) {
      EmitBounds(cfg, m, now);
      ChainBounds(cfg.size, EmitAfter(cfg, m, now), out, NewestClosed(cfg, now));
      ChainAligned(cfg.size, EmitAfter(cfg, m, now), out, NewestClosed(cfg, now));
    }
  }

  lemma GroupedIsWellFormed(cfg: Settings, m: Manager, routed: seq<Routed>)
    requires Grouped(cfg, m, routed)
    ensures WellFormed(cfg, m)
  {
  }

  /** A message whose window the call closes is counted in a summary or dropped by a resync. */
  lemma ClosedIsCounted(cfg: Settings, log: Log, committed: nat, next: nat, lane: Lane, now: real, i: nat)
    returns (j: nat)
    requires LaneOk(cfg, log, committed, next, lane, true) && Due(cfg, lane.manager, now)
    requires next - lane.base <= i < |lane.starts| && lane.starts[i] <= NewestClosed(cfg, now)
    ensures lane.starts[i] in Dropped(cfg, lane.manager, now) ||
      (j < |PopSlices(cfg, lane.manager, now)| && PopSlices(cfg, lane.manager, now)[j].windowStart == lane.starts[i])
  {
    hide Aligned, Snapshot, NewestClosed, LastOffsets;
    var m, w := lane.manager, lane.starts[i];
    var routes := Routes(log, lane.base, lane.starts);
    assert routes[i].start == w;
    BucketEmpty(routes, w);
    assert w in m.windows;
    EmitBounds(cfg, m, now);
    j := 0;
    if w > EmitAfter(cfg, m, now) {
      j := SlicesHit(cfg, m.windows, EmitAfter(cfg, m, now), NewestClosed(cfg, now), w);
    }
  }

  lemma TagCovers(lane: Lane, partition: int, slice: Slice, i: nat)
    requires NonDecreasing(lane.starts) && i < |lane.starts|
    ensures lane.starts[i] == slice.windowStart <==>
      Tag(partition, lane, slice).lo <= lane.base + i < Tag(partition, lane, slice).hi
  {
    CountBelowCuts(lane.starts, slice.windowStart);
    CountBelowCuts(lane.starts, slice.windowStart + 1);
  }

  // ------------------------------------------------------------------
  // Releasing offsets
  // ------------------------------------------------------------------

  /** Where the first message still open lies after a release; nothing changes if nothing is released. */
  ghost function NextAfter(lane: Lane, through: int, next: nat): int {
    var released := Released(lane.pending, through);
    if released.Some? then released.value else next
  }

  /** What a release leaves pending, seen from the uncommitted messages alone. */
  lemma ReleaseSplits(p: Pending, next: nat, open: seq<int>, through: int)
    requires LastOffsets(p, next, open) && NonDecreasing(open)
    ensures var v := if Released(p, through).Some? then Released(p, through).value else next;
      && next <= v <= next + |open|
      && (Released(p, through).Some? ==> v > next)
      && (forall i :: 0 <= i < |open| ==> (open[i] <= through <==> next + i < v))
      && LastOffsets(Remaining(p, through), v, open[v - next..])
    ensures Released(p, through).None? ==> Remaining(p, through) == p
  {
    hide Highest, LastOffsets, Remaining;
    if Released(p, through).Some? {
      var h := ReleasePointsPastLast(p, next, open, through);
      RemainingKeepsTail(p, next, open, through, h + 1);
    } else {
      NothingReleased(p, next, open, through);
    }
  }

  lemma NothingReleased(p: Pending, next: nat, open: seq<int>, through: int)
    requires LastOffsets(p, next, open) && Released(p, through).None?
    ensures Remaining(p, through) == p && LastOffsets(Remaining(p, through), next, open[0..])
    ensures forall i :: 0 <= i < |open| ==> open[i] > through
  {
    assert Settled(p, through).Keys == {};
    assert forall w :: w in p ==> w !in Settled(p, through).Keys;
    assert Remaining(p, through) == p;
    assert open[0..] == open;
  }

  /** Releasing through the last emission settles the lane again, at the first message still in an open window. */
  lemma ReleaseKeepsOrder(cfg: Settings, log: Log, committed: nat, next: nat, lane: Lane)
    requires LaneOk(cfg, log, committed, next, lane, false) && lane.manager.emittedThrough.Some?
    ensures next <= NextAfter(lane, Emitted(lane), next) <= Position(lane)
    ensures Released(lane.pending, Emitted(lane)).None? ==> ReleaseLane(lane, Emitted(lane)) == lane
    ensures LaneOk(cfg, log, committed, NextAfter(lane, Emitted(lane), next), ReleaseLane(lane, Emitted(lane)), true)
  {
    hide Grouped, Released, LastOffsets, Remaining, Settled, Highest, NonDecreasing;
    var k := next - lane.base;
    var open, v := lane.starts[k..], NextAfter(lane, Emitted(lane), next);
    TailNonDecreasing(lane.starts, k);
    ReleaseSplits(lane.pending, next, open, Emitted(lane));
    assert lane.starts[v - lane.base..] == open[v - next..];
    SplitInFull(lane.starts, k, Emitted(lane), v - next);
  }

  lemma TailNonDecreasing(starts: seq<int>, k: nat)
    requires NonDecreasing(starts) && k <= |starts|
    ensures NonDecreasing(starts[k..])
  {
  }

  /** A cut of the tail is a cut of the whole, when the front lies below it. */
  lemma SplitInFull(starts: seq<int>, k: nat, through: int, n: nat)
    requires k <= |starts| && forall i :: 0 <= i < k ==> starts[i] <= through
    requires forall i :: 0 <= i < |starts[k..]| ==> (starts[k..][i] <= through <==> i < n)
    ensures forall i :: 0 <= i < |starts| ==> (starts[i] <= through <==> i < k + n)
  {
    forall i | k <= i < |starts| ensures starts[i] <= through <==> i < k + n {
      assert starts[i] == starts[k..][i - k];
    }
  }

  lemma RemainingKeepsTail(p: Pending, base: nat, starts: seq<int>, through: int, k: nat)
    requires LastOffsets(p, base, starts) && k <= |starts|
    requires forall i :: 0 <= i < |starts| ==> (starts[i] <= through <==> i < k)
    ensures LastOffsets(Remaining(p, through), base + k, starts[k..])
  {
    var q, tail := Remaining(p, through), starts[k..];
    forall i | 0 <= i < |tail| ensures tail[i] in q && q[tail[i]] >= base + k + i {
      RemainingAt(p, base, starts, through, k, i);
    }
    forall w | w in q ensures base + k <= q[w] < base + k + |tail| && tail[q[w] - (base + k)] == w {
      var j := p[w] - base;
      assert starts[j] == w && j >= k;
    }
  }

  lemma RemainingAt(p: Pending, base: nat, starts: seq<int>, through: int, k: nat, i: nat)
    requires LastOffsets(p, base, starts) && k + i < |starts| && starts[k + i] > through
    ensures starts[k + i] in Remaining(p, through) && Remaining(p, through)[starts[k + i]] >= base + k + i
  {
  }

  /** One past the last message the lane has emitted. */
  function ClosedEnd(lane: Lane): nat {
    if lane.manager.emittedThrough.None? then lane.base
    else lane.base + CountBelow(lane.starts, Emitted(lane) + 1)
  }

  /** A settled lane's closed messages end where it is about to commit. */
  lemma ClosedEndIsNext(cfg: Settings, log: Log, committed: nat, next: nat, lane: Lane)
    requires LaneOk(cfg, log, committed, next, lane, true)
    ensures ClosedEnd(lane) == next
  {
    hide Grouped, LastOffsets;
    if lane.manager.emittedThrough.Some? {
      CountBelowCuts(lane.starts, Emitted(lane) + 1);
      var n := CountBelow(lane.starts, Emitted(lane) + 1);
      if n < |lane.starts| { assert lane.starts[n] > Emitted(lane); }
      if n > 0 { assert lane.starts[n - 1] <= Emitted(lane); }
    }
  }
}

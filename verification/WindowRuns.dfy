/** What a window manager guarantees over any sequence of calls, with arbitrary timestamps and clocks. */
module WindowRuns {
  import opened Alignment
  import opened Counters
  import opened Events
  import opened Routing
  import opened Tallies
  import opened Windows

  datatype Call = AddCall(event: Event, ts: real) | PopCall(now: real)

  /** A run so far: `origin` is the start before the first counted event, and every other part only grows. */
  datatype History = History(
    manager: Manager, origin: int, routed: seq<Routed>, emitted: seq<Slice>, adds: nat, resyncs: nat)

  const START := History(FRESH, 0, [], [], 0, 0)

  ghost function Step(cfg: Settings, h: History, call: Call): History
    requires cfg.size > 0 && AllSized(cfg, h.manager.windows)
  {
    match call
    case AddCall(e, ts) =>
      var start := Align(cfg.size, ts);
      h.(manager := AddTo(cfg, h.manager, e, ts),
         adds := h.adds + 1,
         origin := if h.manager.emittedThrough.None? then start - cfg.size else h.origin,
         routed := if Accepts(cfg, h.manager, ts) then h.routed + [Routed(e, start)] else h.routed)
    case PopCall(now) =>
      h.(manager := PopState(cfg, h.manager, now),
         emitted := h.emitted + PopSlices(cfg, h.manager, now),
         resyncs := h.resyncs + if Resyncs(cfg, h.manager, now) then 1 else 0)
  }

  ghost function RunCalls(cfg: Settings, calls: seq<Call>): (h: History)
    requires cfg.size > 0
    ensures WellFormed(cfg, h.manager)
  {
    if calls == [] then START
    else
      var prior, call := RunCalls(cfg, calls[..|calls| - 1]), calls[|calls| - 1];
      assert WellFormed(cfg, Step(cfg, prior, call).manager) by {
        if call.AddCall? {
          AddKeepsWellFormed(cfg, prior.manager, call.event, call.ts);
        } else {
          PopKeepsWellFormed(cfg, prior.manager, call.now);
        }
      }
      Step(cfg, prior, call)
  }

  // ------------------------------------------------------------------
  // The shape of one emission
  // ------------------------------------------------------------------

  /** Starts run from just after `prev` through `last` in steps of exactly one window. */
  ghost predicate Chain(size: int, prev: int, slices: seq<Slice>, last: int) {
    if slices == [] then prev == last
    else slices[|slices| - 1].windowStart == last && Chain(size, prev, slices[..|slices| - 1], last - size)
  }

  lemma {:induction false} SlicesChain(cfg: Settings, windows: map<int, Tally>, after: int, through: int)
    requires cfg.size > 0 && AllSized(cfg, windows) && after <= through
    requires Aligned(cfg.size, after) && Aligned(cfg.size, through)
    requires forall k :: k in windows ==> windows[k].start == k
    ensures Chain(cfg.size, after, Slices(cfg, windows, after, through), through)
    decreases through - after
  {
    hide Aligned, Snapshot, Chain;
    if through > after {
      AlignedStep(cfg.size, through);
      AlignedApart(cfg.size, after, through);
      SlicesChain(cfg, windows, after, through - cfg.size);
      ChainSnoc(cfg.size, after, Slices(cfg, windows, after, through - cfg.size),
                Snapshot(TallyAt(cfg, windows, through)), through);
    } else {
      NoChain(cfg.size, after);
    }
  }

  lemma ChainSnoc(size: int, prev: int, slices: seq<Slice>, s: Slice, last: int)
    requires Chain(size, prev, slices, last - size) && s.windowStart == last
    ensures Chain(size, prev, slices + [s], last)
  {
    assert (slices + [s])[..|slices|] == slices;
  }

  lemma NoChain(size: int, prev: int)
    ensures Chain(size, prev, [], prev)
  {
  }

  lemma {:induction false} ChainLength(size: int, prev: int, slices: seq<Slice>, last: int)
    requires size > 0 && Chain(size, prev, slices, last)
    ensures last - prev == Times(|slices|, size)
  {
    if slices != [] {
      ChainLength(size, prev, slices[..|slices| - 1], last - size);
    }
  }

  lemma {:induction false} ChainBounds(size: int, prev: int, slices: seq<Slice>, last: int)
    requires size > 0 && Chain(size, prev, slices, last)
    ensures prev <= last
    ensures forall i :: 0 <= i < |slices| ==> prev + size <= slices[i].windowStart <= last
  {
    if slices != [] {
      ChainBounds(size, prev, slices[..|slices| - 1], last - size);
      forall i | 0 <= i < |slices| ensures prev + size <= slices[i].windowStart <= last {
        if i < |slices| - 1 { assert slices[..|slices| - 1][i] == slices[i]; }
      }
    }
  }

  lemma {:induction false} ChainAligned(size: int, prev: int, slices: seq<Slice>, last: int)
    requires size > 0 && Chain(size, prev, slices, last) && Aligned(size, last)
    ensures forall i :: 0 <= i < |slices| ==> Aligned(size, slices[i].windowStart)
    ensures forall i, j :: 0 <= i < j < |slices| ==> slices[i].windowStart < slices[j].windowStart
  {
    hide Aligned;
    if slices != [] {
      var front := slices[..|slices| - 1];
      AlignedStep(size, last);
      ChainAligned(size, prev, front, last - size);
      ChainBounds(size, prev, front, last - size);
      assert forall i :: 0 <= i < |front| ==> front[i] == slices[i];
    }
  }

  /** One call emits exactly the windows due, oldest first without a gap, and never more than the cap. */
  lemma PopEmits(cfg: Settings, m: Manager, now: real)
    requires WellFormed(cfg, m) && cfg.maxGap >= 0
    ensures var out := PopSlices(cfg, m, now);
      if !Due(cfg, m, now) then out == []
      else
        && Chain(cfg.size, EmitAfter(cfg, m, now), out, NewestClosed(cfg, now))
        && Times(|out|, cfg.size) == NewestClosed(cfg, now) - EmitAfter(cfg, m, now)
        && |out| == (if Resyncs(cfg, m, now) then cfg.maxGap
                     else (NewestClosed(cfg, now) - m.emittedThrough.value) / cfg.size)
  {
    hide Snapshot, Aligned;
    if Due(cfg, m, now) {
      var after, newest, out := EmitAfter(cfg, m, now), NewestClosed(cfg, now), PopSlices(cfg, m, now);
      EmitBounds(cfg, m, now);
      SlicesChain(cfg, m.windows, after, newest);
      ChainLength(cfg.size, after, out, newest);
      if Resyncs(cfg, m, now) {
        SameTimes(|out|, cfg.maxGap, cfg.size);
      } else {
        DivideExactly(|out|, cfg.size);
      }
    }
  }

  lemma SameTimes(a: int, b: int, size: int)
    requires size > 0 && Times(a, size) == Times(b, size)
    ensures a == b
  {
    TimesMonotone(a, b, size);
    TimesMonotone(b, a, size);
  }

  lemma EmitBounds(cfg: Settings, m: Manager, now: real)
    requires WellFormed(cfg, m) && Due(cfg, m, now) && cfg.maxGap >= 0
    ensures Aligned(cfg.size, EmitAfter(cfg, m, now)) && Aligned(cfg.size, NewestClosed(cfg, now))
    ensures m.emittedThrough.value <= EmitAfter(cfg, m, now) <= NewestClosed(cfg, now)
    ensures Resyncs(cfg, m, now) <==> m.emittedThrough.value < EmitAfter(cfg, m, now)
    ensures cfg.maxGap > 0 ==> EmitAfter(cfg, m, now) < NewestClosed(cfg, now)
  {
    DueWhenEndPassed(cfg, m.emittedThrough.value, now);
    SpanIsNatural(cfg);
    AlignedBy(cfg.size, NewestClosed(cfg, now), cfg.maxGap);
  }

  /** The window is among those the call emits. */
  ghost predicate InReach(cfg: Settings, m: Manager, now: real, start: int)
    requires cfg.size > 0
  {
    Due(cfg, m, now) && Aligned(cfg.size, start) && EmitAfter(cfg, m, now) < start <= NewestClosed(cfg, now)
  }

  ghost predicate Emits(out: seq<Slice>, start: int) {
    exists s :: s in out && s.windowStart == start
  }

  /** A call emits a window's summary, of whatever the manager counted there, if and only if the window is in reach. */
  lemma EmitsIffInReach(cfg: Settings, m: Manager, now: real, start: int)
    requires cfg.size > 0 && WellFormed(cfg, m) && AllSized(cfg, m.windows)
    ensures Emits(PopSlices(cfg, m, now), start) <==> InReach(cfg, m, now, start)
    ensures forall s ::
      s in PopSlices(cfg, m, now) && s.windowStart == start ==> s == Snapshot(TallyAt(cfg, m.windows, start))
  {
    hide Snapshot, Aligned, NewestClosed, EmitAfter, WellFormed, Slices;
    if Due(cfg, m, now) {
      var after, newest := EmitAfter(cfg, m, now), NewestClosed(cfg, now);
      EmissionIsAligned(cfg, m, now);
      forall s | s in PopSlices(cfg, m, now)
        ensures after < s.windowStart <= newest && Aligned(cfg.size, s.windowStart)
        ensures s == Snapshot(TallyAt(cfg, m.windows, s.windowStart))
      {
        SlicesInRange(cfg, m.windows, after, newest, s);
      }
      if InReach(cfg, m, now, start) {
        var j := SlicesHit(cfg, m.windows, after, newest, start);
        assert PopSlices(cfg, m, now)[j] in PopSlices(cfg, m, now);
      }
    }
  }

  lemma EmissionIsAligned(cfg: Settings, m: Manager, now: real)
    requires WellFormed(cfg, m) && Due(cfg, m, now)
    ensures Aligned(cfg.size, EmitAfter(cfg, m, now)) && Aligned(cfg.size, NewestClosed(cfg, now))
    ensures forall k :: k in m.windows ==> m.windows[k].start == k
  {
    hide Aligned, NewestClosed;
    DueWhenEndPassed(cfg, m.emittedThrough.value, now);
    AlignedBy(cfg.size, NewestClosed(cfg, now), cfg.maxGap);
  }

  lemma {:induction false} SlicesInRange(cfg: Settings, windows: map<int, Tally>, after: int, through: int, s: Slice)
    requires cfg.size > 0 && AllSized(cfg, windows) && Aligned(cfg.size, after) && Aligned(cfg.size, through)
    requires forall k :: k in windows ==> windows[k].start == k
    requires s in Slices(cfg, windows, after, through)
    ensures after < s.windowStart <= through && Aligned(cfg.size, s.windowStart)
    ensures s == Snapshot(TallyAt(cfg, windows, s.windowStart))
    decreases through - after
  {
    hide Snapshot, Aligned;
    var last := Snapshot(TallyAt(cfg, windows, through));
    if s != last {
      AlignedStep(cfg.size, through);
      SlicesInRange(cfg, windows, after, through - cfg.size, s);
    }
  }

  /** The summary of every aligned start in range is among those emitted. */
  lemma {:induction false} SlicesHit(cfg: Settings, windows: map<int, Tally>, after: int, through: int, w: int)
    returns (j: nat)
    requires cfg.size > 0 && AllSized(cfg, windows) && Aligned(cfg.size, through) && Aligned(cfg.size, w)
    requires forall k :: k in windows ==> windows[k].start == k
    requires after < w <= through
    ensures j < |Slices(cfg, windows, after, through)| && Slices(cfg, windows, after, through)[j].windowStart == w
    decreases through - after
  {
    hide Snapshot, Aligned;
    if w == through {
      j := |Slices(cfg, windows, after, through)| - 1;
    } else {
      AlignedStep(cfg.size, through);
      AlignedApart(cfg.size, w, through);
      j := SlicesHit(cfg, windows, after, through - cfg.size, w);
    }
  }

  /**
   * The cap in plain numbers: a call emits as many windows as lie between the last emission and the newest one closed,
   * but no more than the cap; they are the newest ones; and the events of open windows before those are counted late.
   */
  lemma CallIsCapped(cfg: Settings, m: Manager, now: real)
    requires WellFormed(cfg, m) && cfg.maxGap >= 0 && m.emittedThrough.Some?
    ensures var newest, emitted := Align(cfg.size, now - cfg.grace) - cfg.size, m.emittedThrough.value;
      var out, after := PopSlices(cfg, m, now), PopState(cfg, m, now);
      if newest <= emitted then out == [] && after == m
      else
        var gap, low := (newest - emitted) / cfg.size, newest - cfg.maxGap * cfg.size;
        && |out| == (if gap <= cfg.maxGap then gap else cfg.maxGap)
        && (forall w :: Emits(out, w) <==> Aligned(cfg.size, w) && emitted < w && low < w <= newest)
        && after.emittedThrough == Some(newest)
        && after.windows == (map k | k in m.windows && k > newest :: m.windows[k])
        && after.late == m.late + if gap > cfg.maxGap
                                  then TotalOf(map k | k in m.windows && k <= low :: m.windows[k]) else 0
  {
    hide Snapshot, Aligned, Align, TotalOf, PopSlices, PopState, NewestClosed, Emits;
    NewestIs(cfg, now);
    CallShape(cfg, m, now);
    if Due(cfg, m, now) {
      CallLength(cfg, m, now);
      CallStarts(cfg, m, now);
    }
  }

  lemma CallLength(cfg: Settings, m: Manager, now: real)
    requires WellFormed(cfg, m) && cfg.maxGap >= 0 && Due(cfg, m, now)
    ensures var gap := (NewestClosed(cfg, now) - m.emittedThrough.value) / cfg.size;
      && |PopSlices(cfg, m, now)| == (if gap <= cfg.maxGap then gap else cfg.maxGap)
      && (gap > cfg.maxGap <==> m.emittedThrough.value < NewestClosed(cfg, now) - cfg.maxGap * cfg.size)
  {
    hide Snapshot, Aligned, NewestClosed, PopSlices;
    DueWhenEndPassed(cfg, m.emittedThrough.value, now);
    GapInWindows(cfg, m.emittedThrough.value, NewestClosed(cfg, now));
    GapBounds(cfg, m.emittedThrough.value, NewestClosed(cfg, now));
    PopEmits(cfg, m, now);
  }

  lemma CallStarts(cfg: Settings, m: Manager, now: real)
    requires WellFormed(cfg, m) && Due(cfg, m, now)
    ensures forall w :: Emits(PopSlices(cfg, m, now), w) <==>
      Aligned(cfg.size, w) && m.emittedThrough.value < w
      && NewestClosed(cfg, now) - cfg.maxGap * cfg.size < w <= NewestClosed(cfg, now)
  {
    hide Aligned, NewestClosed, PopSlices, EmitAfter, Emits;
    EmissionIsAligned(cfg, m, now);
    AfterIs(cfg, m, now);
    forall w
      ensures Emits(PopSlices(cfg, m, now), w) <==>
        Aligned(cfg.size, w) && EmitAfter(cfg, m, now) < w <= NewestClosed(cfg, now)
    {
      EmitsIffInReach(cfg, m, now, w);
    }
  }

  lemma NewestIs(cfg: Settings, now: real)
    requires cfg.size > 0
    ensures NewestClosed(cfg, now) == Align(cfg.size, now - cfg.grace) - cfg.size
  {
  }

  lemma GapBounds(cfg: Settings, emitted: int, newest: int)
    requires cfg.size > 0 && Aligned(cfg.size, emitted) && Aligned(cfg.size, newest)
    ensures Span(cfg) == cfg.maxGap * cfg.size
    ensures (newest - emitted) / cfg.size == cfg.maxGap ==> newest - emitted == cfg.maxGap * cfg.size
  {
    var x :| emitted == Times(x, cfg.size);
    var y :| newest == Times(y, cfg.size);
    TimesMinus(y, x, cfg.size);
    DivideExactly(y - x, cfg.size);
  }

  lemma AfterIs(cfg: Settings, m: Manager, now: real)
    requires cfg.size > 0 && Due(cfg, m, now)
    ensures var low := NewestClosed(cfg, now) - cfg.maxGap * cfg.size;
      EmitAfter(cfg, m, now) == if m.emittedThrough.value < low then low else m.emittedThrough.value
  {
    hide NewestClosed;
  }

  lemma DroppedIs(cfg: Settings, m: Manager, now: real)
    requires cfg.size > 0 && Due(cfg, m, now)
    ensures var low := NewestClosed(cfg, now) - cfg.maxGap * cfg.size;
      Dropped(cfg, m, now)
      == if m.emittedThrough.value < low then map k | k in m.windows && k <= low :: m.windows[k] else map[]
  {
    hide NewestClosed;
  }

  lemma NothingTotals()
    ensures TotalOf(map[]) == 0
  {
  }

  /** What a call leaves behind. */
  lemma CallShape(cfg: Settings, m: Manager, now: real)
    requires WellFormed(cfg, m) && cfg.maxGap >= 0
    ensures !Due(cfg, m, now) ==> PopState(cfg, m, now) == m && PopSlices(cfg, m, now) == []
    ensures Due(cfg, m, now) ==>
      var after, newest := PopState(cfg, m, now), NewestClosed(cfg, now);
      var low := newest - cfg.maxGap * cfg.size;
      && after.emittedThrough == Some(newest)
      && after.windows == (map k | k in m.windows && k > newest :: m.windows[k])
      && after.late == m.late + if m.emittedThrough.value < low
                                then TotalOf(map k | k in m.windows && k <= low :: m.windows[k]) else 0
  {
    hide NewestClosed, Dropped, TotalOf, Slices, EmitAfter, Span;
    if Due(cfg, m, now) {
      assert cfg.maxGap * cfg.size >= 0;
      DroppedIs(cfg, m, now);
      NothingTotals();
    }
  }

  /** After a call, everything emitted had its end and grace behind it, and nothing left open does. */
  lemma ClosingIsExact(cfg: Settings, m: Manager, now: real)
    requires WellFormed(cfg, m) && cfg.maxGap >= 0
    ensures forall i :: 0 <= i < |PopSlices(cfg, m, now)| ==>
      PopSlices(cfg, m, now)[i].windowEnd as real + cfg.grace <= now
    ensures forall k :: k in PopState(cfg, m, now).windows ==> (k + cfg.size) as real + cfg.grace > now
  {
    hide Snapshot, Aligned;
    var out, left := PopSlices(cfg, m, now), PopState(cfg, m, now);
    PopKeepsWellFormed(cfg, m, now);
    forall k | k in left.windows ensures (k + cfg.size) as real + cfg.grace > now {
      DueWhenEndPassed(cfg, k, now);
    }
    PopEmits(cfg, m, now);
    if Due(cfg, m, now) {
      EmitBounds(cfg, m, now);
      ChainBounds(cfg.size, EmitAfter(cfg, m, now), out, NewestClosed(cfg, now));
      DueWhenEndPassed(cfg, NewestClosed(cfg, now), now);
      SlicesEnds(cfg, m.windows, EmitAfter(cfg, m, now), NewestClosed(cfg, now));
    }
  }

  lemma {:induction false} SlicesEnds(cfg: Settings, windows: map<int, Tally>, after: int, through: int)
    requires cfg.size > 0 && AllSized(cfg, windows)
    ensures forall i :: 0 <= i < |Slices(cfg, windows, after, through)| ==>
      Slices(cfg, windows, after, through)[i].windowEnd
      == Slices(cfg, windows, after, through)[i].windowStart + cfg.size
    decreases through - after
  {
    hide Snapshot;
    if through > after {
      SlicesEnds(cfg, windows, after, through - cfg.size);
    }
  }

  /** The first event opens the series: whenever the next call comes, no window before that event's is emitted. */
  lemma FirstEventOpensTheSeries(cfg: Settings, e: Event, ts: real, now: real)
    requires cfg.size > 0 && cfg.maxGap >= 0
    ensures var m, first := AddTo(cfg, FRESH, e, ts), Align(cfg.size, ts);
      var newest := Align(cfg.size, now - cfg.grace) - cfg.size;
      && WellFormed(cfg, m) && m.windows.Keys == {first} && m.late == 0
      && forall w :: Emits(PopSlices(cfg, m, now), w) <==>
           newest >= first && Aligned(cfg.size, w) && first <= w && newest - cfg.maxGap * cfg.size < w <= newest
  {
    hide Snapshot, Aligned, Align, PopSlices, PopState, Emits, WellFormed;
    var m, first := AddTo(cfg, FRESH, e, ts), Align(cfg.size, ts);
    NothingYet(cfg);
    AddKeepsWellFormed(cfg, FRESH, e, ts);
    CallIsCapped(cfg, m, now);
    AlignBounds(cfg.size, ts);
    AlignBounds(cfg.size, now - cfg.grace);
    AlignedStep(cfg.size, first);
    AlignedStep(cfg.size, Align(cfg.size, now - cfg.grace));
    forall w | Aligned(cfg.size, w) && w > first - cfg.size ensures w >= first {
      AlignedApart(cfg.size, first - cfg.size, w);
    }
    NoneEmitted();
  }

  lemma NothingYet(cfg: Settings)
    requires cfg.size > 0
    ensures WellFormed(cfg, FRESH)
  {
  }

  lemma NoneEmitted()
    ensures forall w :: !Emits([], w)
  {
  }

  /** The watermark is the highest timestamp seen, late events included, and there is none before the first event. */
  lemma {:induction false} WatermarkIsHighest(cfg: Settings, calls: seq<Call>)
    requires cfg.size > 0
    ensures var mark := RunCalls(cfg, calls).manager.maxTs;
      && (mark.Some? <==> exists c :: c in calls && c.AddCall?)
      && (forall c :: c in calls && c.AddCall? ==> c.ts <= mark.value)
      && (mark.Some? ==> exists c :: c in calls && c.AddCall? && c.ts == mark.value)
  {
    hide Step;
    if calls != [] {
      var before, call := calls[..|calls| - 1], calls[|calls| - 1];
      WatermarkIsHighest(cfg, before);
      assert calls == before + [call];
      MarkStep(cfg, RunCalls(cfg, before), call);
      if c :| c in before && c.AddCall? && RunCalls(cfg, before).manager.maxTs == Some(c.ts) {
        assert c in calls;
      }
    }
  }

  lemma MarkStep(cfg: Settings, h: History, call: Call)
    requires cfg.size > 0 && AllSized(cfg, h.manager.windows)
    ensures var before, after := h.manager.maxTs, Step(cfg, h, call).manager.maxTs;
      if call.AddCall? && (before.None? || call.ts > before.value) then after == Some(call.ts) else after == before
  {
    hide Align, PopSlices, Resyncs;
  }

  // ------------------------------------------------------------------
  // Emission order over whole runs
  // ------------------------------------------------------------------

  function LastStart(prev: int, slices: seq<Slice>): int {
    if slices == [] then prev else slices[|slices| - 1].windowStart
  }

  /** How often the next start is not exactly one window after the one before. */
  function Holes(size: int, prev: int, slices: seq<Slice>): nat {
    if slices == [] then 0
    else
      var before := slices[..|slices| - 1];
      Holes(size, prev, before)
      + if slices[|slices| - 1].windowStart == LastStart(prev, before) + size then 0 else 1
  }

  lemma {:induction false} HolesOfConcat(size: int, prev: int, emitted: seq<Slice>, out: seq<Slice>, after: int,
                                         last: int)
    requires size > 0 && out != [] && Chain(size, after, out, last)
    ensures LastStart(prev, emitted + out) == last
    ensures Holes(size, prev, emitted + out)
            == Holes(size, prev, emitted) + if after == LastStart(prev, emitted) then 0 else 1
  {
    var front := out[..|out| - 1];
    assert (emitted + out)[..|emitted + out| - 1] == emitted + front;
    if front == [] {
      assert emitted + front == emitted;
    } else {
      HolesOfConcat(size, prev, emitted, front, after, last - size);
    }
  }

  /** Every start is a multiple of the window size, at least one window after the start before it. */
  ghost predicate Increasing(size: int, prev: int, slices: seq<Slice>) {
    if slices == [] then true
    else
      var before := slices[..|slices| - 1];
      && Increasing(size, prev, before)
      && slices[|slices| - 1].windowStart >= LastStart(prev, before) + size
      && Aligned(size, slices[|slices| - 1].windowStart)
  }

  lemma {:induction false} IncreasingConcat(size: int, prev: int, emitted: seq<Slice>, out: seq<Slice>, after: int,
                                            last: int)
    requires size > 0 && Increasing(size, prev, emitted)
    requires Chain(size, after, out, last) && LastStart(prev, emitted) <= after && Aligned(size, last)
    ensures Increasing(size, prev, emitted + out)
  {
    if out == [] {
      assert emitted + out == emitted;
    } else {
      var front := out[..|out| - 1];
      assert (emitted + out)[..|emitted + out| - 1] == emitted + front;
      AlignedStep(size, last);
      IncreasingConcat(size, prev, emitted, front, after, last - size);
      if front == [] {
        assert emitted + front == emitted;
      }
    }
  }

  lemma {:induction false} IncreasingStarts(size: int, prev: int, slices: seq<Slice>)
    requires size > 0 && Increasing(size, prev, slices)
    ensures forall i :: 0 <= i < |slices| ==>
      prev < slices[i].windowStart <= LastStart(prev, slices) && Aligned(size, slices[i].windowStart)
    ensures forall i, j :: 0 <= i < j < |slices| ==> slices[i].windowStart < slices[j].windowStart
    ensures prev <= LastStart(prev, slices)
  {
    if slices != [] {
      var before := slices[..|slices| - 1];
      IncreasingStarts(size, prev, before);
      assert forall i :: 0 <= i < |before| ==> slices[i] == before[i];
    }
  }

  /**
   * Over any run, each emitted start is later than the one before, the last one is where emission stands, and the
   * series is broken exactly once per resync: it is gap-free if and only if no resync ever happened.
   */
  lemma {:induction false} EmissionOrder(cfg: Settings, calls: seq<Call>)
    requires cfg.size > 0 && cfg.maxGap >= 1
    ensures var h := RunCalls(cfg, calls);
      && (h.manager.emittedThrough.None? ==> h.emitted == [] && h.resyncs == 0)
      && (h.manager.emittedThrough.Some? ==>
            && h.manager.emittedThrough.value == LastStart(h.origin, h.emitted)
            && Increasing(cfg.size, h.origin, h.emitted)
            && Holes(cfg.size, h.origin, h.emitted) == h.resyncs)
  {
    if calls != [] {
      var prior, call := RunCalls(cfg, calls[..|calls| - 1]), calls[|calls| - 1];
      EmissionOrder(cfg, calls[..|calls| - 1]);
      if call.PopCall? {
        var out := PopSlices(cfg, prior.manager, call.now);
        PopEmits(cfg, prior.manager, call.now);
        if Due(cfg, prior.manager, call.now) {
          var after, newest := EmitAfter(cfg, prior.manager, call.now), NewestClosed(cfg, call.now);
          EmitBounds(cfg, prior.manager, call.now);
          HolesOfConcat(cfg.size, prior.origin, prior.emitted, out, after, newest);
          IncreasingConcat(cfg.size, prior.origin, prior.emitted, out, after, newest);
        } else {
          assert prior.emitted + out == prior.emitted;
        }
      }
    }
  }

  // ------------------------------------------------------------------
  // Conservation and grouping over whole runs
  // ------------------------------------------------------------------

  function TotalEmitted(slices: seq<Slice>): nat {
    if slices == [] then 0 else TotalEmitted(slices[..|slices| - 1]) + slices[|slices| - 1].totalEdits
  }

  lemma {:induction false} TotalEmittedConcat(a: seq<Slice>, b: seq<Slice>)
    ensures TotalEmitted(a + b) == TotalEmitted(a) + TotalEmitted(b)
  {
    if b == [] {
      assert a + b == a;
    } else {
      assert (a + b)[..|a + b| - 1] == a + b[..|b| - 1];
      TotalEmittedConcat(a, b[..|b| - 1]);
    }
  }

  ghost function Between(windows: map<int, Tally>, after: int, through: int): map<int, Tally> {
    map k | k in windows && after < k <= through :: windows[k]
  }

  /** The stepping starts hit every open window in range: what is emitted is what was counted there. */
  lemma {:induction false} SlicesTotal(cfg: Settings, windows: map<int, Tally>, after: int, through: int)
    requires cfg.size > 0 && AllSized(cfg, windows) && after <= through
    requires Aligned(cfg.size, after) && Aligned(cfg.size, through)
    requires forall k :: k in windows ==> Aligned(cfg.size, k)
    ensures TotalEmitted(Slices(cfg, windows, after, through)) == TotalOf(Between(windows, after, through))
    decreases through - after
  {
    hide Aligned, Snapshot, TotalOf, Between, TotalEmitted;
    if through > after {
      AlignedStep(cfg.size, through);
      AlignedApart(cfg.size, after, through);
      SlicesTotal(cfg, windows, after, through - cfg.size);
      TotalEmittedSnoc(Slices(cfg, windows, after, through - cfg.size), Snapshot(TallyAt(cfg, windows, through)));
      BetweenStep(cfg, windows, after, through);
    } else {
      assert TotalEmitted([]) == 0 by { NothingEmitted(); }
      NothingBetween(windows, after);
    }
  }

  lemma NothingEmitted()
    ensures TotalEmitted([]) == 0
  {
  }

  lemma TotalEmittedSnoc(slices: seq<Slice>, s: Slice)
    ensures TotalEmitted(slices + [s]) == TotalEmitted(slices) + s.totalEdits
  {
    assert (slices + [s])[..|slices|] == slices;
  }

  lemma NothingBetween(windows: map<int, Tally>, start: int)
    ensures TotalOf(Between(windows, start, start)) == 0
  {
    assert Between(windows, start, start).Keys == {};
  }

  lemma BetweenStep(cfg: Settings, windows: map<int, Tally>, after: int, through: int)
    requires cfg.size > 0 && Aligned(cfg.size, through) && after + cfg.size <= through
    requires forall k :: k in windows ==> Aligned(cfg.size, k)
    ensures TotalOf(Between(windows, after, through))
            == TotalOf(Between(windows, after, through - cfg.size)) + TallyAt(cfg, windows, through).total
  {
    hide Aligned;
    var whole, part := Between(windows, after, through), Between(windows, after, through - cfg.size);
    forall k | k in windows && after < k < through ensures k <= through - cfg.size {
      AlignedApart(cfg.size, k, through);
    }
    if through in windows {
      assert whole - {through} == part;
      TotalWithout(whole, through);
    } else {
      assert whole == part;
    }
  }

  /** A call moves events between the open windows, the emitted summaries and the late count; it loses none. */
  lemma PopConserves(cfg: Settings, m: Manager, now: real)
    requires WellFormed(cfg, m) && cfg.maxGap >= 0
    ensures var left := PopState(cfg, m, now);
      m.late + TotalOf(m.windows) == left.late + TotalOf(left.windows) + TotalEmitted(PopSlices(cfg, m, now))
  {
    hide Aligned, TotalOf;
    if Due(cfg, m, now) {
      var after, newest := EmitAfter(cfg, m, now), NewestClosed(cfg, now);
      EmitBounds(cfg, m, now);
      SlicesTotal(cfg, m.windows, after, newest);
      assert Dropped(cfg, m, now)
          == if Resyncs(cfg, m, now) then Between(m.windows, m.emittedThrough.value, after) else map[];
      assert !Resyncs(cfg, m, now) ==> Between(m.windows, m.emittedThrough.value, after) == map[];
      ThreeParts(m.windows, m.emittedThrough.value, after, newest);
      assert PopState(cfg, m, now).windows == After(m.windows, newest);
    }
  }


  /** Windows above `low` split at two cuts. */
  lemma ThreeParts(windows: map<int, Tally>, low: int, mid: int, high: int)
    requires low <= mid <= high && forall k :: k in windows ==> k > low
    ensures TotalOf(windows) == TotalOf(Between(windows, low, mid)) + TotalOf(Between(windows, mid, high))
                                + TotalOf(After(windows, high))
  {
    hide TotalOf;
    var closed := set k | k in windows && k <= high;
    TotalSplit(windows, closed);
    assert windows - closed == After(windows, high);
    var gone := map k | k in windows && k in closed :: windows[k];
    var early := set k | k in windows && k <= mid;
    TotalSplit(gone, early);
    assert gone - early == Between(windows, mid, high);
    assert (map k | k in gone && k in early :: gone[k]) == Between(windows, low, mid);
  }

  /** A call counts events as late exactly when it resynchronises past an open window. */
  lemma PopLosesNothingUnless(cfg: Settings, m: Manager, now: real)
    requires WellFormed(cfg, m)
    ensures PopState(cfg, m, now).late > m.late
            <==> Resyncs(cfg, m, now) && exists k :: k in m.windows && k <= EmitAfter(cfg, m, now)
  {
    var gone := Dropped(cfg, m, now);
    if Resyncs(cfg, m, now) {
      if k :| k in m.windows && k <= EmitAfter(cfg, m, now) {
        assert k in gone;
        TotalWithout(gone, k);
      } else {
        assert gone.Keys == {};
      }
    } else {
      assert gone.Keys == {};
    }
  }

  /** Every event added is in an emitted summary, in an open window, or in the late count. */
  lemma {:induction false} EventsAreConserved(cfg: Settings, calls: seq<Call>)
    requires cfg.size > 0 && cfg.maxGap >= 0
    ensures var h := RunCalls(cfg, calls);
      h.adds == h.manager.late + TotalOf(h.manager.windows) + TotalEmitted(h.emitted)
  {
    if calls != [] {
      var prior, call := RunCalls(cfg, calls[..|calls| - 1]), calls[|calls| - 1];
      EventsAreConserved(cfg, calls[..|calls| - 1]);
      if call.PopCall? {
        PopConserves(cfg, prior.manager, call.now);
        TotalEmittedConcat(prior.emitted, PopSlices(cfg, prior.manager, call.now));
      } else if Accepts(cfg, prior.manager, call.ts) {
        AddCountsOnce(cfg, prior.manager, call.event, call.ts);
      }
    }
  }

  lemma AddCountsOnce(cfg: Settings, m: Manager, e: Event, ts: real)
    requires cfg.size > 0 && Accepts(cfg, m, ts)
    ensures TotalOf(AddTo(cfg, m, e, ts).windows) == TotalOf(m.windows) + 1
  {
    hide Align, Plus, TotalOf;
    var start, windows := Align(cfg.size, ts), AddTo(cfg, m, e, ts).windows;
    TotalWithout(windows, start);
    assert windows - {start} == m.windows - {start};
    if start in m.windows {
      TotalWithout(m.windows, start);
    } else {
      assert m.windows - {start} == m.windows;
    }
  }

  /** Every emitted summary is complete: it is the fold of all events the run ever counted for that window. */
  lemma {:induction false} EmittedIsComplete(cfg: Settings, calls: seq<Call>)
    requires cfg.size > 0 && cfg.maxGap >= 1
    ensures var h := RunCalls(cfg, calls);
      Grouped(cfg, h.manager, h.routed) && AllComplete(cfg, h.routed, h.emitted)
  {
    if calls != [] {
      var before := calls[..|calls| - 1];
      var prior, call := RunCalls(cfg, before), calls[|calls| - 1];
      EmittedIsComplete(cfg, before);
      if call.PopCall? {
        PopGroups(cfg, prior.manager, prior.routed, call.now);
      } else if Accepts(cfg, prior.manager, call.ts) {
        AddGroups(cfg, prior.manager, prior.routed, call.event, call.ts);
        EmissionOrder(cfg, before);
        if prior.manager.emittedThrough.Some? {
          IncreasingStarts(cfg.size, prior.origin, prior.emitted);
        }
        var r := Routed(call.event, Align(cfg.size, call.ts));
        forall i | 0 <= i < |prior.emitted|
          ensures prior.emitted[i] == Complete(cfg, prior.routed + [r], prior.emitted[i].windowStart)
        {
          BucketOfAppend(prior.routed, r, prior.emitted[i].windowStart);
        }
      }
    }
  }
}

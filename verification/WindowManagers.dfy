/** The mutable window manager, proved against the functions of `Windows`. */
module WindowManagers {
  import opened Alignment
  import opened Events
  import opened Sets
  import opened Tallies
  import opened Windows

  datatype Created = Manages(manager: WindowManager) | InvalidSize

  /** A non-positive window size is rejected. */
  method NewManager(size: int, grace: real, maxGap: int) returns (r: Created)
    ensures r.InvalidSize? <==> size <= 0
    ensures r.Manages? ==> fresh(r.manager) && r.manager.cells == {} && r.manager.Valid() && r.manager.Value() == FRESH
                           && r.manager.Config() == Settings(size, grace, maxGap)
  {
    if size <= 0 {
      return InvalidSize;
    }
    var manager := new WindowManager(size, grace, maxGap);
    r := Manages(manager);
  }

  /** Each open window has the recorded value, and no two starts share a window object. */
  ghost predicate Holds(windows: map<int, TumblingWindow>, tallies: map<int, Tally>, cells: set<TumblingWindow>)
    reads cells
  {
    && windows.Keys == tallies.Keys
    && (forall k :: k in windows ==> windows[k] in cells && windows[k].Value() == tallies[k])
    && (forall j, k :: j in windows && k in windows && j != k ==> windows[j] != windows[k])
  }

  /** Count one event in one open window; the others stand still. */
  method CountAt(windows: map<int, TumblingWindow>, ghost tallies: map<int, Tally>, ghost cells: set<TumblingWindow>,
               start: int, e: Event)
    requires Holds(windows, tallies, cells) && start in windows && start in tallies
    modifies cells
    ensures Holds(windows, tallies[start := Count(tallies[start], e)], cells)
  {
    hide Count;
    windows[start].Add(e);
  }

  class WindowManager {
    const size: int
    const grace: real
    const maxGap: int
    var windows: map<int, TumblingWindow>
    var emittedThrough: Option<int>
    var maxTs: Option<real>
    var lateEvents: nat
    ghost var tallies: map<int, Tally>  // the values of the open windows
    ghost var cells: set<TumblingWindow>  // every window object handed out so far

    function Config(): Settings {
      Settings(size, grace, maxGap)
    }

    ghost function Value(): Manager
      reads this
    {
      Manager(tallies, emittedThrough, maxTs, lateEvents)
    }

    ghost predicate Tied()
      reads this, cells
    {
      Holds(windows, tallies, cells)
    }

    ghost predicate Valid()
      reads this, cells
    {
      Tied() && WellFormed(Config(), Value())
    }

    constructor (size: int, grace: real, maxGap: int)
      requires size > 0
      ensures Valid() && cells == {}
      ensures Config() == Settings(size, grace, maxGap)
      ensures Value() == FRESH
    {
      this.size, this.grace, this.maxGap := size, grace, maxGap;
      windows, emittedThrough, maxTs, lateEvents := map[], None, None, 0;
      tallies, cells := map[], {};
    }

    function Watermark(): Option<real>
      reads this
    {
      maxTs
    }

    /** The open window at `start`, opened now if there is none. */
    method WindowFor(start: int) returns (w: TumblingWindow)
      requires Tied()
      modifies `windows, `tallies, `cells
      ensures Tied() && start in windows && w == windows[start]
      ensures fresh(cells - old(cells))
      ensures tallies == old(tallies)[start := TallyAt(Config(), old(tallies), start)]
    {
      if start !in windows {
        w := new TumblingWindow(start, size);
        windows := windows[start := w];
        tallies := tallies[start := w.Value()];
        cells := cells + {w};
      }
      w := windows[start];
    }

    lemma SameStarts()
      requires Tied()
      ensures windows.Keys == tallies.Keys
    {
    }

    /** Count one event in the window at `start`. */
    method CountIn(start: int, e: Event)
      requires Tied()
      modifies `windows, `tallies, `cells, cells
      ensures Tied() && fresh(cells - old(cells))
      ensures tallies == old(tallies)[start := Count(TallyAt(Config(), old(tallies), start), e)]
    {
      hide Holds, Count;
      var w := WindowFor(start);
      SameStarts();
      CountAt(windows, tallies, cells, start, e);
      tallies := tallies[start := Count(tallies[start], e)];
    }

    method Add(e: Event, ts: real) returns (counted: bool)
      requires Valid()
      modifies this, cells
      ensures Valid() && fresh(cells - old(cells))
      ensures counted == Accepts(Config(), old(Value()), ts)
      ensures Value() == AddTo(Config(), old(Value()), e, ts)
    {
      AddKeepsWellFormed(Config(), Value(), e, ts);
      var start := Align(size, ts);
      if maxTs.None? || ts > maxTs.value {
        maxTs := Some(ts);
      }
      if emittedThrough.Some? && start <= emittedThrough.value {
        lateEvents := lateEvents + 1;
        counted := false;
      } else {
        if emittedThrough.None? {
          emittedThrough := Some(start - size);
        }
        CountIn(start, e);
        counted := true;
      }
    }

    /** Take one window out of the dictionary. */
    method Remove(k: int) returns (w: TumblingWindow)
      requires Tied() && k in windows
      modifies `windows, `tallies
      ensures Tied()
      ensures tallies == old(tallies) - {k}
      ensures w.Value() == old(tallies)[k]
    {
      w := windows[k];
      windows := windows - {k};
      tallies := tallies - {k};
    }

    /** Discard one window, counting its events as late. */
    method Discard(k: int)
      requires Tied() && k in tallies
      modifies `windows, `tallies, `lateEvents
      ensures Tied()
      ensures tallies == old(tallies) - {k}
      ensures lateEvents == old(lateEvents) + old(tallies)[k].total
    {
      var w := Remove(k);
      lateEvents := lateEvents + w.total;
    }

    /** Discard every window at or before `start`. */
    method DropBefore(start: int)
      requires Tied()
      modifies `windows, `tallies, `lateEvents
      ensures Tied()
      ensures tallies == After(old(tallies), start)
      ensures lateEvents == old(lateEvents) + TotalOf(UpTo(old(tallies), start))
    {
      hide TotalOf;
      ghost var kept, rest := After(tallies, start), UpTo(tallies, start);
      ghost var due := lateEvents + TotalOf(rest);
      var stale := set k | k in windows && k <= start;
      SplitAt(tallies, start);
      while stale != {}
        invariant stale == rest.Keys && kept.Keys !! rest.Keys
        invariant Tied()
        invariant tallies == kept + rest
        invariant lateEvents + TotalOf(rest) == due
        decreases stale
      {
        ghost var some := Pick(stale);
        var k: int :| k in stale;
        DropOne(kept, rest, k);
        Discard(k);
        stale, rest := stale - {k}, rest - {k};
      }
      NothingLeft(kept, rest);
    }

    /** Summarise and forget the window at `start`, an empty one if nothing was counted there. */
    method PopSnapshot(start: int) returns (summary: Slice)
      requires Tied() && size != 0 && AllSized(Config(), tallies)
      modifies `windows, `tallies
      ensures Tied()
      ensures tallies == old(tallies) - {start}
      ensures summary == Snapshot(TallyAt(Config(), old(tallies), start))
    {
      var window: TumblingWindow;
      if start in windows {
        window := Remove(start);
      } else {
        window := new TumblingWindow(start, size);
      }
      summary := window.TakeSnapshot();
    }

    /** The emission loop: every start after `after` up to `newest`, in steps of the window size. */
    method Emit(after: int, newest: int) returns (out: seq<Slice>)
      requires Tied() && size > 0 && AllSized(Config(), tallies)
      requires Aligned(size, after) && Aligned(size, newest)
      requires forall k :: k in tallies ==> Aligned(size, k) && k > after
      modifies `windows, `tallies
      ensures Tied()
      ensures tallies == After(old(tallies), newest)
      ensures out == Slices(Config(), old(tallies), after, newest)
    {
      hide Aligned, Snapshot;
      ghost var last := after;
      out := [];
      var start := after + size;
      AfterAll(tallies, after);
      while start <= newest
        invariant last == start - size && Aligned(size, last) && after <= last && (last <= newest || last == after)
        invariant Tied()
        invariant tallies == After(old(tallies), last)
        invariant out == Slices(Config(), old(tallies), after, last)
        decreases newest - start
      {
        EmitStep(Config(), old(tallies), after, last, newest);
        var summary := PopSnapshot(start);
        out := out + [summary];
        last, start := start, start + size;
      }
      if last <= newest {
        AlignedApart(size, last, newest);
      } else {
        AfterAfter(old(tallies), last, newest);
        AfterAll(old(tallies), newest);
      }
    }

    /** Where emission starts; more windows due than the cap means dropping everything up to there. */
    method Resynchronise(newestClosed: int) returns (after: int)
      requires Tied() && size > 0 && emittedThrough.Some?
      requires Aligned(size, newestClosed) && Aligned(size, emittedThrough.value)
      requires forall k :: k in tallies ==> k > emittedThrough.value
      modifies `windows, `tallies, `emittedThrough, `lateEvents
      ensures Tied()
      ensures after == StartAfter(Config(), old(emittedThrough).value, newestClosed) && Aligned(size, after)
      ensures tallies == After(old(tallies), after)
      ensures lateEvents == old(lateEvents) +
                            if Overdue(Config(), old(emittedThrough).value, newestClosed)
                            then TotalOf(UpTo(old(tallies), after)) else 0
    {
      GapInWindows(Config(), emittedThrough.value, newestClosed);
      var gap := (newestClosed - emittedThrough.value) / size;
      after := emittedThrough.value;
      AfterAll(tallies, after);
      if gap > maxGap {
        after := newestClosed - maxGap * size;
        AlignedBy(size, newestClosed, maxGap);
        emittedThrough := Some(after);
        DropBefore(after);
      }
    }

    /** Emit everything due up to `newestClosed`. */
    method EmitDue(newestClosed: int) returns (out: seq<Slice>)
      requires Valid() && emittedThrough.Some? && Aligned(size, newestClosed)
      modifies `windows, `tallies, `emittedThrough, `lateEvents
      ensures Tied()
      ensures Value() == Emitted(Config(), old(Value()), newestClosed)
      ensures out == Slices(Config(), old(tallies),
                            StartAfter(Config(), old(emittedThrough).value, newestClosed), newestClosed)
    {
      hide Aligned, Snapshot, TotalOf;
      ghost var was := tallies;
      var after := Resynchronise(newestClosed);
      out := Emit(after, newestClosed);
      emittedThrough := Some(newestClosed);
      AfterAfter(was, after, newestClosed);
      AfterAfter(was, after, after);
      SlicesOfKept(Config(), was, After(was, after), after, newestClosed);
    }

    method PopClosed(now: real) returns (out: seq<Slice>)
      requires Valid()
      modifies this
      ensures Valid() && cells == old(cells)
      ensures Value() == PopState(Config(), old(Value()), now)
      ensures out == PopSlices(Config(), old(Value()), now)
    {
      out := [];
      if emittedThrough.Some? {
        var newestClosed := Align(size, now - grace) - size;
        if newestClosed > emittedThrough.value {
          DueWhenEndPassed(Config(), emittedThrough.value, now);
          PopKeepsWellFormed(Config(), Value(), now);
          PopMatches(Config(), Value(), now);
          out := EmitDue(newestClosed);
        }
      }
    }
  }

  /** The whole new state of a call that finds something due. */
  ghost function Emitted(cfg: Settings, m: Manager, newest: int): Manager
    requires cfg.size > 0 && m.emittedThrough.Some?
  {
    var after := StartAfter(cfg, m.emittedThrough.value, newest);
    Manager(After(m.windows, Later(after, newest)), Some(newest), m.maxTs,
            m.late + if Overdue(cfg, m.emittedThrough.value, newest) then TotalOf(UpTo(m.windows, after)) else 0)
  }

  lemma PopMatches(cfg: Settings, m: Manager, now: real)
    requires WellFormed(cfg, m) && Due(cfg, m, now)
    ensures PopState(cfg, m, now) == Emitted(cfg, m, NewestClosed(cfg, now))
    ensures PopSlices(cfg, m, now) == Slices(cfg, m.windows,
      StartAfter(cfg, m.emittedThrough.value, NewestClosed(cfg, now)), NewestClosed(cfg, now))
  {
    var after := StartAfter(cfg, m.emittedThrough.value, NewestClosed(cfg, now));
    assert after == EmitAfter(cfg, m, now);
    if Resyncs(cfg, m, now) {
      assert Dropped(cfg, m, now) == UpTo(m.windows, after);
    }
  }

  function Later(a: int, b: int): int {
    if a > b then a else b
  }

  lemma SplitAt(windows: map<int, Tally>, start: int)
    ensures windows == After(windows, start) + UpTo(windows, start)
  {
  }

  lemma AfterAfter(windows: map<int, Tally>, a: int, b: int)
    ensures After(After(windows, a), b) == After(windows, Later(a, b))
  {
  }

  lemma AfterAll(windows: map<int, Tally>, start: int)
    requires forall k :: k in windows ==> k > start
    ensures After(windows, start) == windows
  {
  }

  lemma NothingLeft(kept: map<int, Tally>, rest: map<int, Tally>)
    requires rest.Keys == {}
    ensures kept + rest == kept && TotalOf(rest) == 0
  {
    assert rest == map[];
  }

  /** One turn of the emission loop. */
  lemma EmitStep(cfg: Settings, windows: map<int, Tally>, after: int, last: int, newest: int)
    requires cfg.size > 0 && after <= last < newest && last + cfg.size <= newest
    requires Aligned(cfg.size, last) && Aligned(cfg.size, newest)
    requires AllSized(cfg, windows) && forall k :: k in windows ==> Aligned(cfg.size, k)
    ensures var start := last + cfg.size;
      && Aligned(cfg.size, start)
      && After(windows, last) - {start} == After(windows, start)
      && AllSized(cfg, After(windows, last))
      && Slices(cfg, windows, after, start)
         == Slices(cfg, windows, after, last) + [Snapshot(TallyAt(cfg, After(windows, last), start))]
  {
    AlignedStep(cfg.size, last);
    forall k | k in windows && k > last && k != last + cfg.size
      ensures k > last + cfg.size
    {
      AlignedApart(cfg.size, last, k);
    }
  }

  /** Dropping windows at or before `after` does not change what is emitted after it. */
  lemma {:induction false} SlicesOfKept(cfg: Settings, windows: map<int, Tally>, kept: map<int, Tally>,
                                        after: int, through: int)
    requires cfg.size > 0 && AllSized(cfg, windows) && AllSized(cfg, kept)
    requires After(kept, after) == After(windows, after)
    ensures Slices(cfg, kept, after, through) == Slices(cfg, windows, after, through)
    decreases through - after
  {
    if through > after {
      SlicesOfKept(cfg, windows, kept, after, through - cfg.size);
      assert through in kept <==> through in After(kept, after);
      assert through in windows <==> through in After(windows, after);
      assert through in kept ==> kept[through] == After(kept, after)[through];
      assert through in windows ==> windows[through] == After(windows, after)[through];
    }
  }

  lemma DropOne(kept: map<int, Tally>, rest: map<int, Tally>, k: int)
    requires kept.Keys !! rest.Keys && k in rest
    ensures (kept + rest) - {k} == kept + (rest - {k})
    ensures kept.Keys !! (rest - {k}).Keys && (rest - {k}).Keys == rest.Keys - {k}
    ensures TotalOf(rest) == (kept + rest)[k].total + TotalOf(rest - {k})
  {
    TotalWithout(rest, k);
  }
}

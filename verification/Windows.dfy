/** Epoch-aligned tumbling windows of one partition: `WindowManager` and the function it computes. */
module Windows {
  import opened Alignment
  import opened Events
  import opened Sets
  import opened Tallies

  /** `maxGap` caps how many windows one call may emit; `grace` holds a closed window open for stragglers. */
  datatype Settings = Settings(size: int, grace: real, maxGap: int)

  /** The value of a `WindowManager`. */
  datatype Manager = Manager(
    windows: map<int, Tally>, emittedThrough: Option<int>, maxTs: Option<real>, late: nat)

  const FRESH := Manager(map[], None, None, 0)

  // ------------------------------------------------------------------
  // What add and pop_closed compute
  // ------------------------------------------------------------------

  predicate Accepts(cfg: Settings, m: Manager, ts: real)
    requires cfg.size > 0
  {
    m.emittedThrough.None? || Align(cfg.size, ts) > m.emittedThrough.value
  }

  function TallyAt(cfg: Settings, windows: map<int, Tally>, start: int): Tally {
    if start in windows then windows[start] else EmptyTally(start, cfg.size)
  }

  function AddTo(cfg: Settings, m: Manager, e: Event, ts: real): Manager
    requires cfg.size > 0
  {
    var start := Align(cfg.size, ts);
    var seen := m.(maxTs := if m.maxTs.None? || ts > m.maxTs.value then Some(ts) else m.maxTs);
    if !Accepts(cfg, m, ts) then seen.(late := m.late + 1)
    else seen.(
      emittedThrough := if m.emittedThrough.None? then Some(start - cfg.size) else m.emittedThrough,
      windows := m.windows[start := Count(TallyAt(cfg, m.windows, start), e)])
  }

  /** The newest window start whose end plus grace has passed at `now`. */
  function NewestClosed(cfg: Settings, now: real): int
    requires cfg.size > 0
  {
    Align(cfg.size, now - cfg.grace) - cfg.size
  }

  predicate Due(cfg: Settings, m: Manager, now: real)
    requires cfg.size > 0
  {
    m.emittedThrough.Some? && m.emittedThrough.value < NewestClosed(cfg, now)
  }

  /** The longest stretch of time one call may emit. */
  function Span(cfg: Settings): int {
    Times(cfg.maxGap, cfg.size)
  }

  /** More than that lies between the last emission and the newest window due. */
  predicate Overdue(cfg: Settings, emitted: int, newest: int) {
    newest - emitted > Span(cfg)
  }

  function StartAfter(cfg: Settings, emitted: int, newest: int): int {
    if Overdue(cfg, emitted, newest) then newest - Span(cfg) else emitted
  }

  predicate Resyncs(cfg: Settings, m: Manager, now: real)
    requires cfg.size > 0
  {
    Due(cfg, m, now) && Overdue(cfg, m.emittedThrough.value, NewestClosed(cfg, now))
  }

  /** Emission starts just after this window; at a resync everything up to it is dropped. */
  function EmitAfter(cfg: Settings, m: Manager, now: real): int
    requires cfg.size > 0 && Due(cfg, m, now)
  {
    StartAfter(cfg, m.emittedThrough.value, NewestClosed(cfg, now))
  }

  /** The windows newer than a start. */
  ghost function After(windows: map<int, Tally>, start: int): map<int, Tally> {
    map k | k in windows && k > start :: windows[k]
  }

  /** The windows at or before a start. */
  ghost function UpTo(windows: map<int, Tally>, start: int): map<int, Tally> {
    map k | k in windows && k <= start :: windows[k]
  }

  predicate AllSized(cfg: Settings, windows: map<int, Tally>) {
    forall k :: k in windows ==> windows[k].size == cfg.size
  }

  /** One summary per window after `after`, up to `through`, oldest first, empty where nothing was counted. */
  function Slices(cfg: Settings, windows: map<int, Tally>, after: int, through: int): seq<Slice>
    requires cfg.size > 0 && AllSized(cfg, windows)
    decreases through - after
  {
    if through <= after then []
    else Slices(cfg, windows, after, through - cfg.size) + [Snapshot(TallyAt(cfg, windows, through))]
  }

  /** The windows a resync discards. */
  function Dropped(cfg: Settings, m: Manager, now: real): map<int, Tally>
    requires cfg.size > 0
  {
    if Resyncs(cfg, m, now) then map k | k in m.windows && k <= EmitAfter(cfg, m, now) :: m.windows[k] else map[]
  }

  ghost function TotalOf(windows: map<int, Tally>): nat {
    if windows.Keys == {} then 0
    else var k := Pick(windows.Keys); windows[k].total + TotalOf(windows - {k})
  }

  ghost function PopState(cfg: Settings, m: Manager, now: real): Manager
    requires cfg.size > 0
  {
    if !Due(cfg, m, now) then m
    else m.(
      windows := map k | k in m.windows && k > NewestClosed(cfg, now) && k !in Dropped(cfg, m, now) :: m.windows[k],
      emittedThrough := Some(NewestClosed(cfg, now)),
      late := m.late + TotalOf(Dropped(cfg, m, now)))
  }

  function PopSlices(cfg: Settings, m: Manager, now: real): seq<Slice>
    requires cfg.size > 0 && AllSized(cfg, m.windows)
  {
    if !Due(cfg, m, now) then [] else Slices(cfg, m.windows, EmitAfter(cfg, m, now), NewestClosed(cfg, now))
  }

  /** Open windows are aligned, non-empty and newer than everything emitted; before the first event there is nothing. */
  ghost predicate WellFormed(cfg: Settings, m: Manager) {
    && cfg.size > 0
    && (m.emittedThrough.None? ==> m == FRESH)
    && (m.emittedThrough.Some? ==> m.maxTs.Some? && Aligned(cfg.size, m.emittedThrough.value))
    && (forall k :: k in m.windows ==>
          && Aligned(cfg.size, k) && k > m.emittedThrough.value
          && m.windows[k].start == k && m.windows[k].size == cfg.size && m.windows[k].total > 0)
  }

  lemma AddKeepsWellFormed(cfg: Settings, m: Manager, e: Event, ts: real)
    requires WellFormed(cfg, m)
    ensures WellFormed(cfg, AddTo(cfg, m, e, ts))
  {
    AlignBounds(cfg.size, ts);
    AlignedStep(cfg.size, Align(cfg.size, ts));
  }

  lemma PopKeepsWellFormed(cfg: Settings, m: Manager, now: real)
    requires WellFormed(cfg, m)
    ensures WellFormed(cfg, PopState(cfg, m, now))
  {
    if Due(cfg, m, now) {
      DueWhenEndPassed(cfg, m.emittedThrough.value, now);
    }
  }

  lemma {:induction false} TotalWithout(windows: map<int, Tally>, k: int)
    requires k in windows
    ensures TotalOf(windows) == windows[k].total + TotalOf(windows - {k})
  {
    var j := Pick(windows.Keys);
    if j != k {
      TotalWithout(windows - {j}, k);
      TotalWithout(windows - {k}, j);
      assert windows - {j} - {k} == windows - {k} - {j};
    }
  }

  lemma {:induction false} TotalSplit(windows: map<int, Tally>, keys: set<int>)
    ensures TotalOf(windows) == TotalOf(windows - keys) + TotalOf(map k | k in windows && k in keys :: windows[k])
    decreases windows.Keys
  {
    var part := map k | k in windows && k in keys :: windows[k];
    if part.Keys == {} {
      assert forall k :: k in windows && k in keys ==> k in part.Keys;
      assert windows - keys == windows;
    } else {
      var k := Pick(part.Keys);
      TotalWithout(windows, k);
      TotalSplit(windows - {k}, keys);
      assert windows - {k} - keys == windows - keys;
      TotalWithout(part, k);
      assert part - {k} == map j | j in windows - {k} && j in keys :: (windows - {k})[j];
    }
  }

  /** A window is due at `now` exactly when its end plus the grace period has passed. */
  lemma DueWhenEndPassed(cfg: Settings, start: int, now: real)
    requires cfg.size > 0 && Aligned(cfg.size, start)
    ensures start <= NewestClosed(cfg, now) <==> (start + cfg.size) as real + cfg.grace <= now
    ensures Aligned(cfg.size, NewestClosed(cfg, now))
  {
    var cut := Align(cfg.size, now - cfg.grace);
    AlignBounds(cfg.size, now - cfg.grace);
    AlignedStep(cfg.size, cut);
    AlignedStep(cfg.size, start);
    AlignedApart(cfg.size, cut, start + cfg.size);
    AlignedApart(cfg.size, start + cfg.size, cut);
  }

  /** The window count of a gap exceeds the cap exactly when the gap exceeds the span. */
  lemma GapInWindows(cfg: Settings, emitted: int, newest: int)
    requires cfg.size > 0 && Aligned(cfg.size, emitted) && Aligned(cfg.size, newest)
    ensures (newest - emitted) / cfg.size > cfg.maxGap <==> newest - emitted > Span(cfg)
  {
    var x :| emitted == Times(x, cfg.size);
    var y :| newest == Times(y, cfg.size);
    TimesMinus(y, x, cfg.size);
    DivideExactly(y - x, cfg.size);
    TimesMonotone(cfg.maxGap, y - x, cfg.size);
    TimesMonotone(y - x, cfg.maxGap, cfg.size);
  }
}

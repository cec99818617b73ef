/** Concrete inputs on which a stated promise does not hold, and why. */
module Counterexamples {
  import opened Alignment
  import opened Counters
  import opened Events
  import opened Lanes
  import opened Merge
  import opened Offsets
  import opened Partitioned
  import opened Tallies
  import opened Windows

  // ------------------------------------------------------------------
  // Event time on a log whose windows go backwards
  // ------------------------------------------------------------------

  const CONFIG := Settings(5, 1.0, 12)

  function Stamp(ts: real): Event {
    Event(None, None, None, false, Some(ts))
  }

  lemma AlignIs(ts: real, k: int)
    requires Times(k, CONFIG.size) as real <= ts < Times(k, CONFIG.size) as real + CONFIG.size as real
    ensures Align(CONFIG.size, ts) == Times(k, CONFIG.size)
  {
    AlignBounds(CONFIG.size, ts);
    assert Aligned(CONFIG.size, Times(k, CONFIG.size));
    AlignedApart(CONFIG.size, Align(CONFIG.size, ts), Times(k, CONFIG.size));
    AlignedApart(CONFIG.size, Times(k, CONFIG.size), Align(CONFIG.size, ts));
  }

  lemma IngestSnoc(lane: Lane, events: seq<Event>, e: Event)
    ensures IngestAll(CONFIG, EVENT, lane, events + [e], 0.0)
         == Ingest(CONFIG, EVENT, IngestAll(CONFIG, EVENT, lane, events, 0.0), e, 0.0)
  {
    assert (events + [e])[..|events|] == events;
  }

  const BACKWARDS := [Stamp(101.0), Stamp(105.0), Stamp(104.9), Stamp(106.0)]

  lemma BackwardsLane()
    ensures var lane := IngestAll(CONFIG, EVENT, NewLane(9), BACKWARDS, 0.0);
      && lane.base == 9 && lane.starts == [100, 105, 100, 105] && lane.pending == map[100 := 11, 105 := 12]
      && lane.manager.windows.Keys == {100, 105} && lane.manager.emittedThrough == Some(95)
      && lane.manager.maxTs == Some(106.0)
      && lane.manager.windows[100].total == 2 && lane.manager.windows[105].total == 2
      && lane.manager.windows[100].start == 100 && lane.manager.windows[100].size == 5
      && lane.manager.windows[105].size == 5
  {
    hide Align, Plus;
    AlignIs(104.9, 20);
    AlignIs(106.0, 21);
    var half, most := BACKWARDS[..2], BACKWARDS[..3];
    assert half + [Stamp(104.9)] == most && most + [Stamp(106.0)] == BACKWARDS;
    HalfOfBackwards();
    IngestSnoc(NewLane(9), half, Stamp(104.9));
    IngestSnoc(NewLane(9), most, Stamp(106.0));
  }

  lemma HalfOfBackwards()
    ensures var lane := IngestAll(CONFIG, EVENT, NewLane(9), BACKWARDS[..2], 0.0);
      && lane.base == 9 && lane.starts == [100, 105] && lane.pending == map[100 := 9, 105 := 10]
      && lane.manager.windows.Keys == {100, 105} && lane.manager.emittedThrough == Some(95)
      && lane.manager.maxTs == Some(105.0)
      && lane.manager.windows[100].total == 1 && lane.manager.windows[105].total == 1
      && lane.manager.windows[100].start == 100 && lane.manager.windows[100].size == 5
      && lane.manager.windows[105].size == 5
  {
    hide Align, Plus;
    AlignIs(101.0, 20);
    AlignIs(105.0, 21);
    var first := BACKWARDS[..1];
    assert [] + [Stamp(101.0)] == first && first + [Stamp(105.0)] == BACKWARDS[..2];
    IngestSnoc(NewLane(9), [], Stamp(101.0));
    IngestSnoc(NewLane(9), first, Stamp(105.0));
  }

  /**
   * Offsets 9..12 at 101, 105, 104.9 and 106: the flush writes window 100 and commits offset 12, although offset 10 is
   * counted only in window 105, still open in memory. A restart from 12 later writes window 105 without it.
   */
  lemma BackwardsLogSkipsAnOpenMessage()
    ensures var lane := IngestAll(CONFIG, EVENT, NewLane(9), BACKWARDS, 0.0);
      && AllSized(CONFIG, lane.manager.windows)
      && |LaneSlices(CONFIG, EVENT, lane, 0.0)| == 1
      && LaneSlices(CONFIG, EVENT, lane, 0.0)[0].windowStart == 100
      && Released(lane.pending, 100) == Some(12)
      && lane.base == 9 && lane.starts == [100, 105, 100, 105]
      && 105 in PopLane(CONFIG, EVENT, lane, 0.0).manager.windows
    ensures var again := IngestAll(CONFIG, EVENT, NewLane(12), [Stamp(106.0), Stamp(112.0)], 0.0);
      && AllSized(CONFIG, again.manager.windows)
      && |LaneSlices(CONFIG, EVENT, again, 0.0)| == 1
      && LaneSlices(CONFIG, EVENT, again, 0.0)[0].windowStart == 105
      && LaneSlices(CONFIG, EVENT, again, 0.0)[0].totalEdits == 1
  {
    hide IngestAll, Snapshot, Align;
    BackwardsLane();
    AlignIs(105.0, 21);
    var lane := IngestAll(CONFIG, EVENT, NewLane(9), BACKWARDS, 0.0);
    assert Settled(lane.pending, 100) == map[100 := 11];
    OneReleased(lane.pending, 100, 100, 11);
    OneWindowDue(lane.manager, 106.0, 100);
    RestartedLane();
    AlignIs(111.0, 22);
    OneWindowDue(IngestAll(CONFIG, EVENT, NewLane(12), [Stamp(106.0), Stamp(112.0)], 0.0).manager, 112.0, 105);
  }

  lemma OneReleased(p: Pending, through: int, w: int, h: nat)
    requires Settled(p, through) == map[w := h]
    ensures Released(p, through) == Some(h + 1)
  {
    var done := Settled(p, through);
    assert w in done && done[w] == h;
    HighestIsUnique(done, h);
  }

  lemma OneWindowDue(m: Manager, now: real, w: int)
    requires m.emittedThrough == Some(w - 5) && AllSized(CONFIG, m.windows) && w in m.windows
    requires Align(CONFIG.size, now - CONFIG.grace) == w + 5
    ensures Due(CONFIG, m, now) && !Resyncs(CONFIG, m, now)
    ensures PopSlices(CONFIG, m, now) == [Snapshot(m.windows[w])]
    ensures forall k :: k in m.windows && k > w ==> k in PopState(CONFIG, m, now).windows
  {
    hide Snapshot, Align;
    assert Slices(CONFIG, m.windows, w - 5, w - 5) == [];
  }

  lemma RestartedLane()
    ensures var again := IngestAll(CONFIG, EVENT, NewLane(12), [Stamp(106.0), Stamp(112.0)], 0.0);
      && again.manager.windows.Keys == {105, 110} && again.manager.emittedThrough == Some(100)
      && again.manager.maxTs == Some(112.0) && again.manager.windows[105].total == 1
      && again.manager.windows[105].start == 105
      && again.manager.windows[105].size == 5 && again.manager.windows[110].size == 5
  {
    hide Align, Plus;
    AlignIs(106.0, 21);
    AlignIs(112.0, 22);
    assert [] + [Stamp(106.0)] == [Stamp(106.0)] && [Stamp(106.0)] + [Stamp(112.0)] == [Stamp(106.0), Stamp(112.0)];
    IngestSnoc(NewLane(12), [], Stamp(106.0));
    IngestSnoc(NewLane(12), [Stamp(106.0)], Stamp(112.0));
  }

  // ------------------------------------------------------------------
  // A resync drops counted events and still releases their offsets
  // ------------------------------------------------------------------

  /** One poll at 100 and 1000: the first event is dropped unwritten, counted late, and its offset is released. */
  lemma ResyncLosesTheFirstEvent()
    ensures var lane := IngestAll(CONFIG, EVENT, NewLane(0), [Stamp(100.0), Stamp(1000.0)], 0.0);
      && AllSized(CONFIG, lane.manager.windows)
      && 100 in lane.manager.windows && lane.manager.windows[100].total == 1
      && (forall s :: s in LaneSlices(CONFIG, EVENT, lane, 0.0) ==> s.windowStart > 100)
      && 100 in LaneDropped(CONFIG, EVENT, lane, 0.0)
      && 100 !in PopLane(CONFIG, EVENT, lane, 0.0).manager.windows
      && Released(lane.pending, 990) == Some(1)
  {
    hide IngestAll, Snapshot, Align;
    JumpedLane();
    AlignIs(999.0, 199);
    var lane := IngestAll(CONFIG, EVENT, NewLane(0), [Stamp(100.0), Stamp(1000.0)], 0.0);
    assert Settled(lane.pending, 990) == map[100 := 0];
    OneReleased(lane.pending, 990, 100, 0);
    assert Span(CONFIG) == 60;
    SlicesAfter(lane.manager.windows, 930, 990);
  }

  lemma {:induction false} SlicesAfter(windows: map<int, Tally>, after: int, through: int)
    requires AllSized(CONFIG, windows) && forall k :: k in windows ==> windows[k].start == k
    ensures forall s :: s in Slices(CONFIG, windows, after, through) ==> s.windowStart > after
    decreases through - after
  {
    if through > after { SlicesAfter(windows, after, through - CONFIG.size); }
  }

  lemma JumpedLane()
    ensures var lane := IngestAll(CONFIG, EVENT, NewLane(0), [Stamp(100.0), Stamp(1000.0)], 0.0);
      && lane.manager.windows.Keys == {100, 1000} && lane.manager.emittedThrough == Some(95)
      && lane.manager.maxTs == Some(1000.0) && lane.pending == map[100 := 0, 1000 := 1]
      && lane.manager.windows[100].total == 1
      && forall k :: k in {100, 1000} ==> lane.manager.windows[k].start == k && lane.manager.windows[k].size == 5
  {
    hide Align, Plus;
    AlignIs(100.0, 20);
    AlignIs(1000.0, 200);
    assert [] + [Stamp(100.0)] == [Stamp(100.0)] && [Stamp(100.0)] + [Stamp(1000.0)] == [Stamp(100.0), Stamp(1000.0)];
    IngestSnoc(NewLane(0), [], Stamp(100.0));
    IngestSnoc(NewLane(0), [Stamp(100.0)], Stamp(1000.0));
  }

  // ------------------------------------------------------------------
  // One aggregator with several partitions still merges several slices
  // ------------------------------------------------------------------

  /** Six different users, one edit each, the sixth of them `x`. */
  ghost predicate SixthIs(events: seq<Event>, x: string) {
    && |events| == 6 && Label(ByUser, events[5]) == x
    && forall i, j :: 0 <= i < j < 6 ==> Label(ByUser, events[i]) != Label(ByUser, events[j])
  }

  /** One edit for each event's user. */
  function Singles(events: seq<Event>): Counter {
    seq(|events|, i requires 0 <= i < |events| => Entry(Label(ByUser, events[i]), 1))
  }

  lemma {:induction false} OnceEach(start: int, size: int, events: seq<Event>)
    requires forall i, j :: 0 <= i < j < |events| ==> Label(ByUser, events[i]) != Label(ByUser, events[j])
    ensures TallyOf(start, size, events).users == Singles(events)
  {
    hide Label, Plus;
    if events != [] {
      var front, name := events[..|events| - 1], Label(ByUser, events[|events| - 1]);
      OnceEach(start, size, front);
      var c := TallyOf(start, size, front).users;
      assert forall i :: 0 <= i < |c| ==> c[i].name == Label(ByUser, events[i]);
      PlusNew(c, name);
    }
  }

  lemma {:induction false} PlusNew(c: Counter, name: string)
    requires forall i :: 0 <= i < |c| ==> c[i].name != name
    ensures Plus(c, name, 1) == c + [Entry(name, 1)]
  {
    if c != [] { PlusNew(c[1..], name); }
  }

  lemma {:induction false} SortedStays(c: Counter)
    requires forall i :: 0 <= i < |c| ==> c[i].count == 1
    ensures SortBy(ByCount, c) == c
  {
    if c != [] { SortedStays(c[1..]); }
  }

  lemma SixthIsCut(start: int, size: int, events: seq<Event>, x: string)
    requires size != 0 && SixthIs(events, x)
    ensures x !in Names(Snapshot(TallyOf(start, size, events)).topEditors)
    ensures Occurrences(events, ByUser, x) == 1 && forall n :: Occurrences(events, ByUser, n) <= 1
    ensures forall n :: Occurrences(events, ByUser, n) == 1 ==> exists i :: 0 <= i < 6 && Label(ByUser, events[i]) == n
  {
    hide TallyOf, SortBy, Occurrences, CountOf;
    OnceEach(start, size, events);
    var users := TallyOf(start, size, events).users;
    SortedStays(users);
    TallyCountsTheStream(start, size, events, ByUser);
    forall n ensures Occurrences(events, ByUser, n) <= 1
      && (Occurrences(events, ByUser, n) == 1 ==> exists i :: 0 <= i < 6 && Label(ByUser, events[i]) == n)
    {
      if n in Names(users) {
        var i :| 0 <= i < |users| && users[i].name == n;
        CountAt(users, i);
      } else {
        AbsentCountsNothing(users, n);
      }
    }
    CountAt(users, 5);
    assert users[5].name == x;
  }

  /**
   * One aggregator, two partitions, one window: `x` made more edits than anybody, yet is missing from the merged list,
   * because each slice lists five other users first.
   */
  lemma MergedListCanMissTheTopEditor(start: int, size: int, a: seq<Event>, b: seq<Event>, x: string)
    requires size != 0 && SixthIs(a, x) && SixthIs(b, x)
    requires forall i, j :: 0 <= i < 5 && 0 <= j < 5 ==> Label(ByUser, a[i]) != Label(ByUser, b[j])
    ensures MergeOf(SlicesOf(start, size, [a, b])).Some?
    ensures x !in Names(MergeOf(SlicesOf(start, size, [a, b])).value.topEditors)
    ensures Occurrences(Joined([a, b]), ByUser, x) == 2
    ensures forall n :: n != x ==> Occurrences(Joined([a, b]), ByUser, n) < 2
  {
    hide Snapshot, Occurrences, Combine, SumOf, Earliest, SortBy, Joined, Label;
    SixthIsCut(start, size, a, x);
    SixthIsCut(start, size, b, x);
    var slices := SlicesOf(start, size, [a, b]);
    SlicesAreProper(start, size, [a, b]);
    CombineSums(slices, ByUser);
    assert forall s :: s in slices ==> x !in Names(s.topEditors);
    SortByKeepsCounts(ByCountThenName, Combine(slices, ByUser));
    TakeNames(Ranked(slices, ByUser), TOP_EDITORS);
    JoinedTwo(a, b);
    forall n ensures Occurrences(a + b, ByUser, n) == Occurrences(a, ByUser, n) + Occurrences(b, ByUser, n) {
      OccurrencesConcat(a, b, ByUser, n);
    }
    forall n | n != x ensures Occurrences(a + b, ByUser, n) < 2 {
      assert forall i, j :: 0 <= i < 6 && 0 <= j < 6 && Label(ByUser, a[i]) == n ==> Label(ByUser, b[j]) != n;
    }
  }

  lemma JoinedTwo(a: seq<Event>, b: seq<Event>)
    ensures Joined([a, b]) == a + b
  {
    var one, two := [a], [a, b];
    assert one[..|one| - 1] == [] && two[..|two| - 1] == one;
    assert Joined(one) == [] + a == a;
  }

  lemma TakeNames(c: Counter, n: nat)
    ensures Names(Take(c, n)) <= Names(c)
  {
  }
}

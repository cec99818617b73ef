/** A manager whose partition moved to another replica: what its further flushes write, and when it is silent. */
module StaleOwners {
  import opened Alignment
  import opened Events
  import opened Lanes
  import opened SinkHistory
  import opened Sinks
  import opened Tallies
  import opened WindowRuns
  import opened Windows
  import opened Workers

  /**
   * What a flush of a manager that received nothing more does to its partition's field of a window: it replaces it,
   * by the manager's own count, if and only if the window is in reach of the manager's clock.
   */
  lemma StaleFlush(cfg: Settings, m: Manager, now: real, writes: seq<Write>, p: int, start: int)
    requires WellFormed(cfg, m)
    ensures var before, after := LastWrites(writes, start),
                                 LastWrites(writes + Tagged(p, PopSlices(cfg, m, now)), start);
      after == if InReach(cfg, m, now, start) then before[p := Snapshot(TallyAt(cfg, m.windows, start))] else before
  {
    hide Snapshot, InReach, PopSlices, LastWrites;
    var last := Tagged(p, PopSlices(cfg, m, now));
    EmitsIffInReach(cfg, m, now, start);
    LastWritesOfConcat(writes, last, start);
    TaggedLastWrites(p, PopSlices(cfg, m, now), start);
    var own := LastWrites(last, start);
    if InReach(cfg, m, now, start) {
      assert own == map[p := own[p]];
    } else {
      assert own == map[];
    }
  }

  lemma {:induction false} TaggedLastWrites(p: int, slices: seq<Slice>, start: int)
    ensures LastWrites(Tagged(p, slices), start).Keys
         == if exists s :: s in slices && s.windowStart == start then {p} else {}
    ensures p in LastWrites(Tagged(p, slices), start) ==>
      LastWrites(Tagged(p, slices), start)[p] in slices && LastWrites(Tagged(p, slices), start)[p].windowStart == start
  {
    if slices != [] {
      var front, last := slices[..|slices| - 1], slices[|slices| - 1];
      TaggedLastWrites(p, front, start);
      assert Tagged(p, slices)[..|front|] == Tagged(p, front);
      assert slices == front + [last];
    }
  }

  /** The field another replica wrote survives the flush if and only if the window is out of reach or counted alike. */
  lemma StaleOwnerErases(cfg: Settings, m: Manager, now: real, writes: seq<Write>, p: int, start: int)
    requires WellFormed(cfg, m) && p in LastWrites(writes, start)
    ensures var before, after := LastWrites(writes, start),
                                 LastWrites(writes + Tagged(p, PopSlices(cfg, m, now)), start);
      p in after
      && (after[p] == before[p] <==>
            !InReach(cfg, m, now, start) || before[p] == Snapshot(TallyAt(cfg, m.windows, start)))
  {
    hide Snapshot, InReach, PopSlices, LastWrites;
    StaleFlush(cfg, m, now, writes, p, start);
  }

  const CONFIG := Settings(5, 1.0, 12)

  /** The last window this manager emitted was 0, and it holds nothing. */
  const STALE := Manager(map[], Some(0), Some(1.0), 0)

  /** At second 11 it writes an empty window 5 over whatever the new owner counted there. */
  lemma StaleOwnerErasesASlice(s: Slice, p: int)
    requires s.windowStart == 5 && s.totalEdits > 0
    ensures WellFormed(CONFIG, STALE) && InReach(CONFIG, STALE, 11.0, 5)
    ensures LastWrites([Write.Write(p, s)], 5) == map[p := s]
    ensures var after := LastWrites([Write.Write(p, s)] + Tagged(p, PopSlices(CONFIG, STALE, 11.0)), 5);
      p in after && after[p].totalEdits == 0
  {
    hide Snapshot, LastWrites, PopSlices;
    AlignBounds(5, 10.0);
    assert 0 == Times(0, 5) && 5 == Times(1, 5) && 10 == Times(2, 5);
    AlignedApart(5, Align(5, 10.0), 10);
    AlignedApart(5, 10, Align(5, 10.0));
    OneWrite(s, p);
    StaleFlush(CONFIG, STALE, 11.0, [Write.Write(p, s)], p, 5);
  }

  lemma OneWrite(s: Slice, p: int)
    ensures LastWrites([Write.Write(p, s)], s.windowStart) == map[p := s]
  {
    var one := [Write.Write(p, s)];
    assert one[..|one| - 1] == [];
  }

  /** In event time the first flush after the last message is the last to do anything: the watermark stands still. */
  lemma IdleManagerIsSilent(cfg: Settings, source: string, m: Manager, now: real, later: real)
    requires WellFormed(cfg, m) && source != ARRIVAL
    ensures var flushed := StateAt(cfg, source, m, now);
      && WellFormed(cfg, flushed) && SlicesAt(cfg, source, flushed, later) == []
      && StateAt(cfg, source, flushed, later) == flushed
  {
    hide Snapshot, NewestClosed, WellFormed, Dropped;
    var clock := Clock(source, m, now);
    if clock.Some? {
      PopKeepsWellFormed(cfg, m, clock.value);
    }
  }
}

/** Which events a window holds: the manager groups its stream by window start. */
module Routing {
  import opened Alignment
  import opened Events
  import opened Tallies
  import opened Windows

  /** An event counted in the window at `start`. */
  datatype Routed = Routed(event: Event, start: int)

  /** The events routed to one window, in order. */
  function Bucket(routed: seq<Routed>, start: int): seq<Event> {
    if routed == [] then []
    else
      var last, prior := routed[|routed| - 1], Bucket(routed[..|routed| - 1], start);
      if last.start == start then prior + [last.event] else prior
  }

  /** The summary a window must have: the in-order fold of everything routed to it. */
  function Complete(cfg: Settings, routed: seq<Routed>, start: int): Slice
    requires cfg.size != 0
  {
    Snapshot(TallyOf(start, cfg.size, Bucket(routed, start)))
  }

  ghost predicate AllComplete(cfg: Settings, routed: seq<Routed>, slices: seq<Slice>)
    requires cfg.size != 0
  {
    forall i :: 0 <= i < |slices| ==> slices[i] == Complete(cfg, routed, slices[i].windowStart)
  }

  /** Every window newer than the last emission holds exactly the events routed to it. */
  ghost predicate Grouped(cfg: Settings, m: Manager, routed: seq<Routed>) {
    && WellFormed(cfg, m)
    && (m.emittedThrough.None? ==> routed == [])
    && (m.emittedThrough.Some? ==> forall k :: k > m.emittedThrough.value ==>
         && (k in m.windows <==> Bucket(routed, k) != [])
         && (k in m.windows ==> m.windows[k] == TallyOf(k, cfg.size, Bucket(routed, k))))
  }

  lemma BucketOfAppend(routed: seq<Routed>, r: Routed, start: int)
    ensures Bucket(routed + [r], start)
            == if r.start == start then Bucket(routed, start) + [r.event] else Bucket(routed, start)
  {
    assert (routed + [r])[..|routed|] == routed;
  }

  lemma {:induction false} BucketOfConcat(a: seq<Routed>, b: seq<Routed>, start: int)
    ensures Bucket(a + b, start) == Bucket(a, start) + Bucket(b, start)
  {
    if b == [] {
      assert a + b == a;
    } else {
      assert (a + b)[..|a + b| - 1] == a + b[..|b| - 1];
      BucketOfConcat(a, b[..|b| - 1], start);
      var last := b[|b| - 1];
      if last.start == start {
        assert Bucket(a, start) + (Bucket(b[..|b| - 1], start) + [last.event])
            == Bucket(a, start) + Bucket(b[..|b| - 1], start) + [last.event];
      }
    }
  }

  lemma {:induction false} BucketEmpty(routed: seq<Routed>, start: int)
    ensures Bucket(routed, start) == [] <==> forall i :: 0 <= i < |routed| ==> routed[i].start != start
  {
    if routed != [] {
      BucketEmpty(routed[..|routed| - 1], start);
    }
  }

  lemma TallyAppend(start: int, size: int, events: seq<Event>, e: Event)
    ensures TallyOf(start, size, events + [e]) == Count(TallyOf(start, size, events), e)
  {
    assert (events + [e])[..|events|] == events;
  }

  lemma AddGroups(cfg: Settings, m: Manager, routed: seq<Routed>, e: Event, ts: real)
    requires Grouped(cfg, m, routed) && Accepts(cfg, m, ts)
    ensures Grouped(cfg, AddTo(cfg, m, e, ts), routed + [Routed(e, Align(cfg.size, ts))])
  {
    hide Count, Aligned;
    var start := Align(cfg.size, ts);
    var now := routed + [Routed(e, start)];
    var after := AddTo(cfg, m, e, ts);
    AddKeepsWellFormed(cfg, m, e, ts);
    forall k | k > after.emittedThrough.value
      ensures (k in after.windows <==> Bucket(now, k) != [])
              && (k in after.windows ==> after.windows[k] == TallyOf(k, cfg.size, Bucket(now, k)))
    {
      BucketOfAppend(routed, Routed(e, start), k);
      if k == start {
        TallyAppend(k, cfg.size, Bucket(routed, k), e);
      }
    }
  }

  lemma PopGroups(cfg: Settings, m: Manager, routed: seq<Routed>, now: real)
    requires Grouped(cfg, m, routed) && cfg.maxGap >= 0
    ensures Grouped(cfg, PopState(cfg, m, now), routed)
    ensures AllComplete(cfg, routed, PopSlices(cfg, m, now))
  {
    hide Snapshot, Count;
    PopKeepsWellFormed(cfg, m, now);
    if Due(cfg, m, now) {
      SpanIsNatural(cfg);
      SlicesAreComplete(cfg, m, routed, EmitAfter(cfg, m, now), NewestClosed(cfg, now));
    }
  }

  lemma SpanIsNatural(cfg: Settings)
    requires cfg.size > 0 && cfg.maxGap >= 0
    ensures Span(cfg) >= 0
    ensures cfg.maxGap > 0 ==> Span(cfg) >= cfg.size
  {
    TimesMonotone(-1, cfg.maxGap, cfg.size);
    TimesMonotone(0, cfg.maxGap, cfg.size);
  }

  lemma {:induction false} SlicesAreComplete(cfg: Settings, m: Manager, routed: seq<Routed>, after: int, through: int)
    requires Grouped(cfg, m, routed) && m.emittedThrough.Some? && after >= m.emittedThrough.value
    ensures AllComplete(cfg, routed, Slices(cfg, m.windows, after, through))
    decreases through - after
  {
    hide Snapshot, Count;
    if through > after {
      SlicesAreComplete(cfg, m, routed, after, through - cfg.size);
      assert TallyAt(cfg, m.windows, through) == TallyOf(through, cfg.size, Bucket(routed, through));
      assert Snapshot(TallyAt(cfg, m.windows, through)) == Complete(cfg, routed, through);
    }
  }
}

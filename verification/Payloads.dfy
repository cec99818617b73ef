/** What windows count, read off the payload fields themselves. */
module Payloads {
  import opened Counters
  import opened Events
  import opened Merge
  import opened Partitioned
  import opened Shapes
  import opened Tallies

  // ------------------------------------------------------------------
  // Stamps
  // ------------------------------------------------------------------

  /** In event time a positive payload clock is the stamp, as it stands; every other message is stamped on arrival. */
  lemma StampIsPayloadOrArrival(e: Event, arrival: real, source: string)
    ensures source == "event" && e.timestamp.Some? && e.timestamp.value > 0.0 ==>
      EventTimestamp(e, arrival, source) == e.timestamp.value
    ensures source != "event" || e.timestamp.None? || e.timestamp.value <= 0.0 ==>
      EventTimestamp(e, arrival, source) == arrival
  {
  }

  // ------------------------------------------------------------------
  // Breakdowns
  // ------------------------------------------------------------------

  /** How many events carry exactly this wiki. */
  function WithWiki(events: seq<Event>, name: string): nat {
    if events == [] then 0
    else WithWiki(events[..|events| - 1], name) + if events[|events| - 1].wiki == Some(name) then 1 else 0
  }

  /** How many carry none, or an empty one. */
  function WithoutWiki(events: seq<Event>): nat {
    if events == [] then 0
    else WithoutWiki(events[..|events| - 1]) + if events[|events| - 1].wiki in {None, Some("")} then 1 else 0
  }

  function WithType(events: seq<Event>, name: string): nat {
    if events == [] then 0
    else WithType(events[..|events| - 1], name) + if events[|events| - 1].kind == Some(name) then 1 else 0
  }

  function WithoutType(events: seq<Event>): nat {
    if events == [] then 0
    else WithoutType(events[..|events| - 1]) + if events[|events| - 1].kind in {None, Some("")} then 1 else 0
  }

  function WithUser(events: seq<Event>, name: string): nat {
    if events == [] then 0
    else WithUser(events[..|events| - 1], name) + if events[|events| - 1].user == Some(name) then 1 else 0
  }

  function WithoutUser(events: seq<Event>): nat {
    if events == [] then 0
    else WithoutUser(events[..|events| - 1]) + if events[|events| - 1].user in {None, Some("")} then 1 else 0
  }

  /** Counting by label is counting by field, with the fieldless under the placeholder. */
  lemma {:induction false} OccurrencesByField(events: seq<Event>, name: string)
    requires name != ""
    ensures Occurrences(events, ByWiki, name)
         == WithWiki(events, name) + if name == "unknown" then WithoutWiki(events) else 0
    ensures Occurrences(events, ByType, name)
         == WithType(events, name) + if name == "unknown" then WithoutType(events) else 0
    ensures Occurrences(events, ByUser, name)
         == WithUser(events, name) + if name == "anonymous" then WithoutUser(events) else 0
  {
    if events != [] { OccurrencesByField(events[..|events| - 1], name); }
  }

  lemma {:induction false} NothingIsUnnamed(events: seq<Event>, d: Dimension)
    ensures Occurrences(events, d, "") == 0
  {
    if events != [] { NothingIsUnnamed(events[..|events| - 1], d); }
  }

  /**
   * A window counts each name of a wiki, type or user as often as its events carry it, counts the events that carry
   * none under "unknown" or "anonymous", and lists no empty name.
   */
  lemma WindowCountsThePayload(start: int, size: int, events: seq<Event>, name: string)
    ensures var t := TallyOf(start, size, events);
      && CountOf(t.wikis, "") == CountOf(t.types, "") == CountOf(t.users, "") == 0
      && (name != "" ==>
            && CountOf(t.wikis, name) == WithWiki(events, name) + (if name == "unknown" then WithoutWiki(events) else 0)
            && CountOf(t.types, name) == WithType(events, name) + (if name == "unknown" then WithoutType(events) else 0)
            && CountOf(t.users, name)
               == WithUser(events, name) + (if name == "anonymous" then WithoutUser(events) else 0))
  {
    hide TallyOf, Occurrences, CountOf, Sum, Distinct;
    TallyCountsTheStream(start, size, events, ByWiki);
    TallyCountsTheStream(start, size, events, ByType);
    TallyCountsTheStream(start, size, events, ByUser);
    NothingIsUnnamed(events, ByWiki);
    NothingIsUnnamed(events, ByType);
    NothingIsUnnamed(events, ByUser);
    if name != "" { OccurrencesByField(events, name); }
  }

  /** Every number of a slice, read off its events: bots and humans, each wiki, each type. */
  lemma SliceCountsThePayload(start: int, size: int, events: seq<Event>, name: string)
    requires size != 0
    ensures var s := Snapshot(TallyOf(start, size, events));
      && s.windowStart == start && s.windowEnd == start + size && s.totalEdits == |events|
      && s.bot == BotEdits(events) && s.human == |events| - BotEdits(events)
      && (name != "" ==>
            && CountOf(s.editsPerWiki, name)
               == WithWiki(events, name) + (if name == "unknown" then WithoutWiki(events) else 0)
            && CountOf(s.editTypes, name)
               == WithType(events, name) + (if name == "unknown" then WithoutType(events) else 0)
            && (name in Names(s.topEditors) ==>
                  CountOf(s.topEditors, name)
                  == WithUser(events, name) + (if name == "anonymous" then WithoutUser(events) else 0)))
  {
    hide TallyOf, Occurrences, CountOf, Names, SortBy, TopOf, Sum, Distinct, BotEdits;
    SliceIsExact(start, size, events, Bots);
    SliceIsExact(start, size, events, Humans);
    SliceIsExact(start, size, events, Named(ByWiki, name));
    SliceIsExact(start, size, events, Named(ByType, name));
    TallyCountsTheStream(start, size, events, ByUser);
    TopOfBound(TallyOf(start, size, events).users, name);
    if name != "" { OccurrencesByField(events, name); }
  }

  /** Every number of the merged summary and of the history point, read off the events of all partitions. */
  lemma SummaryCountsThePayload(start: int, size: int, parts: seq<seq<Event>>, name: string)
    requires size != 0 && parts != []
    ensures var slices, events := SlicesOf(start, size, parts), Joined(parts);
      MergeOf(slices).Some? && HistoryPoint(slices).Some?
      && var m, p := MergeOf(slices).value, HistoryPoint(slices).value;
      && m.windowStart == p.t == start && m.windowEnd == start + size && m.partitions == |parts|
      && m.totalEdits == p.total == |events| && p.rate * size as real == |events| as real
      && m.bot == p.bot == BotEdits(events) && m.human == |events| - BotEdits(events)
      && (name != "" ==>
            && CountOf(m.editsPerWiki, name)
               == WithWiki(events, name) + (if name == "unknown" then WithoutWiki(events) else 0)
            && CountOf(m.editTypes, name)
               == WithType(events, name) + (if name == "unknown" then WithoutType(events) else 0))
  {
    hide TallyOf, Occurrences, CountOf, Sum, MergeOf, HistoryPoint, BotEdits, Joined, SlicesOf, Snapshot, SortBy,
      WithWiki, WithoutWiki, WithType, WithoutType, AgreesWithOne;
    var slices, events := SlicesOf(start, size, parts), Joined(parts);
    PartitionedIsWhole(start, size, events, parts);
    HistoryAgreesWithMerge(slices);
    AgreedNumbers(MergeOf(slices).value, start, size, events, name);
    if name != "" { OccurrencesByField(events, name); }
  }

  lemma AgreedNumbers(m: Summary, start: int, size: int, events: seq<Event>, name: string)
    requires size != 0 && AgreesWithOne(m, start, size, events)
    ensures m.windowStart == start && m.windowEnd == start + size
    ensures m.totalEdits == |events| && m.editsPerSecond * size as real == |events| as real
    ensures m.bot == BotEdits(events) && m.human == |events| - BotEdits(events)
    ensures CountOf(m.editsPerWiki, name) == Occurrences(events, ByWiki, name)
    ensures CountOf(m.editTypes, name) == Occurrences(events, ByType, name)
  {
    hide TallyOf, Occurrences, CountOf, Sum, SortBy, Snapshot, BotEdits;
    SliceShape(TallyOf(start, size, events));
  }

  // ------------------------------------------------------------------
  // First-seen order
  // ------------------------------------------------------------------

  /** Some event carries `x` before any carries `y`. */
  ghost predicate SeenBefore(events: seq<Event>, d: Dimension, x: string, y: string) {
    exists k :: 0 <= k < |events| && Label(d, events[k]) == x
                && forall l :: 0 <= l <= k ==> Label(d, events[l]) != y
  }

  ghost predicate FirstSeenOrder(events: seq<Event>, d: Dimension, c: Counter) {
    forall i, j :: 0 <= i < j < |c| ==> SeenBefore(events, d, c[i].name, c[j].name)
  }

  /** A window's dictionary is in the order in which its names first occur. */
  lemma {:induction false} DictionaryIsFirstSeen(start: int, size: int, events: seq<Event>, d: Dimension)
    ensures FirstSeenOrder(events, d, CounterFor(TallyOf(start, size, events), d))
  {
    hide FirstSeenOrder, Label, Plus;
    if events == [] {
      NothingSeen(d);
    } else {
      var n := |events| - 1;
      var prior, name := CounterFor(TallyOf(start, size, events[..n]), d), Label(d, events[n]);
      DictionaryIsFirstSeen(start, size, events[..n], d);
      assert CounterFor(TallyOf(start, size, events), d) == Plus(prior, name, 1);
      forall x | x in Names(prior) && name !in Names(prior) ensures SeenBefore(events, d, x, name) {
        NewIsSeenLast(start, size, events, d, x, name);
      }
      CountingKeepsOrder(events, d, prior, name);
    }
  }

  lemma NothingSeen(d: Dimension)
    ensures FirstSeenOrder([], d, [])
  {
  }

  lemma CountingKeepsOrder(events: seq<Event>, d: Dimension, prior: Counter, name: string)
    requires events != [] && FirstSeenOrder(events[..|events| - 1], d, prior)
    requires forall x :: x in Names(prior) && name !in Names(prior) ==> SeenBefore(events, d, x, name)
    ensures FirstSeenOrder(events, d, Plus(prior, name, 1))
  {
    hide SeenBefore, Plus;
    var p := Plus(prior, name, 1);
    PlusKeepsPlaces(prior, name);
    forall i, j | 0 <= i < j < |p| ensures SeenBefore(events, d, p[i].name, p[j].name) {
      assert prior[i].name in Names(prior);
      if j < |prior| {
        assert SeenBefore(events[..|events| - 1], d, prior[i].name, prior[j].name);
        SeenEarlier(events, d, prior[i].name, prior[j].name);
      }
    }
  }

  lemma SeenEarlier(events: seq<Event>, d: Dimension, x: string, y: string)
    requires events != [] && SeenBefore(events[..|events| - 1], d, x, y)
    ensures SeenBefore(events, d, x, y)
  {
    hide Label;
    var n := |events| - 1;
    var k :| 0 <= k < n && Label(d, events[..n][k]) == x && forall l :: 0 <= l <= k ==> Label(d, events[..n][l]) != y;
    assert Label(d, events[k]) == x;
    forall l | 0 <= l <= k ensures Label(d, events[l]) != y {
      assert events[l] == events[..n][l];
    }
  }

  lemma {:induction false} OccursIff(events: seq<Event>, d: Dimension, name: string)
    ensures Occurrences(events, d, name) > 0 <==> exists k :: 0 <= k < |events| && Label(d, events[k]) == name
  {
    hide Label;
    if events != [] {
      var n := |events| - 1;
      OccursIff(events[..n], d, name);
      assert forall k :: 0 <= k < n ==> events[..n][k] == events[k];
    }
  }

  /** A name seen for the first time comes after every name listed so far. */
  lemma NewIsSeenLast(start: int, size: int, events: seq<Event>, d: Dimension, x: string, name: string)
    requires events != [] && Label(d, events[|events| - 1]) == name
    requires x in Names(CounterFor(TallyOf(start, size, events[..|events| - 1]), d))
    requires name !in Names(CounterFor(TallyOf(start, size, events[..|events| - 1]), d))
    ensures SeenBefore(events, d, x, name)
  {
    hide Label, TallyOf, Names, Occurrences;
    var prior := events[..|events| - 1];
    TallyNames(start, size, prior, d, x);
    TallyNames(start, size, prior, d, name);
    OccursIff(prior, d, x);
    OccursIff(prior, d, name);
    var k :| 0 <= k < |prior| && Label(d, prior[k]) == x;
    assert forall l :: 0 <= l <= k ==> events[l] == prior[l];
  }

  /** Counting leaves every name in its place and appends a new one. */
  lemma {:induction false} PlusKeepsPlaces(c: Counter, name: string)
    ensures var p := Plus(c, name, 1);
      && |c| <= |p| <= |c| + 1 && (forall i :: 0 <= i < |c| ==> p[i].name == c[i].name)
      && (|p| > |c| ==> p[|c|].name == name && name !in Names(c))
  {
    if c != [] && c[0].name != name {
      PlusKeepsPlaces(c[1..], name);
      NamesCons(c);
      assert Plus(c, name, 1)[1..] == Plus(c[1..], name, 1);
    }
  }
}

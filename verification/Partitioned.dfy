/** Splitting a window over partitions and merging its slices, against one window fed the whole stream. */
module Partitioned {
  import opened Counters
  import opened Events
  import opened Merge
  import opened Tallies

  /** The slices of one window whose events were split into streams. */
  function SlicesOf(start: int, size: int, parts: seq<seq<Event>>): (slices: seq<Slice>)
    requires size != 0
    ensures |slices| == |parts|
    ensures forall i :: 0 <= i < |parts| ==> slices[i] == Snapshot(TallyOf(start, size, parts[i]))
  {
    seq(|parts|, i requires 0 <= i < |parts| => Snapshot(TallyOf(start, size, parts[i])))
  }

  /** Each event of the stream is in exactly one part. */
  ghost predicate Splits(whole: seq<Event>, parts: seq<seq<Event>>) {
    multiset(whole) == multiset(Joined(parts))
  }

  /** What the events themselves say about a measure. */
  function TrueCount(events: seq<Event>, m: Measure): nat {
    match m
    case Total => |events|
    case Bots => BotEdits(events)
    case Humans => |events| - BotEdits(events)
    case Named(d, name) => Occurrences(events, d, name)
  }

  /** Every measure of a slice is exact, except its users' counts. */
  lemma SliceIsExact(start: int, size: int, events: seq<Event>, m: Measure)
    requires size != 0 && !(m.Named? && m.d == ByUser)
    ensures Measured(m, Snapshot(TallyOf(start, size, events))) == TrueCount(events, m)
  {
    hide SortBy;
    if m.Named? {
      TallyCountsTheStream(start, size, events, m.d);
      SortByKeepsCounts(ByCount, CounterFor(TallyOf(start, size, events), m.d));
    } else {
      TallyCountsTheStream(start, size, events, ByWiki);
    }
  }

  lemma {:induction false} TrueCountsAdd(start: int, size: int, parts: seq<seq<Event>>, m: Measure)
    requires size != 0 && !(m.Named? && m.d == ByUser)
    ensures SumOf(m, SlicesOf(start, size, parts)) == TrueCount(Joined(parts), m)
  {
    hide Snapshot, TallyOf, Occurrences, BotEdits, Measured;
    if parts == [] {
      NothingHappened(m);
    } else {
      var front, last := parts[..|parts| - 1], parts[|parts| - 1];
      TrueCountsAdd(start, size, front, m);
      assert SlicesOf(start, size, parts)[..|front|] == SlicesOf(start, size, front);
      SliceIsExact(start, size, last, m);
      BotEditsConcat(Joined(front), last);
      if m.Named? { OccurrencesConcat(Joined(front), last, m.d, m.name); }
    }
  }

  lemma NothingHappened(m: Measure)
    ensures TrueCount([], m) == 0
  {
  }

  lemma SlicesAreProper(start: int, size: int, parts: seq<seq<Event>>)
    requires size != 0
    ensures AllProper(SlicesOf(start, size, parts))
  {
    hide SortBy, TopOf;
    forall i | 0 <= i < |parts| ensures Proper(Snapshot(TallyOf(start, size, parts[i]))) {
      var t := TallyOf(start, size, parts[i]);
      TallyCountsTheStream(start, size, parts[i], ByWiki);
      TallyCountsTheStream(start, size, parts[i], ByType);
      TallyCountsTheStream(start, size, parts[i], ByUser);
      SortByKeepsCounts(ByCount, t.wikis);
      SortByKeepsCounts(ByCount, t.types);
      TopOfBound(t.users, "");
    }
  }

  /** The dimensions a slice lists in full. */
  predicate Full(d: Dimension) {
    d != ByUser
  }

  lemma ListedIffOccurs(start: int, size: int, events: seq<Event>, d: Dimension, name: string)
    requires size != 0 && Full(d)
    ensures name in Names(Listed(Snapshot(TallyOf(start, size, events)), d)) <==> Occurrences(events, d, name) > 0
  {
    hide SortBy, TopOf;
    TallyCountsTheStream(start, size, events, d);
    TallyNames(start, size, events, d, name);
    SortByKeepsCounts(ByCount, CounterFor(TallyOf(start, size, events), d));
  }

  lemma {:induction false} OccursInSomePart(parts: seq<seq<Event>>, d: Dimension, name: string)
    ensures Occurrences(Joined(parts), d, name) > 0 <==>
      exists i :: 0 <= i < |parts| && Occurrences(parts[i], d, name) > 0
  {
    if parts != [] {
      var front, last := parts[..|parts| - 1], parts[|parts| - 1];
      OccursInSomePart(front, d, name);
      OccurrencesConcat(Joined(front), last, d, name);
      assert forall i :: 0 <= i < |front| ==> front[i] == parts[i];
    }
  }

  /** Merging rebuilds the dictionary of the unsplit window, in its canonical order. */
  lemma BreakdownIsWhole(start: int, size: int, whole: seq<Event>, parts: seq<seq<Event>>, d: Dimension)
    requires size != 0 && Full(d) && Splits(whole, parts)
    ensures Ranked(SlicesOf(start, size, parts), d)
            == SortBy(ByCountThenName, CounterFor(TallyOf(start, size, whole), d))
  {
    hide SortBy, Snapshot, Combine, Occurrences, SumOf, Names, Listed, Plus, Joined, TallyOf, CountOf;
    var slices, c := SlicesOf(start, size, parts), CounterFor(TallyOf(start, size, whole), d);
    SlicesAreProper(start, size, parts);
    CombineSums(slices, d);
    TallyCountsTheStream(start, size, whole, d);
    forall n
      ensures CountOf(Combine(slices, d), n) == CountOf(c, n) && (n in Names(Combine(slices, d)) <==> n in Names(c))
    {
      TrueCountsAdd(start, size, parts, Named(d, n));
      CountingIgnoresOrder(whole, Joined(parts), d, n);
      TallyNames(start, size, whole, d, n);
      SomePartLists(start, size, parts, d, n);
    }
    SortIsCanonical(Combine(slices, d), c);
  }

  lemma SomePartLists(start: int, size: int, parts: seq<seq<Event>>, d: Dimension, n: string)
    requires size != 0 && Full(d)
    ensures (exists s :: s in SlicesOf(start, size, parts) && n in Names(Listed(s, d)))
            <==> Occurrences(Joined(parts), d, n) > 0
  {
    hide Snapshot, Occurrences, Names, Listed;
    OccursInSomePart(parts, d, n);
    var slices := SlicesOf(start, size, parts);
    forall i | 0 <= i < |parts| ensures n in Names(Listed(slices[i], d)) <==> Occurrences(parts[i], d, n) > 0 {
      ListedIffOccurs(start, size, parts[i], d, n);
    }
    if i :| 0 <= i < |parts| && Occurrences(parts[i], d, n) > 0 {
      assert slices[i] in slices && n in Names(Listed(slices[i], d));
    }
  }

  /** All slices of one window start with it. */
  lemma OneStart(start: int, size: int, parts: seq<seq<Event>>)
    requires size != 0 && parts != []
    ensures Earliest(SlicesOf(start, size, parts)) == start && WindowSize(SlicesOf(start, size, parts)[0]) == size
  {
    hide Snapshot;
  }

  /** The numbers of the merged summary are those of the unsplit window. */
  lemma NumbersAreWhole(start: int, size: int, whole: seq<Event>, parts: seq<seq<Event>>)
    requires size != 0 && Splits(whole, parts)
    ensures var slices, t := SlicesOf(start, size, parts), TallyOf(start, size, whole);
      && SumOf(Total, slices) == t.total == |whole| && SumOf(Bots, slices) == t.bots == BotEdits(whole)
      && SumOf(Humans, slices) == t.humans && t.bots + t.humans == t.total
  {
    hide Snapshot, TallyOf, SumOf, Occurrences, BotEdits, CountOf, Sum, Distinct;
    TrueCountsAdd(start, size, parts, Total);
    TrueCountsAdd(start, size, parts, Bots);
    TrueCountsAdd(start, size, parts, Humans);
    CountingIgnoresOrder(whole, Joined(parts), ByWiki, "");
    TallyCountsTheStream(start, size, whole, ByWiki);
  }

  /** A merged summary and one window fed the whole stream say the same, editors aside. */
  ghost predicate AgreesWithOne(m: Summary, start: int, size: int, whole: seq<Event>)
    requires size != 0
  {
    var t := TallyOf(start, size, whole);
    var one := Snapshot(t);
    && m.windowStart == one.windowStart && m.windowEnd == one.windowEnd
    && m.totalEdits == one.totalEdits == |whole| && m.editsPerSecond == one.editsPerSecond
    && m.bot == one.bot == BotEdits(whole) && m.human == one.human && m.bot + m.human == m.totalEdits
    && m.editsPerWiki == SortBy(ByCountThenName, t.wikis) && m.editTypes == SortBy(ByCountThenName, t.types)
    && (forall n :: CountOf(m.editsPerWiki, n) == CountOf(one.editsPerWiki, n) == Occurrences(whole, ByWiki, n))
    && (forall n :: CountOf(m.editTypes, n) == CountOf(one.editTypes, n) == Occurrences(whole, ByType, n))
    && Sum(m.editsPerWiki) == Sum(m.editTypes) == m.totalEdits
  }

  /**
   * However a window's events are spread over partitions, merging its slices gives what one window fed the whole
   * stream gives, down to the order of its dictionaries, and each breakdown accounts for every event.
   */
  lemma PartitionedIsWhole(start: int, size: int, whole: seq<Event>, parts: seq<seq<Event>>)
    requires size != 0 && parts != [] && Splits(whole, parts)
    ensures MergeOf(SlicesOf(start, size, parts)).Some?
    ensures AgreesWithOne(MergeOf(SlicesOf(start, size, parts)).value, start, size, whole)
    ensures MergeOf(SlicesOf(start, size, parts)).value.partitions == |parts|
  {
    hide SortBy, Ranked, Occurrences, SumOf, TopOf, TallyOf, BotEdits, Earliest, WindowSize, SlicesOf, Sum, CountOf,
      Distinct;
    OneStart(start, size, parts);
    NumbersAreWhole(start, size, whole, parts);
    BreakdownIsWhole(start, size, whole, parts, ByWiki);
    BreakdownIsWhole(start, size, whole, parts, ByType);
    TallyCountsTheStream(start, size, whole, ByWiki);
    TallyCountsTheStream(start, size, whole, ByType);
    var t := TallyOf(start, size, whole);
    SortByKeepsCounts(ByCount, t.wikis);
    SortByKeepsCounts(ByCount, t.types);
    SortByKeepsCounts(ByCountThenName, t.wikis);
    SortByKeepsCounts(ByCountThenName, t.types);
  }

  // ------------------------------------------------------------------
  // Top editors
  // ------------------------------------------------------------------

  /** One slice's shortfall for a user: nothing if listed, at most a sixth of the slice if not. */
  lemma SliceShortfall(start: int, size: int, events: seq<Event>, user: string)
    requires size != 0
    ensures var listed := CountOf(Snapshot(TallyOf(start, size, events)).topEditors, user);
      && listed <= Occurrences(events, ByUser, user)
      && (TOP_EDITORS + 1) * (Occurrences(events, ByUser, user) - listed) <= |events|
      && (listed == Occurrences(events, ByUser, user) <==>
            Occurrences(events, ByUser, user) == 0
            || user in Names(Snapshot(TallyOf(start, size, events)).topEditors))
  {
    hide SortBy, TopOf, Plus;
    TallyCountsTheStream(start, size, events, ByUser);
    TopOfBound(TallyOf(start, size, events).users, user);
  }

  /** Every slice with edits of the user lists the user. */
  ghost predicate ListedWherePresent(start: int, size: int, parts: seq<seq<Event>>, user: string)
    requires size != 0
  {
    forall i :: 0 <= i < |parts| && Occurrences(parts[i], ByUser, user) > 0 ==>
      user in Names(SlicesOf(start, size, parts)[i].topEditors)
  }

  /**
   * Before the final cut a user's merged count never exceeds the true one and falls short of it by at most a sixth
   * of all edits; it is exact if and only if every slice with edits of the user lists the user.
   */
  lemma {:induction false} MergedEditorBound(start: int, size: int, parts: seq<seq<Event>>, user: string)
    requires size != 0
    ensures var merged, truth := CountOf(Combine(SlicesOf(start, size, parts), ByUser), user),
                                 Occurrences(Joined(parts), ByUser, user);
      && merged <= truth && (TOP_EDITORS + 1) * (truth - merged) <= |Joined(parts)|
      && (merged == truth <==> ListedWherePresent(start, size, parts, user))
  {
    hide Snapshot, Occurrences, Combine, Names, CountOf, SlicesOf, ListedWherePresent;
    if parts == [] {
      NothingMerged(start, size, user);
    } else {
      var front, last := parts[..|parts| - 1], parts[|parts| - 1];
      MergedEditorBound(start, size, front, user);
      MergedOneMore(start, size, parts, user);
      SliceShortfall(start, size, last, user);
      OccurrencesConcat(Joined(front), last, ByUser, user);
      ListedSplits(start, size, parts, user);
    }
  }

  lemma NothingMerged(start: int, size: int, user: string)
    requires size != 0
    ensures CountOf(Combine(SlicesOf(start, size, []), ByUser), user) == 0 == Occurrences(Joined([]), ByUser, user)
    ensures ListedWherePresent(start, size, [], user) && Joined([]) == []
  {
  }

  lemma MergedOneMore(start: int, size: int, parts: seq<seq<Event>>, user: string)
    requires size != 0 && parts != []
    ensures var front, last := parts[..|parts| - 1], parts[|parts| - 1];
      CountOf(Combine(SlicesOf(start, size, parts), ByUser), user)
      == CountOf(Combine(SlicesOf(start, size, front), ByUser), user)
         + CountOf(Snapshot(TallyOf(start, size, last)).topEditors, user)
  {
    hide Snapshot, Combine, CountOf, Proper;
    var front, slices := parts[..|parts| - 1], SlicesOf(start, size, parts);
    SlicesAreProper(start, size, parts);
    SlicesAreProper(start, size, front);
    CombineSums(slices, ByUser);
    CombineSums(SlicesOf(start, size, front), ByUser);
    assert slices[..|front|] == SlicesOf(start, size, front);
  }

  lemma ListedSplits(start: int, size: int, parts: seq<seq<Event>>, user: string)
    requires size != 0 && parts != []
    ensures var front, last := parts[..|parts| - 1], parts[|parts| - 1];
      ListedWherePresent(start, size, parts, user) <==>
        ListedWherePresent(start, size, front, user)
        && (Occurrences(last, ByUser, user) > 0 ==>
              user in Names(Snapshot(TallyOf(start, size, last)).topEditors))
  {
    hide Snapshot, Occurrences, Names;
    var front := parts[..|parts| - 1];
    assert forall i :: 0 <= i < |front| ==> front[i] == parts[i];
  }

  /** A user outside the merged list has no larger merged count than any user in it. */
  lemma CutEditorsAreSmaller(slices: seq<Slice>, user: string, i: nat)
    requires AllProper(slices) && slices != [] && i < |MergeOf(slices).value.topEditors|
    requires user !in Names(MergeOf(slices).value.topEditors)
    ensures var listed := MergeOf(slices).value.topEditors[i];
      && CountOf(Combine(slices, ByUser), user) <= listed.count == CountOf(Combine(slices, ByUser), listed.name)
  {
    hide SortBy, Combine;
    var c := Combine(slices, ByUser);
    var s := SortBy(ByCountThenName, c);
    CombineSums(slices, ByUser);
    SortBySorted(ByCountThenName, c);
    SortByKeepsCounts(ByCountThenName, c);
    CountAt(s, i);
    if user in Names(s) {
      var j :| 0 <= j < |s| && s[j].name == user;
      assert j > i by {
        var top := MergeOf(slices).value.topEditors;
        assert forall k :: 0 <= k < |top| ==> top[k] == s[k] && top[k].name in Names(top);
      }
      CountAt(s, j);
      assert !Before(ByCountThenName, s[j], s[i]);
    } else {
      AbsentCountsNothing(s, user);
    }
  }

  /** So an editor missing from the merged list truly has at most a sixth of all edits more than any editor in it. */
  lemma MissedEditorBound(start: int, size: int, whole: seq<Event>, parts: seq<seq<Event>>, user: string, i: nat)
    requires size != 0 && parts != [] && Splits(whole, parts)
    requires i < |MergeOf(SlicesOf(start, size, parts)).value.topEditors|
    requires user !in Names(MergeOf(SlicesOf(start, size, parts)).value.topEditors)
    ensures var listed := MergeOf(SlicesOf(start, size, parts)).value.topEditors[i];
      (TOP_EDITORS + 1) * Occurrences(whole, ByUser, user)
      <= (TOP_EDITORS + 1) * Occurrences(whole, ByUser, listed.name) + |whole|
  {
    hide Snapshot, Occurrences, Combine, Ranked, SumOf, Earliest, SortBy;
    var slices := SlicesOf(start, size, parts);
    var listed := MergeOf(slices).value.topEditors[i];
    SlicesAreProper(start, size, parts);
    CutEditorsAreSmaller(slices, user, i);
    MergedEditorBound(start, size, parts, user);
    MergedEditorBound(start, size, parts, listed.name);
    CountingIgnoresOrder(whole, Joined(parts), ByUser, user);
    CountingIgnoresOrder(whole, Joined(parts), ByUser, listed.name);
  }

  // ------------------------------------------------------------------
  // When the merged list is exact
  // ------------------------------------------------------------------

  /** How many different users edited. */
  function Editors(start: int, size: int, events: seq<Event>): nat {
    |TallyOf(start, size, events).users|
  }

  /** A slice lists every user it counted if and only if there are no more than the cut keeps. */
  lemma ListsAllIff(start: int, size: int, events: seq<Event>)
    requires size != 0
    ensures (forall user :: Occurrences(events, ByUser, user) > 0 ==>
               user in Names(Snapshot(TallyOf(start, size, events)).topEditors))
            <==> Editors(start, size, events) <= TOP_EDITORS
  {
    hide SortBy, TallyOf, Occurrences, Names, CountOf;
    var users := TallyOf(start, size, events).users;
    TallyCountsTheStream(start, size, events, ByUser);
    SortByKeepsCounts(ByCount, users);
    SortBySorted(ByCount, users);
    forall user ensures user in Names(users) <==> Occurrences(events, ByUser, user) > 0 {
      TallyNames(start, size, events, ByUser, user);
    }
    TakesAllIff(SortBy(ByCount, users), TOP_EDITORS);
  }

  /** A cut drops a name if and only if it drops anything. */
  lemma TakesAllIff(c: Counter, n: nat)
    requires Distinct(c)
    ensures (forall name :: name in Names(c) ==> name in Names(Take(c, n))) <==> |c| <= n
  {
    if |c| > n {
      assert c[n].name in Names(c);
      assert forall i :: 0 <= i < n ==> Take(c, n)[i] == c[i];
      assert c[n].name !in Names(Take(c, n));
    }
  }

  /** Every user's merged count is exact if and only if no slice has more users than it lists. */
  lemma MergedCountsExactIff(start: int, size: int, parts: seq<seq<Event>>)
    requires size != 0
    ensures (forall user :: CountOf(Combine(SlicesOf(start, size, parts), ByUser), user)
                            == Occurrences(Joined(parts), ByUser, user))
            <==> forall i :: 0 <= i < |parts| ==> Editors(start, size, parts[i]) <= TOP_EDITORS
  {
    hide Snapshot, Occurrences, Combine, Names, CountOf, Joined, Editors, ListedWherePresent, SlicesOf;
    if forall i :: 0 <= i < |parts| ==> Editors(start, size, parts[i]) <= TOP_EDITORS {
      forall user
        ensures CountOf(Combine(SlicesOf(start, size, parts), ByUser), user) == Occurrences(Joined(parts), ByUser, user)
      {
        ShortSlicesList(start, size, parts, user);
        MergedEditorBound(start, size, parts, user);
      }
    } else {
      var i :| 0 <= i < |parts| && Editors(start, size, parts[i]) > TOP_EDITORS;
      var user := LongSliceCuts(start, size, parts, i);
      MergedEditorBound(start, size, parts, user);
    }
  }

  lemma ShortSlicesList(start: int, size: int, parts: seq<seq<Event>>, user: string)
    requires size != 0 && forall i :: 0 <= i < |parts| ==> Editors(start, size, parts[i]) <= TOP_EDITORS
    ensures ListedWherePresent(start, size, parts, user)
  {
    hide Snapshot, Occurrences, Names, Editors;
    forall i | 0 <= i < |parts| && Occurrences(parts[i], ByUser, user) > 0
      ensures user in Names(SlicesOf(start, size, parts)[i].topEditors)
    {
      ListsAllIff(start, size, parts[i]);
      assert Editors(start, size, parts[i]) <= TOP_EDITORS;
      assert SlicesOf(start, size, parts)[i] == Snapshot(TallyOf(start, size, parts[i]));
    }
  }

  lemma LongSliceCuts(start: int, size: int, parts: seq<seq<Event>>, i: nat) returns (user: string)
    requires size != 0 && i < |parts| && Editors(start, size, parts[i]) > TOP_EDITORS
    ensures !ListedWherePresent(start, size, parts, user)
  {
    hide Snapshot, Occurrences, Names, Editors;
    ListsAllIff(start, size, parts[i]);
    user :| Occurrences(parts[i], ByUser, user) > 0
            && user !in Names(Snapshot(TallyOf(start, size, parts[i])).topEditors);
    assert user !in Names(SlicesOf(start, size, parts)[i].topEditors);
  }

  /** A user cut from a slice's list has no more edits than any user in it. */
  lemma CutBelowListed(users: Counter, user: string, name: string)
    requires Distinct(users) && user !in Names(TopOf(users)) && name in Names(TopOf(users))
    ensures CountOf(users, user) <= CountOf(users, name)
  {
    hide SortBy, CountOf;
    var s, top := SortBy(ByCount, users), TopOf(users);
    SortBySorted(ByCount, users);
    SortByKeepsCounts(ByCount, users);
    var i :| 0 <= i < |top| && top[i].name == name;
    assert top[i] == s[i];
    CountAt(s, i);
    if user in Names(s) {
      var j :| 0 <= j < |s| && s[j].name == user;
      CountAt(s, j);
      assert forall k :: 0 <= k < |top| ==> top[k] == s[k] && top[k].name in Names(top);
      ByCountDescends(s, i, j);
    } else {
      AbsentCountsNothing(s, user);
    }
  }

  /** Merging one slice relists the slice's own top users. */
  lemma OneSliceCombines(s: Slice)
    requires Proper(s) && |s.topEditors| <= TOP_EDITORS
    ensures MergeOf([s]).Some?
    ensures var top := MergeOf([s]).value.topEditors;
      && Distinct(top) && Names(top) == Names(s.topEditors) && |top| == |s.topEditors|
      && forall n :: CountOf(top, n) == CountOf(s.topEditors, n)
  {
    hide SortBy, CountOf, AddAll;
    var one, c := [s], Combine([s], ByUser);
    assert one[..|one| - 1] == [] && Combine([], ByUser) == [] && Listed(s, ByUser) == s.topEditors;
    assert c == AddAll([], s.topEditors);
    NoNames();
    AddAllSums([], s.topEditors);
    SortByKeepsCounts(ByCountThenName, c);
    SortBySorted(ByCountThenName, c);
    NamesSize(c);
    NamesSize(s.topEditors);
  }

  lemma NoNames()
    ensures Names([]) == {} && Distinct([]) && forall n :: CountOf([], n) == 0
  {
  }

  /**
   * A single slice merges to a true top list: as many users as there are, up to the cut, each with the true count, and
   * nobody left out has more edits than anybody listed.
   */
  lemma SingleSliceIsExact(start: int, size: int, events: seq<Event>)
    requires size != 0
    ensures MergeOf(SlicesOf(start, size, [events])).Some?
    ensures var top := MergeOf(SlicesOf(start, size, [events])).value.topEditors;
      && |top| == (if Editors(start, size, events) < TOP_EDITORS then Editors(start, size, events) else TOP_EDITORS)
      && forall i :: 0 <= i < |top| ==>
           && top[i].count == Occurrences(events, ByUser, top[i].name)
           && forall user :: user !in Names(top) ==> Occurrences(events, ByUser, user) <= top[i].count
  {
    hide SortBy, Occurrences, CountOf, MergeOf, TallyOf;
    var users, s := TallyOf(start, size, events).users, Snapshot(TallyOf(start, size, events));
    TallyCountsTheStream(start, size, events, ByUser);
    SlicesAreProper(start, size, [events]);
    assert SlicesOf(start, size, [events]) == [s] && s in [s];
    SortBySorted(ByCount, users);
    OneSliceCombines(s);
    var top := MergeOf([s]).value.topEditors;
    forall i | 0 <= i < |top|
      ensures top[i].count == Occurrences(events, ByUser, top[i].name)
      ensures forall user :: user !in Names(top) ==> Occurrences(events, ByUser, user) <= top[i].count
    {
      CountAt(top, i);
      TopOfBound(users, top[i].name);
      assert top[i].name in Names(top);
      forall user | user !in Names(top) { CutBelowListed(users, user, top[i].name); }
    }
  }

  /**
   * If no slice has more users than it lists, the final list is a true top list: every count in it is true, and no user
   * missing from it has more edits than any user in it.
   */
  lemma ShortSlicesGiveTrueList(start: int, size: int, whole: seq<Event>, parts: seq<seq<Event>>)
    requires size != 0 && parts != [] && Splits(whole, parts)
    requires forall i :: 0 <= i < |parts| ==> Editors(start, size, parts[i]) <= TOP_EDITORS
    ensures MergeOf(SlicesOf(start, size, parts)).Some?
    ensures var top := MergeOf(SlicesOf(start, size, parts)).value.topEditors;
      forall i :: 0 <= i < |top| ==>
        && top[i].count == Occurrences(whole, ByUser, top[i].name)
        && forall user :: user !in Names(top) ==> Occurrences(whole, ByUser, user) <= top[i].count
  {
    hide Snapshot, Occurrences, Combine, Names, CountOf, Joined, Editors, SlicesOf, Ranked, SumOf, Earliest;
    var slices := SlicesOf(start, size, parts);
    MergedCountsExactIff(start, size, parts);
    SlicesAreProper(start, size, parts);
    var top := MergeOf(slices).value.topEditors;
    forall user ensures CountOf(Combine(slices, ByUser), user) == Occurrences(whole, ByUser, user) {
      CountingIgnoresOrder(whole, Joined(parts), ByUser, user);
    }
    forall i | 0 <= i < |top|
      ensures top[i].count == Occurrences(whole, ByUser, top[i].name)
      ensures forall user :: user !in Names(top) ==> Occurrences(whole, ByUser, user) <= top[i].count
    {
      ListedCounts(slices, i);
      forall user | user !in Names(top) { CutEditorsAreSmaller(slices, user, i); }
    }
  }

  lemma ListedCounts(slices: seq<Slice>, i: nat)
    requires AllProper(slices) && slices != [] && i < |MergeOf(slices).value.topEditors|
    ensures var listed := MergeOf(slices).value.topEditors[i];
      listed.count == CountOf(Combine(slices, ByUser), listed.name)
  {
    hide SortBy, Combine, CountOf;
    var c := Combine(slices, ByUser);
    CombineSums(slices, ByUser);
    SortBySorted(ByCountThenName, c);
    SortByKeepsCounts(ByCountThenName, c);
    CountAt(SortBy(ByCountThenName, c), i);
  }
}

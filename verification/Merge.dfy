/** Recombining the per-partition slices of one window. */
module Merge {
  import opened Counters
  import opened Events
  import opened Sets
  import opened Tallies

  /** One window over all its partitions. */
  datatype Summary = Summary(
    windowStart: int, windowEnd: int, totalEdits: nat, editsPerSecond: real, editsPerWiki: Counter,
    bot: nat, human: nat, editTypes: Counter, topEditors: Counter, partitions: nat)

  /** The compact record a chart needs. */
  datatype Point = Point(t: int, total: nat, rate: real, bot: nat)

  function WindowSize(s: Slice): int {
    s.windowEnd - s.windowStart
  }

  /** A slice's list along one dimension; of its users it only has the top. */
  function Listed(s: Slice, d: Dimension): Counter {
    match d
    case ByWiki => s.editsPerWiki
    case ByType => s.editTypes
    case ByUser => s.topEditors
  }

  /** The quantities a merge sums. */
  datatype Measure = Total | Bots | Humans | Named(d: Dimension, name: string)

  function Measured(m: Measure, s: Slice): nat {
    match m
    case Total => s.totalEdits
    case Bots => s.bot
    case Humans => s.human
    case Named(d, name) => CountOf(Listed(s, d), name)
  }

  function SumOf(m: Measure, slices: seq<Slice>): nat {
    if slices == [] then 0 else SumOf(m, slices[..|slices| - 1]) + Measured(m, slices[|slices| - 1])
  }

  function Earliest(slices: seq<Slice>): (start: int)
    requires slices != []
    ensures forall s :: s in slices ==> start <= s.windowStart
    ensures exists s :: s in slices && s.windowStart == start
  {
    var last := slices[|slices| - 1].windowStart;
    if |slices| == 1 then last
    else
      var prior := Earliest(slices[..|slices| - 1]);
      if last < prior then last else prior
  }

  function AddAll(c: Counter, entries: Counter): Counter
    decreases entries
  {
    if entries == [] then c else AddAll(Plus(c, entries[0].name, entries[0].count), entries[1..])
  }

  /** The accumulated dictionary along one dimension. */
  function Combine(slices: seq<Slice>, d: Dimension): Counter {
    if slices == [] then []
    else AddAll(Combine(slices[..|slices| - 1], d), Listed(slices[|slices| - 1], d))
  }

  function Rate(total: nat, size: int): real {
    if size == 0 then 0.0 else total as real / size as real
  }

  function Ranked(slices: seq<Slice>, d: Dimension): Counter {
    SortBy(ByCountThenName, Combine(slices, d))
  }

  /** What `merge_partials` computes; nothing for no slices. */
  function MergeOf(slices: seq<Slice>): Option<Summary> {
    if slices == [] then None
    else
      var start, size, total := Earliest(slices), WindowSize(slices[0]), SumOf(Total, slices);
      Some(Summary(start, start + size, total, Rate(total, size), Ranked(slices, ByWiki), SumOf(Bots, slices),
                   SumOf(Humans, slices), Ranked(slices, ByType), Take(Ranked(slices, ByUser), TOP_EDITORS), |slices|))
  }

  /** Python's `sum`. */
  function Added(values: seq<nat>): nat {
    if values == [] then 0 else values[0] + Added(values[1..])
  }

  /** One quantity of every slice. */
  function Gathered(m: Measure, slices: seq<Slice>): seq<nat> {
    seq(|slices|, i requires 0 <= i < |slices| => Measured(m, slices[i]))
  }

  /** `history_point`: the sums a chart needs, without the dictionaries. */
  function HistoryPoint(slices: seq<Slice>): Option<Point> {
    if slices == [] then None
    else
      var total := Added(Gathered(Total, slices));
      Some(Point(Earliest(slices), total, Rate(total, WindowSize(slices[0])), Added(Gathered(Bots, slices))))
  }

  // ------------------------------------------------------------------
  // The merge as written
  // ------------------------------------------------------------------

  method Accumulate(c: Counter, entries: Counter) returns (r: Counter)
    ensures r == AddAll(c, entries)
  {
    r := c;
    var i := 0;
    while i < |entries|
      invariant 0 <= i <= |entries| && AddAll(r, entries[i..]) == AddAll(c, entries)
    {
      assert entries[i..][1..] == entries[i + 1..];
      r := Plus(r, entries[i].name, entries[i].count);
      i := i + 1;
    }
  }

  /** The merge's running sums and dictionaries. */
  datatype Running = Running(total: nat, bots: nat, humans: nat, wikis: Counter, types: Counter, users: Counter)

  function RunningOf(slices: seq<Slice>): Running {
    Running(SumOf(Total, slices), SumOf(Bots, slices), SumOf(Humans, slices), Combine(slices, ByWiki),
            Combine(slices, ByType), Combine(slices, ByUser))
  }

  /** One turn of the loop over the slices. */
  method AddSlice(t: Running, partial: Slice, ghost before: seq<Slice>) returns (r: Running)
    requires t == RunningOf(before)
    ensures r == RunningOf(before + [partial])
  {
    hide AddAll;
    var wikis := Accumulate(t.wikis, partial.editsPerWiki);
    var types := Accumulate(t.types, partial.editTypes);
    var users := Accumulate(t.users, partial.topEditors);
    r := Running(t.total + partial.totalEdits, t.bots + partial.bot, t.humans + partial.human, wikis, types, users);
    assert (before + [partial])[..|before|] == before;
  }

  method MergePartials(partials: seq<Slice>) returns (r: Option<Summary>)
    ensures r == MergeOf(partials)
  {
    hide SumOf, Combine, SortBy, Take, Rate, Earliest;
    if |partials| == 0 {
      return None;
    }
    var start := Earliest(partials);
    var size := WindowSize(partials[0]);
    var t := Running(0, 0, 0, [], [], []);
    NothingYet();
    var i := 0;
    while i < |partials|
      invariant 0 <= i <= |partials| && t == RunningOf(partials[..i])
    {
      assert partials[..i + 1] == partials[..i] + [partials[i]];
      t := AddSlice(t, partials[i], partials[..i]);
      i := i + 1;
    }
    assert partials[..i] == partials;
    r := Some(Summary(start, start + size, t.total, Rate(t.total, size), SortBy(ByCountThenName, t.wikis),
                      t.bots, t.humans, SortBy(ByCountThenName, t.types),
                      Take(SortBy(ByCountThenName, t.users), TOP_EDITORS), |partials|));
  }

  lemma NothingYet()
    ensures RunningOf([]) == Running(0, 0, 0, [], [], [])
  {
  }

  // ------------------------------------------------------------------
  // What accumulating computes
  // ------------------------------------------------------------------

  lemma {:induction false} AddAllSums(c: Counter, entries: Counter)
    requires Distinct(c) && Distinct(entries)
    ensures Distinct(AddAll(c, entries)) && Names(AddAll(c, entries)) == Names(c) + Names(entries)
    ensures forall n :: CountOf(AddAll(c, entries), n) == CountOf(c, n) + CountOf(entries, n)
    decreases entries
  {
    if entries != [] {
      var e := entries[0];
      PlusDistinct(c, e.name, e.count);
      PlusNames(c, e.name, e.count);
      DistinctCons(entries);
      NamesCons(entries);
      AddAllSums(Plus(c, e.name, e.count), entries[1..]);
      AbsentCountsNothing(entries[1..], e.name);
      forall n ensures CountOf(AddAll(c, entries), n) == CountOf(c, n) + CountOf(entries, n) {
        PlusCounts(c, e.name, e.count, n);
      }
    }
  }

  /** The lists of a slice are dictionaries. */
  ghost predicate Proper(s: Slice) {
    Distinct(s.editsPerWiki) && Distinct(s.editTypes) && Distinct(s.topEditors)
  }

  ghost predicate AllProper(slices: seq<Slice>) {
    forall s :: s in slices ==> Proper(s)
  }

  /** The merged dictionary lists what some slice lists, and its counts are the sums. */
  lemma {:induction false} CombineSums(slices: seq<Slice>, d: Dimension)
    requires AllProper(slices)
    ensures Distinct(Combine(slices, d))
    ensures forall n :: CountOf(Combine(slices, d), n) == SumOf(Named(d, n), slices)
    ensures forall n :: n in Names(Combine(slices, d)) <==> exists s :: s in slices && n in Names(Listed(s, d))
  {
    if slices != [] {
      var prior, last := slices[..|slices| - 1], slices[|slices| - 1];
      assert slices == prior + [last];
      CombineSums(prior, d);
      assert last in slices && Proper(last);
      AddAllSums(Combine(prior, d), Listed(last, d));
    }
  }

  lemma {:induction false} SumOfConcat(m: Measure, a: seq<Slice>, b: seq<Slice>)
    ensures SumOf(m, a + b) == SumOf(m, a) + SumOf(m, b)
  {
    if b == [] {
      assert a + b == a;
    } else {
      assert (a + b)[..|a + b| - 1] == a + b[..|b| - 1];
      SumOfConcat(m, a, b[..|b| - 1]);
    }
  }

  lemma {:induction false} SumOfPermutes(m: Measure, a: seq<Slice>, b: seq<Slice>)
    requires multiset(a) == multiset(b)
    ensures SumOf(m, a) == SumOf(m, b) && |a| == |b|
  {
    hide Measured;
    assert |multiset(a)| == |multiset(b)|;
    if a != [] {
      var i := Extract(a, b);
      var left, right := b[..i], b[i + 1..];
      SumOfPermutes(m, a[..|a| - 1], left + right);
      SumOfConcat(m, left, right);
      SumOfConcat(m, left, [b[i]]);
      SumOfConcat(m, left + [b[i]], right);
      assert SumOf(m, [b[i]]) == Measured(m, b[i]) by { assert [b[i]][..0] == []; }
    }
  }

  // ------------------------------------------------------------------
  // The merge is canonical
  // ------------------------------------------------------------------

  lemma RankedPermutes(a: seq<Slice>, b: seq<Slice>, d: Dimension)
    requires AllProper(a) && multiset(a) == multiset(b)
    ensures Ranked(a, d) == Ranked(b, d)
  {
    SameMembers(a, b);
    CombineSums(a, d);
    CombineSums(b, d);
    forall n ensures CountOf(Combine(a, d), n) == CountOf(Combine(b, d), n) {
      SumOfPermutes(Named(d, n), a, b);
    }
    SortIsCanonical(Combine(a, d), Combine(b, d));
  }

  lemma SameMembers(a: seq<Slice>, b: seq<Slice>)
    requires multiset(a) == multiset(b)
    ensures forall s :: s in a <==> s in b
  {
    forall s ensures s in a <==> s in b {
      assert s in a <==> s in multiset(a);
      assert s in b <==> s in multiset(b);
    }
  }

  /**
   * Reordering the slices changes nothing, ordered lists included, exactly when the slice read first spans the same
   * time; so the result is canonical for slices of one window size.
   */
  lemma MergeIsCanonical(a: seq<Slice>, b: seq<Slice>)
    requires AllProper(a) && multiset(a) == multiset(b)
    ensures MergeOf(a) == MergeOf(b) <==> a == [] || b == [] || WindowSize(a[0]) == WindowSize(b[0])
  {
    hide Ranked, SumOf;
    SumOfPermutes(Total, a, b);
    SumOfPermutes(Bots, a, b);
    SumOfPermutes(Humans, a, b);
    RankedPermutes(a, b, ByWiki);
    RankedPermutes(a, b, ByType);
    RankedPermutes(a, b, ByUser);
    SameMembers(a, b);
  }

  lemma {:induction false} AddedSnoc(values: seq<nat>, x: nat)
    ensures Added(values + [x]) == Added(values) + x
  {
    if values == [] {
      assert [x][1..] == [];
    } else {
      assert (values + [x])[1..] == values[1..] + [x];
      AddedSnoc(values[1..], x);
    }
  }

  /** Summing a comprehension is what the merge's loop accumulates. */
  lemma {:induction false} GatheredSums(m: Measure, slices: seq<Slice>)
    ensures Added(Gathered(m, slices)) == SumOf(m, slices)
  {
    hide Measured;
    if slices != [] {
      var front, last := slices[..|slices| - 1], slices[|slices| - 1];
      GatheredSums(m, front);
      AddedSnoc(Gathered(m, front), Measured(m, last));
      assert Gathered(m, slices) == Gathered(m, front) + [Measured(m, last)];
    }
  }

  /** The chart's record is the merged summary, projected. */
  lemma HistoryAgreesWithMerge(slices: seq<Slice>)
    ensures HistoryPoint(slices).Some? <==> MergeOf(slices).Some?
    ensures MergeOf(slices).Some? ==>
      var m := MergeOf(slices).value;
      HistoryPoint(slices).value == Point(m.windowStart, m.totalEdits, m.editsPerSecond, m.bot)
  {
    hide SumOf, Added, Gathered, Ranked, Earliest, Rate;
    GatheredSums(Total, slices);
    GatheredSums(Bots, slices);
  }
}

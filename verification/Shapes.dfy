/** The size and the order of the lists in slices and summaries, and their rates. */
module Shapes {
  import opened Counters
  import opened Events
  import opened Merge
  import opened Tallies

  // ------------------------------------------------------------------
  // Summaries
  // ------------------------------------------------------------------

  /** A slice lists five editors, or all if there are fewer, and its rate times its size is its total. */
  lemma SliceShape(t: Tally)
    requires t.size != 0
    ensures |Snapshot(t).topEditors| == if |t.users| < 5 then |t.users| else 5
    ensures Snapshot(t).editsPerSecond * t.size as real == t.total as real
  {
    hide SortBy;
    SortBySorted(ByCount, t.users);
    RateTimesSize(t.total, t.size);
  }

  lemma RateTimesSize(total: nat, size: int)
    requires size != 0
    ensures total as real / size as real * size as real == total as real
  {
  }

  /** The users some slice lists. */
  ghost function ListedUsers(slices: seq<Slice>): set<string> {
    set s, i | s in slices && 0 <= i < |s.topEditors| :: s.topEditors[i].name
  }

  lemma ListedUsersAre(slices: seq<Slice>, name: string)
    ensures name in ListedUsers(slices) <==> exists s :: s in slices && name in Names(Listed(s, ByUser))
  {
    if name in ListedUsers(slices) {
      var s, i :| s in slices && 0 <= i < |s.topEditors| && s.topEditors[i].name == name;
      assert name in Names(Listed(s, ByUser));
    }
    if s :| s in slices && name in Names(Listed(s, ByUser)) {
      var i :| 0 <= i < |s.topEditors| && s.topEditors[i].name == name;
    }
  }

  /**
   * A merged summary lists five editors, or all that some slice lists if those are fewer, however many slices there
   * are; its rate times the window size is its total, and is zero for a window without extent.
   */
  lemma SummaryShape(slices: seq<Slice>)
    requires AllProper(slices) && slices != []
    ensures var m, size := MergeOf(slices).value, slices[0].windowEnd - slices[0].windowStart;
      && |m.topEditors| == (if |ListedUsers(slices)| < 5 then |ListedUsers(slices)| else 5)
      && m.editsPerSecond * size as real == (if size == 0 then 0.0 else m.totalEdits as real)
      && (size == 0 ==> m.editsPerSecond == 0.0)
  {
    hide SortBy, Combine, SumOf, Earliest, CountOf;
    var c := Combine(slices, ByUser);
    CombineSums(slices, ByUser);
    SortBySorted(ByCountThenName, c);
    NamesSize(c);
    forall name ensures name in Names(c) <==> name in ListedUsers(slices) {
      ListedUsersAre(slices, name);
    }
    assert Names(c) == ListedUsers(slices);
    if WindowSize(slices[0]) != 0 { RateTimesSize(SumOf(Total, slices), WindowSize(slices[0])); }
  }

  // ------------------------------------------------------------------
  // The order of lists
  // ------------------------------------------------------------------

  /** One name is a proper prefix of the other, or the first character in which they differ decides. */
  ghost predicate Lexicographic(a: string, b: string) {
    || (|a| < |b| && a == b[..|a|])
    || exists k :: 0 <= k < |a| && k < |b| && a[..k] == b[..k] && a[k] < b[k]
  }

  lemma {:induction false} NameLessIsLexicographic(a: string, b: string)
    ensures NameLess(a, b) <==> Lexicographic(a, b)
  {
    if a != [] && b != [] && a[0] == b[0] {
      NameLessIsLexicographic(a[1..], b[1..]);
      if Lexicographic(a, b) { LexicographicTail(a, b); }
      if Lexicographic(a[1..], b[1..]) { LexicographicCons(a, b); }
    } else if a != [] && b != [] {
      assert a[..0] == b[..0];
    }
  }

  lemma LexicographicTail(a: string, b: string)
    requires a != [] && b != [] && a[0] == b[0] && Lexicographic(a, b)
    ensures Lexicographic(a[1..], b[1..])
  {
    if |a| < |b| && a == b[..|a|] {
      assert a[1..] == b[1..][..|a[1..]|];
    } else {
      var k :| 0 <= k < |a| && k < |b| && a[..k] == b[..k] && a[k] < b[k];
      assert k > 0;
      assert a[1..][..k - 1] == a[..k][1..] && b[1..][..k - 1] == b[..k][1..];
      assert a[1..][k - 1] == a[k] && b[1..][k - 1] == b[k];
    }
  }

  lemma LexicographicCons(a: string, b: string)
    requires a != [] && b != [] && a[0] == b[0] && Lexicographic(a[1..], b[1..])
    ensures Lexicographic(a, b)
  {
    var x, y := a[1..], b[1..];
    if |x| < |y| && x == y[..|x|] {
      assert a == [a[0]] + x && b[..|a|] == [b[0]] + y[..|x|];
    } else {
      var k :| 0 <= k < |x| && k < |y| && x[..k] == y[..k] && x[k] < y[k];
      assert a[..k + 1] == [a[0]] + x[..k] && b[..k + 1] == [b[0]] + y[..k];
      assert a[k + 1] == x[k] && b[k + 1] == y[k];
    }
  }

  /** Larger counts come first. */
  ghost predicate Descending(c: Counter) {
    forall i, j :: 0 <= i < j < |c| ==> c[i].count >= c[j].count
  }

  /** Larger counts come first, and of equal ones the lexicographically smaller name. */
  ghost predicate RankedByName(c: Counter) {
    forall i, j :: 0 <= i < j < |c| ==>
      c[i].count > c[j].count || (c[i].count == c[j].count && Lexicographic(c[i].name, c[j].name))
  }

  /** A slice lists larger counts first. */
  lemma SliceListsDescend(t: Tally)
    requires t.size != 0
    ensures Descending(Snapshot(t).editsPerWiki) && Descending(Snapshot(t).editTypes)
    ensures Descending(Snapshot(t).topEditors)
  {
    hide SortBy;
    SortBySorted(ByCount, t.wikis);
    SortBySorted(ByCount, t.types);
    SortBySorted(ByCount, t.users);
  }

  lemma RankedIsByName(c: Counter)
    requires Distinct(c)
    ensures RankedByName(SortBy(ByCountThenName, c))
  {
    hide SortBy, CountOf, NameLess, Lexicographic;
    var s := SortBy(ByCountThenName, c);
    SortBySorted(ByCountThenName, c);
    SortByKeepsCounts(ByCountThenName, c);
    forall i, j | 0 <= i < j < |s|
      ensures s[i].count > s[j].count || (s[i].count == s[j].count && Lexicographic(s[i].name, s[j].name))
    {
      assert !Before(ByCountThenName, s[j], s[i]) && s[i].name != s[j].name;
      NameOrder(s[i].name, s[j].name);
      NameLessIsLexicographic(s[i].name, s[j].name);
    }
  }

  /** The lists of a merged summary run from the largest count down, and by name among equals. */
  lemma SummaryListsAreRanked(slices: seq<Slice>)
    requires AllProper(slices) && slices != []
    ensures var m := MergeOf(slices).value;
      RankedByName(m.editsPerWiki) && RankedByName(m.editTypes) && RankedByName(m.topEditors)
  {
    hide SortBy, Combine, SumOf, Earliest, CountOf, Lexicographic;
    CombineSums(slices, ByWiki);
    CombineSums(slices, ByType);
    CombineSums(slices, ByUser);
    RankedIsByName(Combine(slices, ByWiki));
    RankedIsByName(Combine(slices, ByType));
    RankedIsByName(Combine(slices, ByUser));
  }
}

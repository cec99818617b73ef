/** When a summary depends only on which events a window holds, and when on the order they came in. */
module Determinism {
  import opened Counters
  import opened Events
  import opened Sets
  import opened Tallies

  /** How many names have a larger count. */
  function Greater(c: Counter, n: nat): nat {
    if c == [] then 0 else (if c[0].count > n then 1 else 0) + Greater(c[1..], n)
  }

  lemma {:induction false} GreaterPermutes(c: Counter, d: Counter, n: nat)
    requires multiset(c) == multiset(d)
    ensures Greater(c, n) == Greater(d, n)
    decreases |c|
  {
    assert |multiset(c)| == |multiset(d)|;
    if c != [] {
      var i := Extract(c, d);
      var front, last, left, right := c[..|c| - 1], [c[|c| - 1]], d[..i], d[i + 1..];
      GreaterPermutes(front, left + right, n);
      GreaterConcat(front, last, n);
      GreaterConcat(left, right, n);
      GreaterConcat(left, last, n);
      GreaterConcat(left + last, right, n);
      assert front + last == c;
    }
  }

  lemma {:induction false} GreaterConcat(c: Counter, d: Counter, n: nat)
    ensures Greater(c + d, n) == Greater(c, n) + Greater(d, n)
  {
    if c == [] {
      assert c + d == d;
    } else {
      assert (c + d)[1..] == c[1..] + d;
      GreaterConcat(c[1..], d, n);
    }
  }

  /** In a ranked list exactly the first entries have larger counts. */
  lemma {:induction false} GreaterIsPrefix(s: Counter, n: nat)
    requires Sorted(ByCount, s)
    ensures Greater(s, n) <= |s|
    ensures forall i :: 0 <= i < |s| ==> (s[i].count > n <==> i < Greater(s, n))
  {
    if s != [] {
      assert s == [s[0]] + s[1..];
      SortedCons(ByCount, s[0], s[1..]);
      GreaterIsPrefix(s[1..], n);
      forall i | 0 <= i < |s| ensures s[i].count > n <==> i < Greater(s, n) {
        ByCountDescends(s, 0, i);
        if i > 0 {
          assert s[1..][i - 1] == s[i];
        } else if s[0].count <= n && |s| > 1 {
          assert !(s[1..][0].count > n);
        }
      }
    }
  }

  // ------------------------------------------------------------------
  // Lists cut after `cut` entries
  // ------------------------------------------------------------------

  function Cut(c: Counter, cut: nat): Counter {
    Take(SortBy(ByCount, c), cut)
  }

  /** Two names share a count and at least one of them is listed. */
  ghost predicate VisibleTie(c: Counter, cut: nat) {
    var s := SortBy(ByCount, c);
    exists i, j :: 0 <= i < j < |s| && i < cut && s[i].count == s[j].count
  }

  /** Without a visible tie, the list depends on the counts alone. */
  lemma NoTieOneList(c: Counter, d: Counter, cut: nat)
    requires multiset(c) == multiset(d) && !VisibleTie(c, cut)
    ensures Cut(c, cut) == Cut(d, cut)
  {
    hide SortBy;
    SortBySorted(ByCount, c);
    SortBySorted(ByCount, d);
    SamePrefix(SortBy(ByCount, c), SortBy(ByCount, d), cut);
  }

  lemma SamePrefix(s: Counter, t: Counter, cut: nat)
    requires Sorted(ByCount, s) && Sorted(ByCount, t) && multiset(s) == multiset(t)
    requires forall i, j :: 0 <= i < j < |s| && i < cut ==> s[i].count != s[j].count
    ensures Take(s, cut) == Take(t, cut)
  {
    assert |multiset(s)| == |multiset(t)|;
    forall i | 0 <= i < |s| && i < cut ensures s[i] == t[i] {
      hide Sorted;
      assert s[i] in multiset(s);
      var k :| 0 <= k < |t| && t[k] == s[i];
      SameRank(s, t, i, k);
    }
  }

  /** An entry tied with none has the same rank in every ranking. */
  lemma SameRank(s: Counter, t: Counter, i: nat, k: nat)
    requires Sorted(ByCount, s) && Sorted(ByCount, t) && multiset(s) == multiset(t)
    requires i < |s| && k < |t| && t[k] == s[i]
    requires forall j :: i < j < |s| ==> s[i].count != s[j].count
    ensures i == k || exists j :: 0 <= j < i && s[j].count == s[i].count
  {
    var n := s[i].count;
    GreaterPermutes(s, t, n);
    GreaterIsPrefix(s, n);
    GreaterIsPrefix(t, n);
    var g := Greater(s, n);
    if g < i {
      ByCountDescends(s, g, i);
    } else if g < k {
      ByCountDescends(t, g, k);
      TwiceInOneIsTwiceInTheOther(t, s, g, k);
    }
  }

  /** Two entries with one count in `t` are two in any permutation of it. */
  lemma TwiceInOneIsTwiceInTheOther(t: Counter, s: Counter, i: nat, k: nat)
    requires multiset(t) == multiset(s) && i < k < |t| && t[i].count == t[k].count && Sorted(ByCount, s)
    ensures Greater(s, t[k].count) + 1 < |s|
    ensures s[Greater(s, t[k].count)].count == s[Greater(s, t[k].count) + 1].count == t[k].count
  {
    var n := t[k].count;
    AtLeastCounts(t, s, n);
    GreaterIsPrefix(s, n);
    AtLeastIsPrefix(s, n);
    TwoMore(t, n, i, k);
    GreaterPermutes(t, s, n);
  }

  /** How many names have the count or a larger one. */
  function AtLeast(c: Counter, n: nat): nat {
    if c == [] then 0 else (if c[0].count >= n then 1 else 0) + AtLeast(c[1..], n)
  }

  lemma {:induction false} AtLeastIsGreater(c: Counter, n: nat)
    ensures n > 0 ==> AtLeast(c, n) == Greater(c, n - 1)
    ensures n == 0 ==> AtLeast(c, n) == |c|
  {
    if c != [] { AtLeastIsGreater(c[1..], n); }
  }

  lemma AtLeastCounts(c: Counter, d: Counter, n: nat)
    requires multiset(c) == multiset(d)
    ensures AtLeast(c, n) == AtLeast(d, n)
  {
    assert |multiset(c)| == |multiset(d)|;
    AtLeastIsGreater(c, n);
    AtLeastIsGreater(d, n);
    if n > 0 { GreaterPermutes(c, d, n - 1); }
  }

  lemma AtLeastIsPrefix(s: Counter, n: nat)
    requires Sorted(ByCount, s)
    ensures AtLeast(s, n) <= |s|
    ensures forall i :: 0 <= i < |s| ==> (s[i].count >= n <==> i < AtLeast(s, n))
  {
    AtLeastIsGreater(s, n);
    if n > 0 { GreaterIsPrefix(s, n - 1); }
  }

  lemma {:induction false} TwoMore(c: Counter, n: nat, i: nat, k: nat)
    requires i < k < |c| && c[i].count == c[k].count == n
    ensures AtLeast(c, n) >= Greater(c, n) + 2
  {
    if i > 0 {
      TwoMore(c[1..], n, i - 1, k - 1);
    } else {
      OneMore(c[1..], n, k - 1);
    }
  }

  lemma {:induction false} OneMore(c: Counter, n: nat, k: nat)
    requires k < |c| && c[k].count == n
    ensures AtLeast(c, n) >= Greater(c, n) + 1
  {
    if k > 0 { OneMore(c[1..], n, k - 1); } else { AtLeastCovers(c[1..], n); }
  }

  lemma {:induction false} AtLeastCovers(c: Counter, n: nat)
    ensures AtLeast(c, n) >= Greater(c, n)
  {
    if c != [] { AtLeastCovers(c[1..], n); }
  }

  // ------------------------------------------------------------------
  // A visible tie is decided by the order of arrival
  // ------------------------------------------------------------------

  lemma {:induction false} FirstOfCount(s: Counter, n: nat)
    requires Sorted(ByCount, s) && Greater(s, n) < |s| && s[Greater(s, n)].count == n
    ensures WithCount(s, n) != [] && WithCount(s, n)[0] == s[Greater(s, n)]
  {
    assert s == [s[0]] + s[1..];
    SortedCons(ByCount, s[0], s[1..]);
    GreaterIsPrefix(s, n);
    if s[0].count != n { FirstOfCount(s[1..], n); }
  }

  /** A counter lists the name of the first event first. */
  lemma {:induction false} FirstSeenFirst(start: int, size: int, events: seq<Event>, d: Dimension)
    requires events != []
    ensures CounterFor(TallyOf(start, size, events), d) != []
    ensures CounterFor(TallyOf(start, size, events), d)[0].name == Label(d, events[0])
  {
    var n := |events| - 1;
    assert CounterFor(TallyOf(start, size, events), d)
        == Plus(CounterFor(TallyOf(start, size, events[..n]), d), Label(d, events[n]), 1);
    if n > 0 { FirstSeenFirst(start, size, events[..n], d); }
  }

  /** The same events in any order give the same counts. */
  lemma SameEntries(start: int, size: int, a: seq<Event>, b: seq<Event>, d: Dimension)
    requires multiset(a) == multiset(b)
    ensures multiset(CounterFor(TallyOf(start, size, a), d)) == multiset(CounterFor(TallyOf(start, size, b), d))
    ensures Distinct(CounterFor(TallyOf(start, size, a), d))
  {
    hide TallyOf, CounterFor, CountOf, Distinct, Occurrences, Names;
    TallyCountsTheStream(start, size, a, d);
    TallyCountsTheStream(start, size, b, d);
    var c, e := CounterFor(TallyOf(start, size, a), d), CounterFor(TallyOf(start, size, b), d);
    forall n ensures CountOf(c, n) == CountOf(e, n) && (n in Names(c) <==> n in Names(e)) {
      CountingIgnoresOrder(a, b, d, n);
      TallyNames(start, size, a, d, n);
      TallyNames(start, size, b, d, n);
    }
    SameCountsSameEntries(c, e);
  }

  lemma {:induction false} SomeOccurrence(events: seq<Event>, d: Dimension, name: string) returns (e: nat)
    requires Occurrences(events, d, name) > 0
    ensures e < |events| && Label(d, events[e]) == name
  {
    e := |events| - 1;
    if Label(d, events[e]) != name { e := SomeOccurrence(events[..e], d, name); }
  }

  function ToFront(events: seq<Event>, e: nat): seq<Event>
    requires e < |events|
  {
    [events[e]] + events[..e] + events[e + 1..]
  }

  lemma ToFrontPermutes(events: seq<Event>, e: nat)
    requires e < |events|
    ensures multiset(ToFront(events, e)) == multiset(events)
  {
    assert events == events[..e] + [events[e]] + events[e + 1..];
  }

  /** The tied name that arrives first is the one listed first. */
  lemma TieShows(start: int, size: int, events: seq<Event>, d: Dimension, cut: nat) returns (b: seq<Event>)
    requires VisibleTie(CounterFor(TallyOf(start, size, events), d), cut)
    ensures multiset(b) == multiset(events)
    ensures Cut(CounterFor(TallyOf(start, size, b), d), cut) != Cut(CounterFor(TallyOf(start, size, events), d), cut)
  {
    hide TallyOf, SortBy, CounterFor, Occurrences, CountOf, Sum, Take;
    var c := CounterFor(TallyOf(start, size, events), d);
    var s := SortBy(ByCount, c);
    var i, j :| 0 <= i < j < |s| && i < cut && s[i].count == s[j].count;
    TallyCountsTheStream(start, size, events, d);
    SortByKeepsCounts(ByCount, c);
    SortBySorted(ByCount, c);
    var n := s[j].count;
    GreaterIsPrefix(s, n);
    var g := Greater(s, n);
    TallyNames(start, size, events, d, s[j].name);
    CountAt(s, j);
    assert s[j].name in Names(s);
    var e := SomeOccurrence(events, d, s[j].name);
    b := ToFront(events, e);
    ToFrontPermutes(events, e);
    FirstSeenFirst(start, size, b, d);
    SameEntries(start, size, b, events, d);
    var front := CounterFor(TallyOf(start, size, b), d);
    TallyCountsTheStream(start, size, b, d);
    CountingIgnoresOrder(b, events, d, s[j].name);
    CountAt(front, 0);
    RankedFirst(c, front, n);
    assert s[g].name != s[j].name;
    CutsDiffer(s, SortBy(ByCount, front), g, cut);
  }

  lemma CutsDiffer(s: Counter, t: Counter, g: nat, cut: nat)
    requires g < |s| && g < |t| && g < cut && s[g] != t[g]
    ensures Take(s, cut) != Take(t, cut)
  {
    assert Take(s, cut)[g] == s[g] && Take(t, cut)[g] == t[g];
  }

  /** Among the names with `n` edits, the one seen first takes their best rank. */
  lemma RankedFirst(c: Counter, front: Counter, n: nat)
    requires multiset(c) == multiset(front) && front != [] && front[0].count == n
    ensures var g := Greater(SortBy(ByCount, c), n);
      g < |SortBy(ByCount, front)| && SortBy(ByCount, front)[g] == front[0]
  {
    hide SortBy;
    var s, t := SortBy(ByCount, c), SortBy(ByCount, front);
    SortBySorted(ByCount, c);
    SortBySorted(ByCount, front);
    GreaterPermutes(s, t, n);
    GreaterIsPrefix(t, n);
    assert front[0] in multiset(t);
    var k :| 0 <= k < |t| && t[k] == front[0];
    ByCountDescends(t, Greater(t, n), k);
    FirstOfCount(t, n);
    MostCommonKeepsTieOrder(front, n);
  }

  ghost predicate Tied(t: Tally) {
    VisibleTie(t.wikis, |t.wikis|) || VisibleTie(t.types, |t.types|) || VisibleTie(t.users, TOP_EDITORS)
  }

  lemma ListsAreCuts(t: Tally)
    requires t.size != 0
    ensures Snapshot(t).editsPerWiki == Cut(t.wikis, |t.wikis|) && Snapshot(t).editTypes == Cut(t.types, |t.types|)
    ensures Snapshot(t).topEditors == Cut(t.users, TOP_EDITORS)
  {
    hide SortBy;
    SortBySorted(ByCount, t.wikis);
    SortBySorted(ByCount, t.types);
  }

  lemma SameNumbers(start: int, size: int, a: seq<Event>, b: seq<Event>)
    requires multiset(a) == multiset(b) && size != 0
    ensures var s, t := TallyOf(start, size, a), TallyOf(start, size, b);
      s.total == t.total && s.bots == t.bots && s.humans == t.humans
      && |s.wikis| == |t.wikis| && |s.types| == |t.types|
  {
    hide TallyOf, Sum, CountOf, Distinct;
    TallyCountsTheStream(start, size, a, ByWiki);
    TallyCountsTheStream(start, size, b, ByWiki);
    CountingIgnoresOrder(a, b, ByWiki, "");
    SameEntries(start, size, a, b, ByWiki);
    SameEntries(start, size, a, b, ByType);
    assert |multiset(TallyOf(start, size, a).wikis)| == |multiset(TallyOf(start, size, b).wikis)|;
    assert |multiset(TallyOf(start, size, a).types)| == |multiset(TallyOf(start, size, b).types)|;
  }

  lemma UntiedIsDeterministic(start: int, size: int, a: seq<Event>, b: seq<Event>)
    requires multiset(a) == multiset(b) && size != 0 && !Tied(TallyOf(start, size, a))
    ensures Snapshot(TallyOf(start, size, a)) == Snapshot(TallyOf(start, size, b))
  {
    hide TallyOf, VisibleTie, SortBy, Cut;
    var s, t := TallyOf(start, size, a), TallyOf(start, size, b);
    SameNumbers(start, size, a, b);
    SameEntries(start, size, a, b, ByWiki);
    SameEntries(start, size, a, b, ByType);
    SameEntries(start, size, a, b, ByUser);
    ListsAreCuts(s);
    ListsAreCuts(t);
    NoTieOneList(s.wikis, t.wikis, |s.wikis|);
    NoTieOneList(s.types, t.types, |s.types|);
    NoTieOneList(s.users, t.users, TOP_EDITORS);
  }

  /** Some order of the same events gives a different summary. */
  lemma TiedDepends(start: int, size: int, a: seq<Event>) returns (b: seq<Event>)
    requires size != 0 && Tied(TallyOf(start, size, a))
    ensures multiset(a) == multiset(b) && Snapshot(TallyOf(start, size, a)) != Snapshot(TallyOf(start, size, b))
  {
    hide TallyOf, VisibleTie, SortBy, Cut, Snapshot;
    var t := TallyOf(start, size, a);
    if VisibleTie(t.wikis, |t.wikis|) {
      b := TieShows(start, size, a, ByWiki, |t.wikis|);
    } else if VisibleTie(t.types, |t.types|) {
      b := TieShows(start, size, a, ByType, |t.types|);
    } else {
      b := TieShows(start, size, a, ByUser, TOP_EDITORS);
    }
    SameNumbers(start, size, a, b);
    ListsAreCuts(t);
    ListsAreCuts(TallyOf(start, size, b));
  }

  /** A summary is determined by the set of its events if and only if no tie shows in its lists. */
  lemma SnapshotIsDeterministicIff(start: int, size: int, a: seq<Event>)
    requires size != 0
    ensures (forall b: seq<Event> :: multiset(b) == multiset(a) ==>
               Snapshot(TallyOf(start, size, b)) == Snapshot(TallyOf(start, size, a)))
            <==> !Tied(TallyOf(start, size, a))
  {
    hide TallyOf, Tied, Snapshot;
    if Tied(TallyOf(start, size, a)) {
      var b := TiedDepends(start, size, a);
    } else {
      forall b: seq<Event> | multiset(b) == multiset(a)
        ensures Snapshot(TallyOf(start, size, b)) == Snapshot(TallyOf(start, size, a))
      {
        UntiedIsDeterministic(start, size, a, b);
      }
    }
  }

  function EditBy(user: string): Event {
    Event(None, None, Some(user), false, None)
  }

  /** Two edits by two users tie, and their summary tells which came first. */
  lemma TwoEditorsTie(start: int, size: int)
    requires size != 0
    ensures var ab, ba := [EditBy("a"), EditBy("b")], [EditBy("b"), EditBy("a")];
      && multiset(ab) == multiset(ba) && Tied(TallyOf(start, size, ab))
      && Snapshot(TallyOf(start, size, ab)).topEditors == [Entry("a", 1), Entry("b", 1)]
      && Snapshot(TallyOf(start, size, ba)).topEditors == [Entry("b", 1), Entry("a", 1)]
  {
    hide TallyOf;
    var ab, ba := [EditBy("a"), EditBy("b")], [EditBy("b"), EditBy("a")];
    assert ab == [EditBy("a")] + [EditBy("b")] && ba == [EditBy("b")] + [EditBy("a")];
    TwoUsers(start, size, "a", "b");
    TwoUsers(start, size, "b", "a");
    var s := SortBy(ByCount, TallyOf(start, size, ab).users);
    assert s[0].count == s[1].count;
  }

  lemma TwoUsers(start: int, size: int, x: string, y: string)
    requires x != y && x != "" && y != ""
    ensures var users := TallyOf(start, size, [EditBy(x), EditBy(y)]).users;
      users == SortBy(ByCount, users) == [Entry(x, 1), Entry(y, 1)]
  {
    var one, two := [EditBy(x)], [EditBy(x), EditBy(y)];
    var first, second, users := [Entry(x, 1)], [Entry(y, 1)], [Entry(x, 1), Entry(y, 1)];
    assert one[..|one| - 1] == [] && two[..|two| - 1] == one;
    assert first[1..] == [] && second[1..] == [] && users[1..] == second && users == first + second;
    assert Plus([], x, 1) == first && Plus([], y, 1) == second;
    assert TallyOf(start, size, one).users == first;
    assert TallyOf(start, size, two).users == Plus(first, y, 1) == users;
    assert SortBy(ByCount, second) == second;
  }
}

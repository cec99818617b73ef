/** Insertion-ordered counters (Python dictionaries of counts) and the two orders in which they are listed. */
module Counters {

  datatype Entry = Entry(name: string, count: nat)

  /** A dictionary from name to count, in insertion order. */
  type Counter = seq<Entry>

  predicate Distinct(c: Counter) {
    forall i, j :: 0 <= i < j < |c| ==> c[i].name != c[j].name
  }

  ghost function Names(c: Counter): set<string> {
    set i | 0 <= i < |c| :: c[i].name
  }

  function CountOf(c: Counter, name: string): nat {
    if c == [] then 0 else if c[0].name == name then c[0].count else CountOf(c[1..], name)
  }

  function Sum(c: Counter): nat {
    if c == [] then 0 else c[0].count + Sum(c[1..])
  }

  /** `d[name] = d.get(name, 0) + n`. */
  function Plus(c: Counter, name: string, n: nat): Counter {
    if c == [] then [Entry(name, n)]
    else if c[0].name == name then [Entry(name, c[0].count + n)] + c[1..]
    else [c[0]] + Plus(c[1..], name, n)
  }

  lemma {:induction false} PlusNames(c: Counter, name: string, n: nat)
    ensures Names(Plus(c, name, n)) == Names(c) + {name}
  {
    var p := Plus(c, name, n);
    if c == [] {
      assert p[0].name == name;
    } else if c[0].name == name {
      assert forall i :: 0 <= i < |c| ==> p[i].name == c[i].name;
      assert p[0].name in Names(p);
      assert forall x :: x in Names(p) ==> x in Names(c);
    } else {
      PlusNames(c[1..], name, n);
      NamesCons(c);
      NamesCons(p);
      assert p[1..] == Plus(c[1..], name, n);
    }
  }

  lemma NamesCons(c: Counter)
    requires c != []
    ensures Names(c) == {c[0].name} + Names(c[1..])
  {
    forall x | x in Names(c) ensures x in {c[0].name} + Names(c[1..]) {
      var i :| 0 <= i < |c| && c[i].name == x;
      if i > 0 { assert c[1..][i - 1].name == x; }
    }
    forall x | x in Names(c[1..]) ensures x in Names(c) {
      var i :| 0 <= i < |c[1..]| && c[1..][i].name == x;
      assert c[i + 1].name == x;
    }
  }

  lemma DistinctCons(c: Counter)
    requires c != []
    ensures Distinct(c) <==> Distinct(c[1..]) && c[0].name !in Names(c[1..])
  {
    if Distinct(c[1..]) && c[0].name !in Names(c[1..]) {
      forall i, j | 0 <= i < j < |c| ensures c[i].name != c[j].name {
        if i == 0 {
          assert c[1..][j - 1].name in Names(c[1..]);
        } else {
          assert c[1..][i - 1].name != c[1..][j - 1].name;
        }
      }
    }
    if Distinct(c) {
      forall i, j | 0 <= i < j < |c[1..]| ensures c[1..][i].name != c[1..][j].name {
        assert c[i + 1].name != c[j + 1].name;
      }
    }
  }

  lemma {:induction false} PlusDistinct(c: Counter, name: string, n: nat)
    requires Distinct(c)
    ensures Distinct(Plus(c, name, n))
  {
    var p := Plus(c, name, n);
    if c != [] && c[0].name == name {
      assert forall i :: 0 <= i < |c| ==> p[i].name == c[i].name;
    } else if c != [] {
      DistinctCons(c);
      PlusDistinct(c[1..], name, n);
      PlusNames(c[1..], name, n);
      assert p[1..] == Plus(c[1..], name, n);
      DistinctCons(p);
    }
  }

  lemma {:induction false} PlusCounts(c: Counter, name: string, n: nat, other: string)
    ensures CountOf(Plus(c, name, n), other) == CountOf(c, other) + (if other == name then n else 0)
  {
    if c != [] {
      var p := Plus(c, name, n);
      if c[0].name == name {
        assert p[1..] == c[1..];
      } else {
        PlusCounts(c[1..], name, n, other);
        assert p[1..] == Plus(c[1..], name, n);
      }
    }
  }

  lemma {:induction false} PlusSum(c: Counter, name: string, n: nat)
    ensures Sum(Plus(c, name, n)) == Sum(c) + n
  {
    if c != [] {
      var p := Plus(c, name, n);
      if c[0].name == name {
        assert p[1..] == c[1..];
      } else {
        PlusSum(c[1..], name, n);
        assert p[1..] == Plus(c[1..], name, n);
      }
    }
  }

  lemma {:induction false} AbsentCountsNothing(c: Counter, name: string)
    requires name !in Names(c)
    ensures CountOf(c, name) == 0
  {
    if c != [] {
      NamesCons(c);
      AbsentCountsNothing(c[1..], name);
    }
  }

  lemma {:induction false} CountAt(c: Counter, i: nat)
    requires Distinct(c) && i < |c|
    ensures CountOf(c, c[i].name) == c[i].count
  {
    if i > 0 {
      DistinctCons(c);
      assert c[0].name != c[i].name;
      CountAt(c[1..], i - 1);
    }
  }

  // ------------------------------------------------------------------
  // Listing a counter in order
  // ------------------------------------------------------------------

  /** `Counter.most_common` orders by count alone; the merge orders by count, then name. */
  datatype Order = ByCount | ByCountThenName

  /** Strings compare lexicographically by code point. */
  predicate NameLess(a: string, b: string) {
    b != [] && (a == [] || a[0] < b[0] || (a[0] == b[0] && NameLess(a[1..], b[1..])))
  }

  predicate Before(o: Order, x: Entry, y: Entry) {
    x.count > y.count || (o.ByCountThenName? && x.count == y.count && NameLess(x.name, y.name))
  }

  /** A stable insertion: `x` goes in front of everything that need not precede it. */
  function Insert(o: Order, x: Entry, c: Counter): Counter {
    if c == [] || !Before(o, c[0], x) then [x] + c else [c[0]] + Insert(o, x, c[1..])
  }

  /** Python's stable `sorted`, as the listing it produces. */
  function SortBy(o: Order, c: Counter): Counter {
    if c == [] then [] else Insert(o, c[0], SortBy(o, c[1..]))
  }

  predicate Sorted(o: Order, c: Counter) {
    forall i, j :: 0 <= i < j < |c| ==> !Before(o, c[j], c[i])
  }

  lemma {:induction false} NameOrder(a: string, b: string)
    ensures NameLess(a, b) ==> !NameLess(b, a)
    ensures a != b ==> NameLess(a, b) || NameLess(b, a)
    ensures !NameLess(a, a)
  {
    if a != [] && b != [] && a[0] == b[0] {
      NameOrder(a[1..], b[1..]);
      assert a == [a[0]] + a[1..] && b == [b[0]] + b[1..];
    }
    if a != [] { NameOrder(a[1..], a[1..]); }
  }

  lemma {:induction false} NameLessTransitive(a: string, b: string, c: string)
    requires NameLess(a, b) && NameLess(b, c)
    ensures NameLess(a, c)
  {
    if a != [] && a[0] == b[0] && b[0] == c[0] {
      NameLessTransitive(a[1..], b[1..], c[1..]);
    }
  }

  /** "Not after" is transitive: the negation of a strict weak order. */
  lemma NotAfterTransitive(o: Order, x: Entry, y: Entry, z: Entry)
    requires !Before(o, y, x) && !Before(o, z, y)
    ensures !Before(o, z, x)
  {
    if Before(o, z, x) && o.ByCountThenName? && z.count == x.count {
      NameOrder(x.name, y.name);
      NameOrder(y.name, z.name);
      if x.name != y.name && y.name != z.name {
        NameLessTransitive(x.name, y.name, z.name);
        NameOrder(x.name, z.name);
      }
    }
  }

  lemma BeforeIsStrict(o: Order, x: Entry, y: Entry)
    ensures Before(o, x, y) ==> !Before(o, y, x)
  {
    NameOrder(x.name, y.name);
  }

  lemma SortedCons(o: Order, x: Entry, c: Counter)
    ensures Sorted(o, [x] + c) <==> Sorted(o, c) && forall y :: y in c ==> !Before(o, y, x)
  {
    var r := [x] + c;
    if Sorted(o, r) {
      forall i, j | 0 <= i < j < |c| ensures !Before(o, c[j], c[i]) {
        assert r[i + 1] == c[i] && r[j + 1] == c[j];
      }
      forall y | y in c ensures !Before(o, y, x) {
        var k :| 0 <= k < |c| && c[k] == y;
        assert r[k + 1] == y && r[0] == x;
      }
    }
  }

  lemma {:induction false} InsertMembers(o: Order, x: Entry, c: Counter)
    ensures multiset(Insert(o, x, c)) == multiset(c) + multiset{x}
    ensures forall y :: y in Insert(o, x, c) ==> y == x || y in c
  {
    if c != [] && Before(o, c[0], x) {
      InsertMembers(o, x, c[1..]);
      assert c == [c[0]] + c[1..];
    }
  }

  lemma {:induction false} InsertSorted(o: Order, x: Entry, c: Counter)
    requires Sorted(o, c)
    ensures Sorted(o, Insert(o, x, c))
  {
    if c == [] {
    } else if !Before(o, c[0], x) {
      assert c == [c[0]] + c[1..];
      SortedCons(o, c[0], c[1..]);
      forall y | y in c ensures !Before(o, y, x) {
        if y != c[0] { NotAfterTransitive(o, x, c[0], y); }
      }
      SortedCons(o, x, c);
    } else {
      assert c == [c[0]] + c[1..];
      SortedCons(o, c[0], c[1..]);
      InsertSorted(o, x, c[1..]);
      InsertMembers(o, x, c[1..]);
      BeforeIsStrict(o, c[0], x);
      SortedCons(o, c[0], Insert(o, x, c[1..]));
    }
  }

  lemma NothingToSort(o: Order)
    ensures Sorted(o, [])
  {
  }

  lemma {:induction false} SortBySorted(o: Order, c: Counter)
    ensures Sorted(o, SortBy(o, c))
    ensures multiset(SortBy(o, c)) == multiset(c)
    ensures |SortBy(o, c)| == |c|
  {
    hide Sorted, Before;
    if c == [] {
      NothingToSort(o);
    } else {
      SortBySorted(o, c[1..]);
      InsertSorted(o, c[0], SortBy(o, c[1..]));
      InsertMembers(o, c[0], SortBy(o, c[1..]));
      assert c == [c[0]] + c[1..];
      assert |multiset(SortBy(o, c))| == |multiset(c)|;
    }
  }

  /** Reordering a dictionary changes neither its keys nor its counts. */
  lemma {:induction false} InsertKeepsCounts(o: Order, x: Entry, c: Counter)
    requires Distinct([x] + c)
    ensures Distinct(Insert(o, x, c)) && Names(Insert(o, x, c)) == Names(c) + {x.name}
    ensures forall n :: CountOf(Insert(o, x, c), n) == CountOf([x] + c, n)
    ensures Sum(Insert(o, x, c)) == x.count + Sum(c)
  {
    var r := Insert(o, x, c);
    DistinctCons([x] + c);
    assert ([x] + c)[1..] == c;
    if c == [] || !Before(o, c[0], x) {
      NamesCons(r);
      assert r == [x] + c && r[1..] == c;
    } else {
      DistinctCons(c);
      NamesCons(c);
      DistinctCons([x] + c[1..]);
      assert ([x] + c[1..])[1..] == c[1..];
      InsertKeepsCounts(o, x, c[1..]);
      assert r[1..] == Insert(o, x, c[1..]);
      NamesCons(r);
      assert c[0].name != x.name;
      DistinctCons(r);
      forall n ensures CountOf(r, n) == CountOf([x] + c, n) {
        assert CountOf(r[1..], n) == CountOf([x] + c[1..], n);
      }
    }
  }

  lemma {:induction false} SortByKeepsCounts(o: Order, c: Counter)
    requires Distinct(c)
    ensures Distinct(SortBy(o, c)) && Names(SortBy(o, c)) == Names(c)
    ensures forall n :: CountOf(SortBy(o, c), n) == CountOf(c, n)
    ensures Sum(SortBy(o, c)) == Sum(c)
  {
    if c != [] {
      DistinctCons(c);
      NamesCons(c);
      SortByKeepsCounts(o, c[1..]);
      var s := SortBy(o, c[1..]);
      DistinctCons([c[0]] + s);
      assert ([c[0]] + s)[1..] == s;
      InsertKeepsCounts(o, c[0], s);
    }
  }

  /** The entries with one particular count, in order. */
  function WithCount(c: Counter, n: nat): Counter {
    if c == [] then [] else (if c[0].count == n then [c[0]] else []) + WithCount(c[1..], n)
  }

  lemma {:induction false} InsertStable(x: Entry, c: Counter, n: nat)
    requires Sorted(ByCount, c)
    ensures WithCount(Insert(ByCount, x, c), n) == (if x.count == n then [x] else []) + WithCount(c, n)
  {
    var r := Insert(ByCount, x, c);
    if c == [] || !Before(ByCount, c[0], x) {
      assert r[1..] == c;
    } else {
      assert c == [c[0]] + c[1..];
      SortedCons(ByCount, c[0], c[1..]);
      InsertStable(x, c[1..], n);
      assert r[1..] == Insert(ByCount, x, c[1..]);
    }
  }

  /** `most_common` lists ties in first-seen order. */
  lemma {:induction false} MostCommonKeepsTieOrder(c: Counter, n: nat)
    ensures WithCount(SortBy(ByCount, c), n) == WithCount(c, n)
  {
    if c != [] {
      MostCommonKeepsTieOrder(c[1..], n);
      SortBySorted(ByCount, c[1..]);
      InsertStable(c[0], SortBy(ByCount, c[1..]), n);
    }
  }

  lemma SameHead(a: Counter, b: Counter)
    requires Sorted(ByCountThenName, a) && Sorted(ByCountThenName, b)
    requires multiset(a) == multiset(b) && Distinct(a) && a != [] && b != []
    ensures a[0] == b[0]
  {
    assert a[0] in multiset(b);
    var i :| 0 <= i < |b| && b[i] == a[0];
    assert b[0] in multiset(a);
    var j :| 0 <= j < |a| && a[j] == b[0];
    NameOrder(a[0].name, b[0].name);
    if j > 0 { assert !Before(ByCountThenName, a[j], a[0]) && a[0].name != a[j].name; }
    if i > 0 { assert !Before(ByCountThenName, b[i], b[0]); }
  }

  lemma {:induction false} SortedUnique(a: Counter, b: Counter)
    requires Sorted(ByCountThenName, a) && Sorted(ByCountThenName, b)
    requires multiset(a) == multiset(b) && Distinct(a)
    ensures a == b
  {
    if a == [] {
      assert |b| == |multiset(b)| == 0;
    } else {
      assert |multiset(a)| == |multiset(b)|;
      SameHead(a, b);
      assert a == [a[0]] + a[1..] && b == [b[0]] + b[1..];
      assert multiset(a[1..]) == multiset(a) - multiset{a[0]};
      assert multiset(b[1..]) == multiset(b) - multiset{b[0]};
      SortedCons(ByCountThenName, a[0], a[1..]);
      SortedCons(ByCountThenName, b[0], b[1..]);
      DistinctCons(a);
      SortedUnique(a[1..], b[1..]);
    }
  }

  /** Two dictionaries with the same keys and counts hold the same entries. */
  lemma {:induction false} SameCountsSameEntries(a: Counter, b: Counter)
    requires Distinct(a) && Distinct(b) && Names(a) == Names(b)
    requires forall n :: CountOf(a, n) == CountOf(b, n)
    ensures multiset(a) == multiset(b)
  {
    forall e ensures multiset(a)[e] == multiset(b)[e] {
      MultiplicityOf(a, e);
      MultiplicityOf(b, e);
    }
  }

  lemma {:induction false} MultiplicityOf(c: Counter, e: Entry)
    requires Distinct(c)
    ensures multiset(c)[e] == if e.name in Names(c) && CountOf(c, e.name) == e.count then 1 else 0
  {
    if c != [] {
      DistinctCons(c);
      NamesCons(c);
      MultiplicityOf(c[1..], e);
      assert c == [c[0]] + c[1..];
      if c[0].name == e.name { AbsentCountsNothing(c[1..], e.name); }
    }
  }

  /** Sorting by (-count, name) has one outcome per dictionary, whatever order the dictionary was built in. */
  lemma SortIsCanonical(a: Counter, b: Counter)
    requires Distinct(a) && Distinct(b) && Names(a) == Names(b)
    requires forall n :: CountOf(a, n) == CountOf(b, n)
    ensures SortBy(ByCountThenName, a) == SortBy(ByCountThenName, b)
  {
    SameCountsSameEntries(a, b);
    SortBySorted(ByCountThenName, a);
    SortBySorted(ByCountThenName, b);
    SortByKeepsCounts(ByCountThenName, a);
    SortedUnique(SortBy(ByCountThenName, a), SortBy(ByCountThenName, b));
  }

  lemma {:induction false} NamesSize(c: Counter)
    requires Distinct(c)
    ensures |Names(c)| == |c|
  {
    if c != [] {
      DistinctCons(c);
      NamesCons(c);
      NamesSize(c[1..]);
    }
  }
}

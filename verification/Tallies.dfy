/** Accumulators for one fixed window: `TumblingWindow` and the summary it produces. */
module Tallies {
  import opened Events
  import opened Counters

  const TOP_EDITORS := 5

  /** The value of a `TumblingWindow`. */
  datatype Tally = Tally(
    start: int, size: int, total: nat, bots: nat, humans: nat, wikis: Counter, types: Counter, users: Counter)

  /** One partition's summary of one window; the rate is kept exact. */
  datatype Slice = Slice(
    windowStart: int, windowEnd: int, totalEdits: nat, editsPerSecond: real, editsPerWiki: Counter,
    bot: nat, human: nat, editTypes: Counter, topEditors: Counter)

  function EmptyTally(start: int, size: int): Tally {
    Tally(start, size, 0, 0, 0, [], [], [])
  }

  function Count(t: Tally, e: Event): Tally {
    t.(total := t.total + 1,
       bots := if e.bot then t.bots + 1 else t.bots,
       humans := if e.bot then t.humans else t.humans + 1,
       wikis := Plus(t.wikis, Label(ByWiki, e), 1),
       types := Plus(t.types, Label(ByType, e), 1),
       users := Plus(t.users, Label(ByUser, e), 1))
  }

  /** The in-order fold of a stream of events into one window. */
  function TallyOf(start: int, size: int, events: seq<Event>): (t: Tally)
    ensures t.start == start && t.size == size && t.total == |events|
  {
    if events == [] then EmptyTally(start, size)
    else Count(TallyOf(start, size, events[..|events| - 1]), events[|events| - 1])
  }

  function Take(c: Counter, n: nat): Counter {
    if |c| <= n then c else c[..n]
  }

  function TopOf(users: Counter): Counter {
    Take(SortBy(ByCount, users), TOP_EDITORS)
  }

  function Snapshot(t: Tally): (s: Slice)
    requires t.size != 0
    ensures s.windowStart == t.start && s.windowEnd == t.start + t.size && s.totalEdits == t.total
  {
    Slice(t.start, t.start + t.size, t.total, t.total as real / t.size as real,
          SortBy(ByCount, t.wikis), t.bots, t.humans, SortBy(ByCount, t.types), TopOf(t.users))
  }

  /** The counters of one dimension. */
  function CounterFor(t: Tally, d: Dimension): Counter {
    match d
    case ByWiki => t.wikis
    case ByType => t.types
    case ByUser => t.users
  }

  class TumblingWindow {
    const start: int
    const size: int
    var total: nat
    var bots: nat
    var humans: nat
    var wikis: Counter
    var types: Counter
    var users: Counter

    constructor (start: int, size: int)
      ensures Value() == EmptyTally(start, size)
    {
      this.start, this.size := start, size;
      total, bots, humans := 0, 0, 0;
      wikis, types, users := [], [], [];
    }

    ghost function Value(): Tally
      reads this
    {
      Tally(start, size, total, bots, humans, wikis, types, users)
    }

    function End(): int {
      start + size
    }

    method Add(e: Event)
      modifies this
      ensures Value() == Count(old(Value()), e)
    {
      total := total + 1;
      wikis := Plus(wikis, OrElse(e.wiki, "unknown"), 1);
      if e.bot {
        bots := bots + 1;
      } else {
        humans := humans + 1;
      }
      types := Plus(types, OrElse(e.kind, "unknown"), 1);
      users := Plus(users, OrElse(e.user, "anonymous"), 1);
    }

    method TakeSnapshot() returns (s: Slice)
      requires size != 0
      ensures s == Snapshot(Value())
    {
      var ranked := SortBy(ByCount, users);
      s := Slice(start, End(), total, total as real / size as real, SortBy(ByCount, wikis), bots, humans,
                 SortBy(ByCount, types), if |ranked| <= TOP_EDITORS then ranked else ranked[..TOP_EDITORS]);
    }
  }

  // ------------------------------------------------------------------
  // What a tally means
  // ------------------------------------------------------------------

  /** Every counter of a window counts exactly the occurrences in its stream, and each breakdown sums to the total. */
  lemma {:induction false} TallyCountsTheStream(start: int, size: int, events: seq<Event>, d: Dimension)
    ensures var t := TallyOf(start, size, events);
            && t.start == start && t.size == size
            && t.total == |events| && t.bots == BotEdits(events) && t.bots + t.humans == t.total
            && Distinct(CounterFor(t, d)) && Sum(CounterFor(t, d)) == |events|
            && forall name :: CountOf(CounterFor(t, d), name) == Occurrences(events, d, name)
  {
    if events != [] {
      var prior, e := events[..|events| - 1], events[|events| - 1];
      TallyCountsTheStream(start, size, prior, d);
      var c := CounterFor(TallyOf(start, size, prior), d);
      PlusDistinct(c, Label(d, e), 1);
      PlusSum(c, Label(d, e), 1);
      assert CounterFor(TallyOf(start, size, events), d) == Plus(c, Label(d, e), 1);
      forall name ensures CountOf(Plus(c, Label(d, e), 1), name) == Occurrences(events, d, name) {
        PlusCounts(c, Label(d, e), 1, name);
      }
    }
  }

  /** A name is listed exactly when it occurs. */
  lemma {:induction false} TallyNames(start: int, size: int, events: seq<Event>, d: Dimension, name: string)
    ensures name in Names(CounterFor(TallyOf(start, size, events), d)) <==> Occurrences(events, d, name) > 0
  {
    if events != [] {
      var prior, e := events[..|events| - 1], events[|events| - 1];
      TallyNames(start, size, prior, d, name);
      var c := CounterFor(TallyOf(start, size, prior), d);
      PlusNames(c, Label(d, e), 1);
      assert CounterFor(TallyOf(start, size, events), d) == Plus(c, Label(d, e), 1);
    }
  }

  lemma {:induction false} PrefixSum(c: Counter, k: nat, least: nat)
    requires k <= |c| && forall i :: 0 <= i < k ==> c[i].count >= least
    ensures Sum(c) >= k * least
  {
    if k > 0 {
      forall i | 0 <= i < k - 1 ensures c[1..][i].count >= least { assert c[i + 1].count >= least; }
      PrefixSum(c[1..], k - 1, least);
      assert k * least == (k - 1) * least + least;
    }
  }

  lemma ByCountDescends(c: Counter, j: nat, i: nat)
    requires Sorted(ByCount, c) && j <= i < |c|
    ensures c[j].count >= c[i].count
  {
    assert j < i ==> !Before(ByCount, c[i], c[j]);
  }

  lemma TopOfEntries(users: Counter, i: nat)
    requires Distinct(users) && i < |users|
    ensures var s := SortBy(ByCount, users);
      && |s| == |users| && CountOf(users, s[i].name) == s[i].count
      && (i >= TOP_EDITORS ==> (TOP_EDITORS + 1) * s[i].count <= Sum(users))
  {
    var s := SortBy(ByCount, users);
    SortBySorted(ByCount, users);
    SortByKeepsCounts(ByCount, users);
    CountAt(s, i);
    if i >= TOP_EDITORS {
      forall j | 0 <= j < TOP_EDITORS + 1 ensures s[j].count >= s[i].count {
        ByCountDescends(s, j, i);
      }
      PrefixSum(s, TOP_EDITORS + 1, s[i].count);
    }
  }

  /** The cut keeps a listed user's count intact, and a user it drops has five others at least as large. */
  lemma TopOfBound(users: Counter, name: string)
    requires Distinct(users)
    ensures Distinct(TopOf(users))
    ensures name in Names(TopOf(users)) ==> CountOf(TopOf(users), name) == CountOf(users, name)
    ensures name !in Names(TopOf(users)) ==>
      CountOf(TopOf(users), name) == 0 && (TOP_EDITORS + 1) * CountOf(users, name) <= Sum(users)
  {
    hide SortBy, CountOf, Sum, Sorted;
    var s, top := SortBy(ByCount, users), TopOf(users);
    SortByKeepsCounts(ByCount, users);
    SortBySorted(ByCount, users);
    assert forall j :: 0 <= j < |top| ==> top[j] == s[j];
    if name in Names(top) {
      var i :| 0 <= i < |top| && top[i].name == name;
      CountAt(top, i);
      TopOfEntries(users, i);
    } else {
      AbsentCountsNothing(top, name);
      if name in Names(s) {
        var i :| 0 <= i < |s| && s[i].name == name;
        assert i >= |top| by {
          assert forall j :: 0 <= j < |top| ==> top[j].name in Names(top);
        }
        TopOfEntries(users, i);
      } else {
        AbsentCountsNothing(s, name);
      }
    }
  }
}

/** The hot-path reads: the newest window, and the chart's history. */
module Reads {
  import opened Events
  import opened Expiry
  import opened Merge
  import opened Sets
  import opened Sinks
  import opened Tallies

  /** `order` lists a hash's fields, in whatever order Redis returns them. */
  ghost predicate ListsFields(order: seq<int>, hash: Hash) {
    && (forall i, j :: 0 <= i < j < |order| ==> order[i] != order[j])
    && (forall i :: 0 <= i < |order| ==> order[i] in hash)
    && (forall p :: p in hash ==> p in order)
  }

  ghost predicate ListsAll(orders: map<int, seq<int>>, hashes: map<int, Hash>) {
    forall start :: start in hashes ==> start in orders && ListsFields(orders[start], hashes[start])
  }

  /** `_slices`: the values of the hash. */
  function SlicesIn(hash: Hash, order: seq<int>): (slices: seq<Slice>)
    requires forall i :: 0 <= i < |order| ==> order[i] in hash
    ensures |slices| == |order| && forall i :: 0 <= i < |order| ==> slices[i] == hash[order[i]]
  {
    seq(|order|, i requires 0 <= i < |order| => hash[order[i]])
  }

  /** `HGETALL`; nothing for a window whose hash is gone. */
  function Fetched(hashes: map<int, Hash>, orders: map<int, seq<int>>, start: int): (slices: seq<Slice>)
    requires ListsAll(orders, hashes)
    ensures start !in hashes ==> slices == []
  {
    if start in hashes then SlicesIn(hashes[start], orders[start]) else []
  }

  /** Where `ZRANGE start -1` begins: a negative start counts from the end. */
  function RangeLow(n: nat, start: int): (low: nat)
    ensures low <= n
  {
    if start >= 0 then (if start <= n then start else n) else if n + start > 0 then n + start else 0
  }

  /** The chart's points for these windows, skipping those whose hash is gone. */
  function PointsOf(hashes: map<int, Hash>, members: seq<int>, orders: map<int, seq<int>>): seq<Point>
    requires ListsAll(orders, hashes)
  {
    if members == [] then []
    else
      var before := PointsOf(hashes, members[..|members| - 1], orders);
      var point := HistoryPoint(Fetched(hashes, orders, members[|members| - 1]));
      if point.Some? then before + [point.value] else before
  }

  lemma NoPoints(hashes: map<int, Hash>, orders: map<int, seq<int>>)
    requires ListsAll(orders, hashes)
    ensures PointsOf(hashes, [], orders) == []
  {
  }

  lemma PointsOneMore(hashes: map<int, Hash>, members: seq<int>, orders: map<int, seq<int>>, j: nat)
    requires ListsAll(orders, hashes) && j < |members|
    ensures var point := HistoryPoint(Fetched(hashes, orders, members[j]));
      PointsOf(hashes, members[..j + 1], orders)
      == PointsOf(hashes, members[..j], orders) + if point.Some? then [point.value] else []
  {
    assert members[..j + 1][..j] == members[..j];
  }

  lemma LastIsGreatest(index: seq<int>)
    requires StrictlySorted(index) && index != []
    ensures forall start :: start in index && (forall other :: other in index ==> other <= start) ==>
      start == index[|index| - 1]
  {
    assert index[|index| - 1] in index;
  }

  method ReadLatest(redis: RedisStore, orders: map<int, seq<int>>) returns (r: Option<Summary>)
    requires redis.Valid() && ListsAll(orders, redis.hashes)
    ensures r == if redis.index == [] then None
                 else MergeOf(Fetched(redis.hashes, orders, redis.index[|redis.index| - 1]))
    ensures forall start :: start in redis.index && (forall other :: other in redis.index ==> other <= start) ==>
      r == MergeOf(Fetched(redis.hashes, orders, start))
  {
    hide SumOf, Ranked, Earliest;
    if |redis.index| == 0 {
      return None;
    }
    var newest := redis.index[|redis.index| - 1];
    LastIsGreatest(redis.index);
    if newest !in redis.hashes {
      return None;
    }
    r := MergePartials(SlicesIn(redis.hashes[newest], orders[newest]));
  }

  method ReadHistory(redis: RedisStore, limit: int, orders: map<int, seq<int>>) returns (points: seq<Point>)
    requires redis.Valid() && ListsAll(orders, redis.hashes)
    ensures points == PointsOf(redis.hashes, redis.index[RangeLow(|redis.index|, -limit)..], orders)
    ensures limit > 0 && Keyed(redis.Value()) ==>
      forall start :: HasPoint(points, start) <==> start in redis.hashes && start in Largest(redis.Value().index, limit)
  {
    hide PointsOf, Fetched, HistoryPoint, ListsAll, Keyed, HasPoint, Largest, Members, StrictlySorted;
    ReadsTheNewest(redis.Value(), redis.index, limit, orders);
    var members := redis.index[RangeLow(|redis.index|, -limit)..];
    points := [];
    if |members| == 0 {
      NoPoints(redis.hashes, orders);
      return;
    }
    NoPoints(redis.hashes, orders);
    var results: seq<seq<Slice>> := [];
    var i := 0;
    while i < |members|
      invariant 0 <= i <= |members| && |results| == i
      invariant forall j :: 0 <= j < i ==> results[j] == Fetched(redis.hashes, orders, members[j])
    {
      results := results + [Fetched(redis.hashes, orders, members[i])];
      i := i + 1;
    }
    var j := 0;
    while j < |results|
      invariant 0 <= j <= |results|
      invariant points == PointsOf(redis.hashes, members[..j], orders)
    {
      PointsOneMore(redis.hashes, members, orders, j);
      var point := HistoryPoint(results[j]);
      if point.Some? {
        points := points + [point.value];
      }
      j := j + 1;
    }
    assert members[..j] == members;
  }

  // ------------------------------------------------------------------
  // What a reader may rely on
  // ------------------------------------------------------------------

  ghost predicate Increasing(points: seq<Point>) {
    forall i, j :: 0 <= i < j < |points| ==> points[i].t < points[j].t
  }

  /** A point is its window's merged summary, projected. */
  ghost predicate IsMergeOf(point: Point, hashes: map<int, Hash>, orders: map<int, seq<int>>)
    requires ListsAll(orders, hashes)
  {
    && point.t in hashes
    && MergeOf(Fetched(hashes, orders, point.t)).Some?
    && var m := MergeOf(Fetched(hashes, orders, point.t)).value;
       point == Point(m.windowStart, m.totalEdits, m.editsPerSecond, m.bot)
  }

  lemma PointOfWindow(s: Store, orders: map<int, seq<int>>, start: int)
    requires Keyed(s) && ListsAll(orders, s.hashes)
    ensures var point := HistoryPoint(Fetched(s.hashes, orders, start));
      && (point.Some? <==> start in s.hashes)
      && (point.Some? ==> point.value.t == start && IsMergeOf(point.value, s.hashes, orders))
  {
    hide SumOf, Ranked;
    HistoryAgreesWithMerge(Fetched(s.hashes, orders, start));
    if start in s.hashes {
      var hash := s.hashes[start];
      var p := Pick(hash.Keys);
      assert p in orders[start];
      assert forall slice :: slice in SlicesIn(hash, orders[start]) ==> slice.windowStart == start;
    }
  }

  ghost predicate HasPoint(points: seq<Point>, start: int) {
    exists i :: 0 <= i < |points| && points[i].t == start
  }

  /**
   * The history of an index in order: one point per window that still has its hash, none for the others, strictly
   * increasing in time, and each the projection of the merged window.
   */
  lemma {:induction false} HistoryIsFaithful(s: Store, members: seq<int>, orders: map<int, seq<int>>)
    requires Keyed(s) && ListsAll(orders, s.hashes) && StrictlySorted(members)
    ensures var points := PointsOf(s.hashes, members, orders);
      && Increasing(points)
      && (forall start :: HasPoint(points, start) <==> start in members && start in s.hashes)
      && (forall point :: point in points ==> IsMergeOf(point, s.hashes, orders))
  {
    hide Fetched, Keyed, ListsAll, IsMergeOf;
    if members != [] {
      var front, last := members[..|members| - 1], members[|members| - 1];
      HistoryIsFaithful(s, front, orders);
      PointOfWindow(s, orders, last);
      var before, points := PointsOf(s.hashes, front, orders), PointsOf(s.hashes, members, orders);
      forall i | 0 <= i < |before| ensures before[i].t < last {
        assert HasPoint(before, before[i].t);
        assert before[i].t in front;
      }
      forall start ensures HasPoint(points, start) <==> start in members && start in s.hashes {
        PointsGrow(before, points, start);
        assert start in members <==> start in front || start == last;
      }
    }
  }

  lemma PointsGrow(before: seq<Point>, points: seq<Point>, start: int)
    requires points == before || (|points| == |before| + 1 && points[..|before|] == before)
    ensures HasPoint(points, start) <==>
      HasPoint(before, start) || (|points| > |before| && points[|before|].t == start)
  {
    assert forall i :: 0 <= i < |before| ==> points[i] == before[i];
  }

  lemma {:induction false} NoMorePoints(hashes: map<int, Hash>, members: seq<int>, orders: map<int, seq<int>>)
    requires ListsAll(orders, hashes)
    ensures |PointsOf(hashes, members, orders)| <= |members|
  {
    if members != [] { NoMorePoints(hashes, members[..|members| - 1], orders); }
  }

  lemma NewestAreSorted(index: seq<int>, low: nat)
    requires StrictlySorted(index) && low <= |index|
    ensures StrictlySorted(index[low..])
    ensures forall start :: start in index[low..] ==> start in index
  {
  }

  /** A positive limit selects the newest windows, that many or all there are; limit 0 selects all. */
  lemma NewestAre(index: seq<int>, limit: int)
    requires StrictlySorted(index)
    ensures var read := index[RangeLow(|index|, -limit)..];
      && (limit > 0 ==>
            |read| == (if |index| < limit then |index| else limit) && Members(read) == Largest(Members(index), limit))
      && (limit == 0 ==> read == index)
  {
    if limit > 0 { TrimmedIsLargest(index, limit, RangeLow(|index|, -limit)); }
  }

  /** The history has a point for each of the newest `limit` windows that still has its hash, and no other. */
  lemma ReadsTheNewest(s: Store, index: seq<int>, limit: int, orders: map<int, seq<int>>)
    requires StrictlySorted(index) && Members(index) == s.index && ListsAll(orders, s.hashes)
    ensures limit > 0 && Keyed(s) ==>
      var points := PointsOf(s.hashes, index[RangeLow(|index|, -limit)..], orders);
      forall start :: HasPoint(points, start) <==> start in s.hashes && start in Largest(s.index, limit)
  {
    hide PointsOf, IsMergeOf, Fetched, ListsAll, Increasing, HasPoint, Keyed, Largest, RangeLow;
    if limit > 0 && Keyed(s) {
      var read := index[RangeLow(|index|, -limit)..];
      NewestAre(index, limit);
      NewestAreSorted(index, RangeLow(|index|, -limit));
      HistoryIsFaithful(s, read, orders);
      MembersAre(read);
    }
  }

  /**
   * After any writes, trims and expiries, the history read is bounded, strictly increasing in time, and faithful to
   * what is stored.
   */
  lemma HistoryAfterAnyWrites(k: int, steps: seq<SinkStep>, index: seq<int>, limit: int, orders: map<int, seq<int>>)
    requires StrictlySorted(index) && Members(index) == StoreAfter(k, steps).index
    requires ListsAll(orders, StoreAfter(k, steps).hashes)
    ensures var s, newest := StoreAfter(k, steps), index[RangeLow(|index|, -limit)..];
      var points := PointsOf(s.hashes, newest, orders);
      && Increasing(points) && (k >= 0 ==> |points| <= k)
      && (limit > 0 ==>
            && |newest| == (if |index| < limit then |index| else limit) && |points| <= limit
            && forall start :: HasPoint(points, start) <==> start in s.hashes && start in Largest(s.index, limit))
      && (forall start :: HasPoint(points, start) <==> start in newest && start in s.hashes)
      && (forall point :: point in points ==> IsMergeOf(point, s.hashes, orders))
  {
    hide StoreAfter, PointsOf, IsMergeOf, Fetched, ListsAll, Increasing, HasPoint, Keyed, Largest, RangeLow;
    ReadsTheNewest(StoreAfter(k, steps), index, limit, orders);
    NewestAre(index, limit);
    var s, newest := StoreAfter(k, steps), index[RangeLow(|index|, -limit)..];
    StoreStaysKeyed(k, steps);
    SortedSize(index);
    NewestAreSorted(index, RangeLow(|index|, -limit));
    HistoryIsFaithful(s, newest, orders);
    NoMorePoints(s.hashes, newest, orders);
  }

  // ------------------------------------------------------------------
  // The order of the fields does not matter
  // ------------------------------------------------------------------

  lemma {:induction false} SameFieldsSameSlices(hash: Hash, a: seq<int>, b: seq<int>)
    requires forall i :: 0 <= i < |a| ==> a[i] in hash
    requires forall i :: 0 <= i < |b| ==> b[i] in hash
    requires multiset(a) == multiset(b)
    ensures multiset(SlicesIn(hash, a)) == multiset(SlicesIn(hash, b))
    decreases |a|
  {
    hide SlicesIn;
    assert |multiset(a)| == |multiset(b)|;
    if a == [] {
      assert b == [];
    } else {
      var i := Extract(a, b);
      var left, right := b[..i], b[i + 1..];
      SameFieldsSameSlices(hash, a[..|a| - 1], left + right);
      SlicesConcat(hash, a[..|a| - 1], [b[i]]);
      SlicesConcat(hash, left, [b[i]]);
      SlicesConcat(hash, left + [b[i]], right);
      SlicesConcat(hash, left, right);
      assert a == a[..|a| - 1] + [b[i]];
      SameTogether(SlicesIn(hash, a[..|a| - 1]), SlicesIn(hash, left), SlicesIn(hash, [b[i]]), SlicesIn(hash, right));
    }
  }

  lemma SlicesConcat(hash: Hash, a: seq<int>, b: seq<int>)
    requires forall i :: 0 <= i < |a| ==> a[i] in hash
    requires forall i :: 0 <= i < |b| ==> b[i] in hash
    ensures forall i :: 0 <= i < |a + b| ==> (a + b)[i] in hash
    ensures SlicesIn(hash, a + b) == SlicesIn(hash, a) + SlicesIn(hash, b)
  {
  }

  lemma SameTogether(front: seq<Slice>, left: seq<Slice>, one: seq<Slice>, right: seq<Slice>)
    requires multiset(front) == multiset(left + right)
    ensures multiset(front + one) == multiset(left + one + right)
  {
    assert multiset(left + one + right) == multiset(left) + multiset(one) + multiset(right);
  }

  lemma {:induction false} SameListing(a: seq<int>, b: seq<int>)
    requires forall i, j :: 0 <= i < j < |a| ==> a[i] != a[j]
    requires forall i, j :: 0 <= i < j < |b| ==> b[i] != b[j]
    requires forall p :: p in a <==> p in b
    ensures multiset(a) == multiset(b)
  {
    forall p ensures multiset(a)[p] == multiset(b)[p] {
      Once(a, p);
      Once(b, p);
    }
  }

  lemma {:induction false} Once(a: seq<int>, p: int)
    requires forall i, j :: 0 <= i < j < |a| ==> a[i] != a[j]
    ensures multiset(a)[p] == if p in a then 1 else 0
  {
    if a != [] {
      var front := a[..|a| - 1];
      Once(front, p);
      assert a == front + [a[|a| - 1]];
    }
  }

  /** Every slice of the hash spans `size` and has proper dictionaries. */
  ghost predicate Uniform(hash: Hash, size: int) {
    forall p :: p in hash ==> WindowSize(hash[p]) == size && Proper(hash[p])
  }

  /** Whatever order Redis returns the fields in, a read merges to the same summary. */
  lemma ReadIgnoresFieldOrder(hash: Hash, size: int, a: seq<int>, b: seq<int>)
    requires Uniform(hash, size) && ListsFields(a, hash) && ListsFields(b, hash)
    ensures MergeOf(SlicesIn(hash, a)) == MergeOf(SlicesIn(hash, b))
  {
    hide MergeOf, Proper;
    SameListing(a, b);
    SameFieldsSameSlices(hash, a, b);
    var x, y := SlicesIn(hash, a), SlicesIn(hash, b);
    assert |multiset(x)| == |multiset(y)|;
    MergeIsCanonical(x, y);
  }
}

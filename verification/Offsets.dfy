/** Offset bookkeeping for commit-after-write: `OffsetTracker` and when what it releases is safe. */
module Offsets {
  import opened Events
  import opened Sets

  datatype TopicPartition = TopicPartition(topic: string, partition: int)

  /** For one partition: window start -> highest offset seen for that window. Negative offsets are never recorded. */
  type Pending = map<int, nat>

  function Noted(p: Pending, offset: int, start: int): Pending {
    if offset > (if start in p then p[start] else -1) then p[start := offset] else p
  }

  function Settled(p: Pending, through: int): Pending {
    map w | w in p && w <= through :: p[w]
  }

  function Remaining(p: Pending, through: int): Pending {
    map w | w in p && w > through :: p[w]
  }

  /** The largest recorded offset. */
  ghost function Highest(p: Pending): (h: nat)
    requires p.Keys != {}
    ensures exists w :: w in p && p[w] == h
    ensures forall w :: w in p ==> p[w] <= h
  {
    var w := Pick(p.Keys);
    var rest := p - {w};
    if rest.Keys == {} then
      assert forall v :: v in p && v != w ==> v in rest.Keys;
      p[w]
    else
      assert forall v :: v in p && v != w ==> v in rest.Keys && rest[v] == p[v];
      var h := Highest(rest);
      if p[w] > h then p[w] else h
  }

  /** The next offset to read once everything up to `through` is written; none if nothing of it is recorded. */
  ghost function Released(p: Pending, through: int): Option<nat> {
    if Settled(p, through).Keys == {} then None else Some(Highest(Settled(p, through)) + 1)
  }

  class OffsetTracker {
    var pending: map<TopicPartition, Pending>

    constructor ()
      ensures pending == map[]
    {
      pending := map[];
    }

    function PendingOf(tp: TopicPartition): Pending
      reads this
    {
      if tp in pending then pending[tp] else map[]
    }

    method Record(topic: string, partition: int, offset: int, start: int)
      modifies this
      ensures var tp := TopicPartition(topic, partition);
        pending == old(pending)[tp := Noted(old(PendingOf(tp)), offset, start)]
    {
      var tp := TopicPartition(topic, partition);
      if tp !in pending {
        pending := pending[tp := map[]];
      }
      var perWindow := pending[tp];
      if offset > (if start in perWindow then perWindow[start] else -1) {
        pending := pending[tp := perWindow[start := offset]];
      }
    }

    method ReleasePartition(topic: string, partition: int, through: int) returns (next: Option<nat>)
      modifies this
      ensures var tp := TopicPartition(topic, partition);
        && next == Released(old(PendingOf(tp)), through)
        && pending == (if next.None? then old(pending) else old(pending)[tp := Remaining(old(PendingOf(tp)), through)])
    {
      var tp := TopicPartition(topic, partition);
      if tp !in pending || |pending[tp]| == 0 {
        assert old(PendingOf(tp)) == map[];
        assert Settled(old(PendingOf(tp)), through).Keys == {};
        return None;
      }
      var perWindow := pending[tp];
      var done := set w | w in perWindow && w <= through;
      assert done == Settled(perWindow, through).Keys;
      if done == {} {
        return None;
      }
      var highest := HighestOf(perWindow, done);
      HighestIsUnique(Settled(perWindow, through), highest);
      var left := DeleteAll(perWindow, done);
      assert left == Remaining(perWindow, through);
      pending := pending[tp := left];
      return Some(highest + 1);
    }

    /** Drop state for a partition no longer owned. */
    method Forget(topic: string, partition: int)
      modifies this
      ensures pending == old(pending) - {TopicPartition(topic, partition)}
    {
      pending := pending - {TopicPartition(topic, partition)};
    }
  }

  method HighestOf(p: Pending, done: set<int>) returns (h: nat)
    requires done != {} && done <= p.Keys
    ensures exists w :: w in done && p[w] == h
    ensures forall w :: w in done ==> p[w] <= h
  {
    ghost var some := Pick(done);
    var first: int :| first in done;
    h := p[first];
    var todo := done - {first};
    while todo != {}
      invariant todo <= done
      invariant exists w :: w in done && p[w] == h
      invariant forall w :: w in done - todo ==> p[w] <= h
      decreases todo
    {
      ghost var another := Pick(todo);
      var w: int :| w in todo;
      if p[w] > h {
        h := p[w];
      }
      todo := todo - {w};
    }
  }

  method DeleteAll(p: Pending, done: set<int>) returns (left: Pending)
    ensures left == p - done
  {
    left := p;
    var todo := done;
    while todo != {}
      invariant todo <= done && left == p - (done - todo)
      decreases todo
    {
      ghost var another := Pick(todo);
      var w: int :| w in todo;
      left := left - {w};
      todo := todo - {w};
    }
  }

  lemma HighestIsUnique(p: Pending, h: nat)
    requires p.Keys != {}
    requires exists w :: w in p && p[w] == h
    requires forall w :: w in p ==> p[w] <= h
    ensures h == Highest(p)
  {
  }

  // ------------------------------------------------------------------
  // When a release is safe
  // ------------------------------------------------------------------

  /** What is pending after recording offsets `base`, `base + 1`, ... with these window starts. */
  function NotedAll(base: nat, starts: seq<int>): Pending {
    if starts == [] then map[]
    else Noted(NotedAll(base, starts[..|starts| - 1]), base + |starts| - 1, starts[|starts| - 1])
  }

  /** Each window is pending at the last offset that fell into it. */
  ghost predicate LastOffsets(p: Pending, base: nat, starts: seq<int>) {
    && (forall i :: 0 <= i < |starts| ==> starts[i] in p && p[starts[i]] >= base + i)
    && (forall w :: w in p ==> base <= p[w] < base + |starts| && starts[p[w] - base] == w)
  }

  lemma {:induction false} NotedAllKeepsLast(base: nat, starts: seq<int>)
    ensures LastOffsets(NotedAll(base, starts), base, starts)
  {
    if starts != [] {
      var prior := starts[..|starts| - 1];
      NotedAllKeepsLast(base, prior);
      forall i | 0 <= i < |starts| ensures starts[i] in NotedAll(base, starts) {
        if i < |prior| { assert starts[i] == prior[i]; }
      }
    }
  }

  /** What is pending after recording (offset, window start) pairs in any order. */
  function NotedPairs(records: seq<(nat, int)>): Pending {
    if records == [] then map[]
    else
      var (offset, start) := records[|records| - 1];
      Noted(NotedPairs(records[..|records| - 1]), offset, start)
  }

  /** In whatever order offsets arrive, a window is pending at the highest one recorded for it. */
  lemma {:induction false} RecordKeepsHighest(records: seq<(nat, int)>)
    ensures forall i :: 0 <= i < |records| ==>
      records[i].1 in NotedPairs(records) && NotedPairs(records)[records[i].1] >= records[i].0
    ensures forall w :: w in NotedPairs(records) ==> (NotedPairs(records)[w], w) in records
  {
    if records != [] {
      var front, last := records[..|records| - 1], records[|records| - 1];
      RecordKeepsHighest(front);
      assert records == front + [last];
      forall i | 0 <= i < |records|
        ensures records[i].1 in NotedPairs(records) && NotedPairs(records)[records[i].1] >= records[i].0
      {
        if i < |front| { assert records[i] == front[i]; }
      }
    }
  }

  /** No message below `next` sits in a window newer than `through`. */
  ghost predicate Safe(base: nat, starts: seq<int>, through: int, next: int) {
    forall i :: 0 <= i < |starts| && base + i < next ==> starts[i] <= through
  }

  /** The messages of the written windows come first. */
  predicate SettledFirst(starts: seq<int>, through: int) {
    forall i, j :: 0 <= i < j < |starts| && starts[j] <= through ==> starts[i] <= through
  }

  /** The release points just past the last consumed message of a written window. */
  lemma ReleasePointsPastLast(p: Pending, base: nat, starts: seq<int>, through: int) returns (h: int)
    requires LastOffsets(p, base, starts) && Released(p, through).Some?
    ensures 0 <= h < |starts| && Released(p, through).value == base + h + 1
    ensures starts[h] <= through && forall j :: h < j < |starts| ==> starts[j] > through
  {
    var done := Settled(p, through);
    h := Highest(done) - base;
    forall j | 0 <= j < |starts| && starts[j] <= through ensures j <= h {
      assert starts[j] in done && done[starts[j]] <= h + base;
    }
  }

  lemma ReleaseExists(base: nat, starts: seq<int>, through: int)
    ensures Released(NotedAll(base, starts), through).Some? <==> exists j :: 0 <= j < |starts| && starts[j] <= through
  {
    var p := NotedAll(base, starts);
    NotedAllKeepsLast(base, starts);
    if j :| 0 <= j < |starts| && starts[j] <= through {
      assert starts[j] in Settled(p, through).Keys;
    } else {
      assert Settled(p, through).Keys == {};
    }
  }

  /**
   * Releasing through a window start never passes a message of an open window if and only if no consumed message of
   * a written window follows one of an open window.
   */
  lemma ReleaseIsSafeIff(base: nat, starts: seq<int>, through: int)
    ensures var r := Released(NotedAll(base, starts), through);
      r.Some? ==> (Safe(base, starts, through, r.value) <==> SettledFirst(starts, through))
  {
    hide NotedAll;
    if Released(NotedAll(base, starts), through).Some? {
      NotedAllKeepsLast(base, starts);
      var h := ReleasePointsPastLast(NotedAll(base, starts), base, starts, through);
    }
  }

  predicate NonDecreasing(starts: seq<int>) {
    forall i, j :: 0 <= i < j < |starts| ==> starts[i] <= starts[j]
  }

  /** Every possible release is safe if and only if the window starts never decrease along the log. */
  lemma EveryReleaseIsSafeIff(base: nat, starts: seq<int>)
    ensures (forall through :: var r := Released(NotedAll(base, starts), through);
               r.Some? ==> Safe(base, starts, through, r.value))
            <==> NonDecreasing(starts)
  {
    hide NotedAll;
    forall through { ReleaseIsSafeIff(base, starts, through); }
    if i, j :| 0 <= i < j < |starts| && starts[i] > starts[j] {
      ReleaseExists(base, starts, starts[j]);
      assert !SettledFirst(starts, starts[j]);
    }
  }
}

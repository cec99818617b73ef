/** The sink under expiry: what Redis holds after any interleaving of write batches and lapsed TTLs. */
module Expiry {
  import opened Sets
  import opened SinkHistory
  import opened Sinks
  import opened Tallies

  /** A batch of the script, or the TTL of one window's hash running out. */
  datatype SinkStep = Wrote(batch: seq<Write>) | Lapsed(start: int)

  ghost function StoreAfter(k: int, steps: seq<SinkStep>): Store {
    if steps == [] then EMPTY
    else
      var before := StoreAfter(k, steps[..|steps| - 1]);
      match steps[|steps| - 1]
      case Wrote(batch) => Batch(k, before, batch)
      case Lapsed(start) => Expired(before, start)
  }

  function WritesOf(steps: seq<SinkStep>): seq<Write> {
    if steps == [] then []
    else
      var before := WritesOf(steps[..|steps| - 1]);
      match steps[|steps| - 1]
      case Wrote(batch) => before + batch
      case Lapsed(_) => before
  }

  /** The last writes to one window since its TTL last ran out. */
  function Live(steps: seq<SinkStep>, start: int): Hash {
    if steps == [] then map[]
    else
      var before := Live(steps[..|steps| - 1], start);
      match steps[|steps| - 1]
      case Wrote(batch) => before + LastWrites(batch, start)
      case Lapsed(w) => if w == start then map[] else before
  }

  /** The reference state: the newest starts ever written; of those, the windows with live writes. */
  ghost function Remembered(k: int, steps: seq<SinkStep>): Store {
    var newest := Largest(Starts(WritesOf(steps)), k);
    Store(newest, map start | start in newest && Live(steps, start) != map[] :: Live(steps, start))
  }

  lemma {:induction false} LiveWasWritten(steps: seq<SinkStep>, start: int)
    requires Live(steps, start) != map[]
    ensures start in Starts(WritesOf(steps))
  {
    var before := steps[..|steps| - 1];
    if steps[|steps| - 1].Wrote? {
      var batch := steps[|steps| - 1].batch;
      StartsOfConcat(WritesOf(before), batch);
      if Live(before, start) != map[] {
        LiveWasWritten(before, start);
      } else {
        WrittenIffStart(batch, start);
      }
    } else {
      LiveWasWritten(before, start);
    }
  }

  /** What is live is the last write to its key. */
  lemma {:induction false} LiveIsLast(steps: seq<SinkStep>, start: int, p: int)
    requires p in Live(steps, start)
    ensures p in LastWrites(WritesOf(steps), start) && Live(steps, start)[p] == LastWrites(WritesOf(steps), start)[p]
  {
    var before := steps[..|steps| - 1];
    if steps[|steps| - 1].Wrote? {
      LastWritesOfConcat(WritesOf(before), steps[|steps| - 1].batch, start);
      if p in Live(before, start) { LiveIsLast(before, start, p); }
    } else {
      LiveIsLast(before, start, p);
    }
  }

  lemma WroteExtends(k: int, steps: seq<SinkStep>, batch: seq<Write>)
    ensures Batch(k, Remembered(k, steps), batch) == Remembered(k, steps + [Wrote(batch)])
  {
    hide Largest, LastWrites, WriteAll, Starts;
    var all := steps + [Wrote(batch)];
    assert all[..|steps|] == steps;
    var was, r := Remembered(k, steps), Batch(k, Remembered(k, steps), batch);
    WriteAllIndex(was, batch);
    StartsOfConcat(WritesOf(steps), batch);
    TrimBeforeUnion(Starts(WritesOf(steps)), Starts(batch), k);
    var newest := Largest(Starts(WritesOf(all)), k);
    assert r.index == newest;
    LargestIsPart(was.index + Starts(batch), k);
    forall start | start in newest
      ensures start in r.hashes <==> Live(all, start) != map[]
      ensures start in r.hashes ==> r.hashes[start] == Live(all, start)
    {
      WriteAllFields(was, batch, start);
      WrittenIffStart(batch, start);
      EarlierLive(k, steps, batch, start);
    }
    assert r.hashes.Keys == Remembered(k, all).hashes.Keys;
  }

  lemma EarlierLive(k: int, steps: seq<SinkStep>, batch: seq<Write>, start: int)
    requires start in Largest(Starts(WritesOf(steps)) + Starts(batch), k)
    ensures Fields(Remembered(k, steps).hashes, start) == Live(steps, start)
    ensures start in Remembered(k, steps).hashes <==> Live(steps, start) != map[]
  {
    hide Largest;
    var starts := Starts(WritesOf(steps));
    if start !in Largest(starts, k) {
      if start in starts { TrimmedStaysTrimmed(starts, Starts(batch), k, start); }
      if Live(steps, start) != map[] { LiveWasWritten(steps, start); }
    }
  }

  lemma LapsedExtends(k: int, steps: seq<SinkStep>, start: int)
    ensures Expired(Remembered(k, steps), start) == Remembered(k, steps + [Lapsed(start)])
  {
    hide Largest;
    assert (steps + [Lapsed(start)])[..|steps|] == steps;
  }

  /** Whatever is written, trimmed and expired, the sink is its reference state. */
  lemma {:induction false} SinkRemembersLiveWrites(k: int, steps: seq<SinkStep>)
    ensures StoreAfter(k, steps) == Remembered(k, steps)
  {
    hide Largest, Batch;
    if steps == [] {
      NothingWritten(k);
    } else {
      var before := steps[..|steps| - 1];
      SinkRemembersLiveWrites(k, before);
      assert steps == before + [steps[|steps| - 1]];
      match steps[|steps| - 1]
      case Wrote(batch) => WroteExtends(k, before, batch);
      case Lapsed(start) => LapsedExtends(k, before, start);
    }
  }

  lemma NothingWritten(k: int)
    ensures Remembered(k, []) == EMPTY
  {
    assert Starts([]) == {};
  }

  // ------------------------------------------------------------------
  // Which keys are live
  // ------------------------------------------------------------------

  /** The keys of some writes: window start and partition. */
  ghost function KeysOf(writes: seq<Write>): set<(int, int)> {
    set w | w in writes :: (w.slice.windowStart, w.partition)
  }

  /** The keys written since the hash of their window last expired. */
  ghost function LiveKeys(steps: seq<SinkStep>): set<(int, int)> {
    if steps == [] then {}
    else
      var before := LiveKeys(steps[..|steps| - 1]);
      match steps[|steps| - 1]
      case Wrote(batch) => before + KeysOf(batch)
      case Lapsed(start) => set key | key in before && key.0 != start
  }

  lemma KeyIffWritten(writes: seq<Write>, start: int, p: int)
    ensures (start, p) in KeysOf(writes) <==> p in LastWrites(writes, start)
  {
    hide LastWrites;
    LastWriteWins(writes, start, p);
    if i :| 0 <= i < |writes| && writes[i].partition == p && writes[i].slice.windowStart == start {
      assert writes[i] in writes;
    }
  }

  lemma {:induction false} LiveIffKey(steps: seq<SinkStep>, start: int, p: int)
    ensures p in Live(steps, start) <==> (start, p) in LiveKeys(steps)
  {
    hide KeysOf, LastWrites;
    if steps != [] {
      LiveIffKey(steps[..|steps| - 1], start, p);
      if steps[|steps| - 1].Wrote? { KeyIffWritten(steps[|steps| - 1].batch, start, p); }
    }
  }

  lemma LiveKeysAreWritten(steps: seq<SinkStep>)
    ensures LiveKeys(steps) <= KeysOf(WritesOf(steps))
  {
    hide LiveKeys, KeysOf, LastWrites, Live;
    forall key | key in LiveKeys(steps) ensures key in KeysOf(WritesOf(steps)) {
      LiveIffKey(steps, key.0, key.1);
      LiveIsLast(steps, key.0, key.1);
      KeyIffWritten(WritesOf(steps), key.0, key.1);
    }
  }

  /** Every partition that wrote the window has written it since its hash last expired. */
  ghost predicate Intact(steps: seq<SinkStep>, start: int) {
    forall p :: (start, p) in KeysOf(WritesOf(steps)) ==> (start, p) in LiveKeys(steps)
  }

  /** A hash holds all the last writes to its window if and only if each of them is live. */
  lemma HashIsWholeIff(k: int, steps: seq<SinkStep>, start: int)
    requires start in StoreAfter(k, steps).hashes
    ensures StoreAfter(k, steps).hashes[start] == LastWrites(WritesOf(steps), start) <==> Intact(steps, start)
  {
    hide LastWrites, Live, LiveKeys, KeysOf, Largest, StoreAfter;
    SinkRemembersLiveWrites(k, steps);
    var live, last := Live(steps, start), LastWrites(WritesOf(steps), start);
    forall p
      ensures (start, p) in KeysOf(WritesOf(steps)) <==> p in last
      ensures (start, p) in LiveKeys(steps) <==> p in live
      ensures p in live ==> p in last && live[p] == last[p]
    {
      KeyIffWritten(WritesOf(steps), start, p);
      LiveIffKey(steps, start, p);
      if p in live { LiveIsLast(steps, start, p); }
    }
    if Intact(steps, start) {
      forall p | p in last ensures p in live {
        assert (start, p) in KeysOf(WritesOf(steps));
      }
      assert live.Keys == last.Keys;
    }
  }

  /** Without any expiry all that was written is live, and the sink is what it would be if hashes never expired. */
  lemma {:induction false} NoLapseAllLive(k: int, steps: seq<SinkStep>)
    requires forall s :: s in steps ==> s.Wrote?
    ensures LiveKeys(steps) == KeysOf(WritesOf(steps))
    ensures StoreAfter(k, steps) == Retained(k, WritesOf(steps))
  {
    hide KeysOf, Batch, Retained;
    if steps == [] {
      NothingRetained(k);
    } else {
      var before, last := steps[..|steps| - 1], steps[|steps| - 1];
      assert last in steps;
      NoLapseAllLive(k, before);
      BatchExtends(k, WritesOf(before), last.batch);
      KeysOfConcat(WritesOf(before), last.batch);
    }
  }

  lemma NothingRetained(k: int)
    ensures Retained(k, []) == EMPTY && KeysOf([]) == {}
  {
    assert Starts([]) == {};
  }

  lemma KeysOfConcat(a: seq<Write>, b: seq<Write>)
    ensures KeysOf(a + b) == KeysOf(a) + KeysOf(b)
  {
  }

  /** Two partitions write a window, its hash expires, and one of them writes again: the other's slice is missing. */
  lemma LapseLeavesPartOfAWindow(k: int, a: Slice, b: Slice)
    requires k > 0 && a.windowStart == b.windowStart == 0
    ensures var steps := [Wrote([Write(0, a), Write(1, b)]), Lapsed(0), Wrote([Write(0, a)])];
      && 0 in StoreAfter(k, steps).index && 0 in StoreAfter(k, steps).hashes
      && StoreAfter(k, steps).hashes[0] == map[0 := a]
      && LastWrites(WritesOf(steps), 0) == map[0 := a, 1 := b]
  {
    hide *;
    var both, one := [Write(0, a), Write(1, b)], [Write(0, a)];
    var steps := [Wrote(both), Lapsed(0), Wrote(one)];
    WrittenOnce(a);
    WrittenTwice(a, b);
    ThreeSteps(both, one);
    LastWritesOfConcat(both, one, 0);
    SinkRemembersLiveWrites(k, steps);
    OneStart(k, both + one);
    assert 0 in Live(steps, 0);
    RemembersOne(k, steps, 0);
  }

  lemma WrittenOnce(a: Slice)
    requires a.windowStart == 0
    ensures LastWrites([Write(0, a)], 0) == map[0 := a]
  {
    var one := [Write(0, a)];
    assert one[..|one| - 1] == [];
  }

  lemma WrittenTwice(a: Slice, b: Slice)
    requires a.windowStart == b.windowStart == 0
    ensures LastWrites([Write(0, a), Write(1, b)], 0) == map[0 := a, 1 := b]
  {
    WrittenOnce(a);
    var both := [Write(0, a), Write(1, b)];
    assert both[..|both| - 1] == [Write(0, a)];
  }

  lemma ThreeSteps(first: seq<Write>, second: seq<Write>)
    ensures var steps := [Wrote(first), Lapsed(0), Wrote(second)];
      WritesOf(steps) == first + second && Live(steps, 0) == LastWrites(second, 0)
  {
    hide LastWrites;
    var one, two := [Wrote(first)], [Wrote(first), Lapsed(0)];
    var three := [Wrote(first), Lapsed(0), Wrote(second)];
    assert one[..|one| - 1] == [] && two[..|two| - 1] == one && three[..|three| - 1] == two;
    assert WritesOf(one) == first && Live(two, 0) == map[];
  }

  lemma RemembersOne(k: int, steps: seq<SinkStep>, start: int)
    requires start in Largest(Starts(WritesOf(steps)), k) && Live(steps, start) != map[]
    ensures start in Remembered(k, steps).index && start in Remembered(k, steps).hashes
    ensures Remembered(k, steps).hashes[start] == Live(steps, start)
  {
  }

  lemma OneStart(k: int, writes: seq<Write>)
    requires k > 0 && writes != [] && forall w :: w in writes ==> w.slice.windowStart == 0
    ensures Largest(Starts(writes), k) == {0}
  {
    assert writes[0] in writes && writes[0].slice.windowStart in Starts(writes);
    assert Starts(writes) == {0};
    assert Above(Starts(writes), 0) == {};
  }

  // ------------------------------------------------------------------
  // Bounds a reader relies on
  // ------------------------------------------------------------------

  /** The k largest of a set are k of them, or all if there are fewer. */
  lemma LargestSize(s: set<int>, k: int)
    ensures |Largest(s, k)| == if k <= 0 then 0 else if |s| < k then |s| else k
  {
    var top := Largest(s, k);
    SmallerSet(top, s);
    if k > 0 && s - top != {} {
      var y := Greatest(s - top);
      assert y !in top && y in s;
      forall x | x in Above(s, y) ensures x in top { assert x !in s - top; }
      assert Above(s, y) <= top;
      SmallerSet(Above(s, y), top);
    } else if k > 0 {
      forall x | x in s ensures x in top { assert x !in s - top; }
      assert top == s;
    }
    if top != {} {
      var x := Least(top);
      assert top - {x} <= Above(s, x);
      SmallerSet(top - {x}, Above(s, x));
    }
  }

  ghost function Least(s: set<int>): (x: int)
    requires s != {}
    ensures x in s && forall y :: y in s ==> x <= y
  {
    var x := Pick(s);
    var rest := s - {x};
    assert s == rest + {x};
    if rest == {} then x
    else
      var y := Least(rest);
      if x < y then x else y
  }

  /** Every hash belongs to an indexed start, has fields, and holds only slices of its own window. */
  ghost predicate Keyed(s: Store) {
    && s.hashes.Keys <= s.index
    && forall start :: start in s.hashes ==>
         s.hashes[start] != map[] && forall p :: p in s.hashes[start] ==> s.hashes[start][p].windowStart == start
  }

  lemma {:induction false} LastWritesAreKeyed(writes: seq<Write>, start: int)
    ensures forall p :: p in LastWrites(writes, start) ==> LastWrites(writes, start)[p].windowStart == start
  {
    if writes != [] { LastWritesAreKeyed(writes[..|writes| - 1], start); }
  }

  /** After any writes, trims and expiries the index is bounded and the hashes are keyed by it. */
  lemma StoreStaysKeyed(k: int, steps: seq<SinkStep>)
    ensures Keyed(StoreAfter(k, steps))
    ensures var written := |Starts(WritesOf(steps))|;
      |StoreAfter(k, steps).index| == if k <= 0 then 0 else if written < k then written else k
  {
    hide Largest, LastWrites, Starts;
    SinkRemembersLiveWrites(k, steps);
    LargestSize(Starts(WritesOf(steps)), k);
    var s := Remembered(k, steps);
    forall start, p | start in s.hashes && p in s.hashes[start] ensures s.hashes[start][p].windowStart == start {
      LiveIsLast(steps, start, p);
      LastWritesAreKeyed(WritesOf(steps), start);
    }
  }
}

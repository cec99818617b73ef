/** What the sink holds after any history of writes: the last write per key, for the newest starts. */
module SinkHistory {
  import opened Sets
  import opened Sinks

  ghost function Starts(writes: seq<Write>): set<int> {
    set i | 0 <= i < |writes| :: writes[i].slice.windowStart
  }

  /** The last write of each partition to one window. */
  function LastWrites(writes: seq<Write>, start: int): Hash {
    if writes == [] then map[]
    else
      var last, prior := writes[|writes| - 1], LastWrites(writes[..|writes| - 1], start);
      if last.slice.windowStart == start then prior[last.partition := last.slice] else prior
  }

  /** The reference state: the `k` newest starts ever written, each with its last writes. */
  ghost function Retained(k: int, writes: seq<Write>): Store {
    Store(Largest(Starts(writes), k), map start | start in Largest(Starts(writes), k) :: LastWrites(writes, start))
  }

  // ------------------------------------------------------------------
  // Facts about the reference
  // ------------------------------------------------------------------

  lemma StartsOfConcat(a: seq<Write>, b: seq<Write>)
    ensures Starts(a + b) == Starts(a) + Starts(b)
  {
    forall x | x in Starts(a) ensures x in Starts(a + b) {
      var i :| 0 <= i < |a| && a[i].slice.windowStart == x;
      assert (a + b)[i] == a[i];
    }
    forall x | x in Starts(b) ensures x in Starts(a + b) {
      var i :| 0 <= i < |b| && b[i].slice.windowStart == x;
      assert (a + b)[|a| + i] == b[i];
    }
  }

  lemma StartsOfOne(w: Write)
    ensures Starts([w]) == {w.slice.windowStart}
  {
    assert [w][0] == w;
  }

  /** Later writes override earlier ones, key by key. */
  lemma {:induction false} LastWritesOfConcat(a: seq<Write>, b: seq<Write>, start: int)
    ensures LastWrites(a + b, start) == LastWrites(a, start) + LastWrites(b, start)
  {
    if b == [] {
      assert a + b == a;
    } else {
      assert (a + b)[..|a + b| - 1] == a + b[..|b| - 1];
      LastWritesOfConcat(a, b[..|b| - 1], start);
    }
  }

  lemma {:induction false} WrittenIffStart(writes: seq<Write>, start: int)
    ensures LastWrites(writes, start) != map[] <==> start in Starts(writes)
  {
    if writes != [] {
      var prior, last := writes[..|writes| - 1], writes[|writes| - 1];
      WrittenIffStart(prior, start);
      assert writes == prior + [last];
      StartsOfConcat(prior, [last]);
      StartsOfOne(last);
      if last.slice.windowStart == start {
        assert last.partition in LastWrites(writes, start);
      }
    }
  }

  /** A field holds the slice of the last write to its key. */
  lemma {:induction false} LastWriteWins(writes: seq<Write>, start: int, p: int)
    ensures p in LastWrites(writes, start) <==>
      exists i :: 0 <= i < |writes| && writes[i].partition == p && writes[i].slice.windowStart == start
    ensures p in LastWrites(writes, start) ==>
      exists i :: 0 <= i < |writes| && writes[i] == Write(p, LastWrites(writes, start)[p])
                  && writes[i].slice.windowStart == start
                  && forall j :: i < j < |writes| ==> writes[j].partition != p || writes[j].slice.windowStart != start
  {
    if writes != [] {
      var prior, n := writes[..|writes| - 1], |writes| - 1;
      LastWriteWins(prior, start, p);
      if writes[n].partition == p && writes[n].slice.windowStart == start {
        assert writes[n] == Write(p, LastWrites(writes, start)[p]);
      } else if p in LastWrites(prior, start) {
        var i :| 0 <= i < |prior| && prior[i] == Write(p, LastWrites(prior, start)[p])
                 && prior[i].slice.windowStart == start
                 && forall j :: i < j < |prior| ==> prior[j].partition != p || prior[j].slice.windowStart != start;
        assert writes[i] == prior[i];
        assert forall j :: i < j < |writes| ==>
          (j < n ==> writes[j] == prior[j]) && (writes[j].partition != p || writes[j].slice.windowStart != start);
      } else {
        forall i | 0 <= i < |writes| ensures !(writes[i].partition == p && writes[i].slice.windowStart == start) {
          if i < n { assert writes[i] == prior[i]; }
        }
      }
    }
  }

  // ------------------------------------------------------------------
  // Keeping the largest, batch after batch
  // ------------------------------------------------------------------

  lemma SmallerSet(a: set<int>, b: set<int>)
    requires a <= b
    ensures |a| <= |b|
  {
    assert b == a + (b - a);
  }

  ghost function Greatest(s: set<int>): (x: int)
    requires s != {}
    ensures x in s && forall y :: y in s ==> y <= x
  {
    var x := Pick(s);
    var rest := s - {x};
    assert s == rest + {x};
    if rest == {} then x
    else
      var y := Greatest(rest);
      if x > y then x else y
  }

  /** Trimming before a union changes nothing: top(top(s) + b) == top(s + b). */
  lemma TrimBeforeUnion(s: set<int>, b: set<int>, k: int)
    ensures Largest(Largest(s, k) + b, k) == Largest(s + b, k)
  {
    var t := Largest(s, k);
    forall x | x in s + b
      ensures x in Largest(t + b, k) <==> x in Largest(s + b, k)
    {
      SmallerSet(Above(t + b, x), Above(s + b, x));
      if x in Largest(s + b, k) {
        SmallerSet(Above(s, x), Above(s + b, x));
      } else if x in t + b {
        var lost := Above(s, x) - t;
        if lost == {} {
          forall y | y in Above(s, x) ensures y in t { assert y !in lost; }
          assert Above(s + b, x) == Above(t + b, x);
        } else {
          var y := Greatest(lost);
          forall z | z in Above(s, y) ensures z in Above(t + b, x) { assert z !in lost; }
          assert Above(s, y) <= Above(t + b, x);
          SmallerSet(Above(s, y), Above(t + b, x));
        }
      }
    }
  }

  /** A start trimmed once is never among the largest again, whatever is added. */
  lemma TrimmedStaysTrimmed(s: set<int>, b: set<int>, k: int, x: int)
    requires x in s && x !in Largest(s, k)
    ensures x !in Largest(s + b, k)
  {
    SmallerSet(Above(s, x), Above(s + b, x));
  }

  lemma {:induction false} WriteAllIndex(s: Store, batch: seq<Write>)
    ensures WriteAll(s, batch).index == s.index + Starts(batch)
    ensures WriteAll(s, batch).hashes.Keys == s.hashes.Keys + Starts(batch)
  {
    if batch != [] {
      var prior, last := batch[..|batch| - 1], batch[|batch| - 1];
      WriteAllIndex(s, prior);
      assert batch == prior + [last];
      StartsOfConcat(prior, [last]);
      StartsOfOne(last);
    }
  }

  lemma {:induction false} WriteAllFields(s: Store, batch: seq<Write>, start: int)
    ensures Fields(WriteAll(s, batch).hashes, start) == Fields(s.hashes, start) + LastWrites(batch, start)
  {
    if batch != [] {
      WriteAllFields(s, batch[..|batch| - 1], start);
    }
  }

  /** One more batch on the reference state is the reference state of the longer history. */
  lemma BatchExtends(k: int, writes: seq<Write>, batch: seq<Write>)
    ensures Batch(k, Retained(k, writes), batch) == Retained(k, writes + batch)
  {
    hide Largest, LastWrites;
    var was, r, all := Retained(k, writes), Batch(k, Retained(k, writes), batch), Largest(Starts(writes + batch), k);
    WriteAllIndex(was, batch);
    StartsOfConcat(writes, batch);
    TrimBeforeUnion(Starts(writes), Starts(batch), k);
    LargestIsPart(was.index + Starts(batch), k);
    forall start | start in all ensures start in r.hashes && r.hashes[start] == LastWrites(writes + batch, start) {
      WriteAllFields(was, batch, start);
      LastWritesOfConcat(writes, batch, start);
      EarlierFields(k, writes, batch, start);
    }
    assert r.hashes.Keys == all;
  }

  lemma LargestIsPart(s: set<int>, k: int)
    ensures Largest(s, k) <= s
  {
  }

  /** What the reference state holds of a start that stays retained is all that was ever written there. */
  lemma EarlierFields(k: int, writes: seq<Write>, batch: seq<Write>, start: int)
    requires start in Largest(Starts(writes) + Starts(batch), k)
    ensures Fields(Retained(k, writes).hashes, start) == LastWrites(writes, start)
  {
    hide Largest, LastWrites;
    if start !in Largest(Starts(writes), k) {
      if start in Starts(writes) { TrimmedStaysTrimmed(Starts(writes), Starts(batch), k, start); }
      WrittenIffStart(writes, start);
    }
  }

  function Flatten(batches: seq<seq<Write>>): seq<Write> {
    if batches == [] then [] else Flatten(batches[..|batches| - 1]) + batches[|batches| - 1]
  }

  ghost function RunBatches(k: int, batches: seq<seq<Write>>): Store {
    if batches == [] then EMPTY else Batch(k, RunBatches(k, batches[..|batches| - 1]), batches[|batches| - 1])
  }

  /** The sink refines its reference: only the order of writes matters, not how they were batched or by whom. */
  lemma {:induction false} SinkRefinesLastWrites(k: int, batches: seq<seq<Write>>)
    ensures RunBatches(k, batches) == Retained(k, Flatten(batches))
  {
    if batches != [] {
      SinkRefinesLastWrites(k, batches[..|batches| - 1]);
      BatchExtends(k, Flatten(batches[..|batches| - 1]), batches[|batches| - 1]);
    }
  }

  // ------------------------------------------------------------------
  // Replica algebra
  // ------------------------------------------------------------------

  /** Two histories that last wrote the same slices to the same keys leave the same state. */
  lemma SameLastWritesSameState(k: int, a: seq<Write>, b: seq<Write>)
    requires forall start :: LastWrites(a, start) == LastWrites(b, start)
    ensures Retained(k, a) == Retained(k, b)
  {
    forall start ensures start in Starts(a) <==> start in Starts(b) {
      WrittenIffStart(a, start);
      WrittenIffStart(b, start);
    }
    assert Starts(a) == Starts(b);
  }

  /** Replaying a suffix of the history, in order, changes nothing. */
  lemma ReplayChangesNothing(k: int, writes: seq<Write>, i: nat)
    requires i <= |writes|
    ensures Retained(k, writes + writes[i..]) == Retained(k, writes)
  {
    forall start ensures LastWrites(writes + writes[i..], start) == LastWrites(writes, start) {
      LastWritesOfConcat(writes, writes[i..], start);
      LastWritesOfConcat(writes[..i], writes[i..], start);
      assert writes[..i] + writes[i..] == writes;
    }
    SameLastWritesSameState(k, writes + writes[i..], writes);
  }

  lemma DisjointOverrides(x: Hash, y: Hash, z: Hash)
    requires y.Keys !! z.Keys
    ensures x + y + z == x + z + y
  {
  }

  ghost predicate DisjointKeys(a: seq<Write>, b: seq<Write>) {
    forall i, j :: 0 <= i < |a| && 0 <= j < |b| ==>
      a[i].partition != b[j].partition || a[i].slice.windowStart != b[j].slice.windowStart
  }

  /** Batches from replicas that own different partitions commute, wherever they fall in the history. */
  lemma ReplicasCommute(k: int, before: seq<Write>, a: seq<Write>, b: seq<Write>, after: seq<Write>)
    requires DisjointKeys(a, b)
    ensures Retained(k, before + a + b + after) == Retained(k, before + b + a + after)
  {
    forall start ensures LastWrites(before + a + b + after, start) == LastWrites(before + b + a + after, start) {
      LastWritesOfConcat(before + a + b, after, start);
      LastWritesOfConcat(before + a, b, start);
      LastWritesOfConcat(before, a, start);
      LastWritesOfConcat(before + b + a, after, start);
      LastWritesOfConcat(before + b, a, start);
      LastWritesOfConcat(before, b, start);
      forall p ensures !(p in LastWrites(a, start) && p in LastWrites(b, start)) {
        LastWriteWins(a, start, p);
        LastWriteWins(b, start, p);
      }
      DisjointOverrides(LastWrites(before, start), LastWrites(a, start), LastWrites(b, start));
    }
    SameLastWritesSameState(k, before + a + b + after, before + b + a + after);
  }
}

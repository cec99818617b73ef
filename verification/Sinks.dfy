/** The Redis sink: a bounded index of window starts and one hash of per-partition slices for each. */
module Sinks {
  import opened Events
  import opened Tallies

  /** One partition's summary, addressed by (window start, partition). */
  datatype Write = Write(partition: int, slice: Slice)

  /** The fields of one window: partition -> slice. */
  type Hash = map<int, Slice>

  datatype Store = Store(index: set<int>, hashes: map<int, Hash>)

  const EMPTY := Store({}, map[])

  // ------------------------------------------------------------------
  // The script, one batch at a time
  // ------------------------------------------------------------------

  function Fields(hashes: map<int, Hash>, start: int): Hash {
    if start in hashes then hashes[start] else map[]
  }

  function WriteOne(s: Store, w: Write): Store {
    var start := w.slice.windowStart;
    Store(s.index + {start}, s.hashes[start := Fields(s.hashes, start)[w.partition := w.slice]])
  }

  function WriteAll(s: Store, batch: seq<Write>): Store {
    if batch == [] then s else WriteOne(WriteAll(s, batch[..|batch| - 1]), batch[|batch| - 1])
  }

  /** The members with fewer than `k` larger members: the `k` largest of the set. */
  ghost function Largest(s: set<int>, k: int): set<int> {
    set x | x in s && |Above(s, x)| < k
  }

  ghost function Above(s: set<int>, x: int): set<int> {
    set y | y in s && y > x
  }

  /** Keep the `k` largest starts and delete the hashes of the starts dropped. */
  ghost function Trim(k: int, s: Store): Store {
    Store(Largest(s.index, k), s.hashes - (s.index - Largest(s.index, k)))
  }

  ghost function Batch(k: int, s: Store, batch: seq<Write>): Store {
    Trim(k, WriteAll(s, batch))
  }

  // ------------------------------------------------------------------
  // The sink as written: a sorted index trimmed from the front
  // ------------------------------------------------------------------

  predicate StrictlySorted(s: seq<int>) {
    forall i, j :: 0 <= i < j < |s| ==> s[i] < s[j]
  }

  ghost function Members(s: seq<int>): set<int> {
    set i | 0 <= i < |s| :: s[i]
  }

  /** `ZADD` of a member whose score is its value: a rank-ordered set. */
  function ZAdd(s: seq<int>, x: int): seq<int> {
    if s == [] || x < s[0] then [x] + s
    else if x == s[0] then s
    else [s[0]] + ZAdd(s[1..], x)
  }

  lemma MembersCons(s: seq<int>)
    requires s != []
    ensures Members(s) == {s[0]} + Members(s[1..])
  {
    forall x | x in Members(s) ensures x in {s[0]} + Members(s[1..]) {
      var i :| 0 <= i < |s| && s[i] == x;
      if i > 0 { assert s[1..][i - 1] == x; }
    }
    forall x | x in Members(s[1..]) ensures x in Members(s) {
      var i :| 0 <= i < |s[1..]| && s[1..][i] == x;
      assert s[i + 1] == x;
    }
  }

  lemma SortedCons(x: int, s: seq<int>)
    ensures StrictlySorted([x] + s) <==> StrictlySorted(s) && forall y :: y in s ==> x < y
  {
    var r := [x] + s;
    if StrictlySorted(r) {
      forall i, j | 0 <= i < j < |s| ensures s[i] < s[j] { assert r[i + 1] < r[j + 1]; }
      forall y | y in s ensures x < y {
        var i :| 0 <= i < |s| && s[i] == y;
        assert r[0] < r[i + 1];
      }
    }
    if StrictlySorted(s) && forall y :: y in s ==> x < y {
      forall i, j | 0 <= i < j < |r| ensures r[i] < r[j] {
        assert s[j - 1] in s;
        if i > 0 { assert s[i - 1] < s[j - 1]; }
      }
    }
  }

  lemma {:induction false} ZAddSorted(s: seq<int>, x: int)
    requires StrictlySorted(s)
    ensures StrictlySorted(ZAdd(s, x))
    ensures forall y :: y in ZAdd(s, x) <==> y == x || y in s
  {
    if s == [] || x < s[0] {
      SortedCons(x, s);
    } else if x > s[0] {
      assert s == [s[0]] + s[1..];
      SortedCons(s[0], s[1..]);
      ZAddSorted(s[1..], x);
      SortedCons(s[0], ZAdd(s[1..], x));
    }
  }

  lemma ZAddMembers(s: seq<int>, x: int)
    requires StrictlySorted(s)
    ensures Members(ZAdd(s, x)) == Members(s) + {x}
  {
    ZAddSorted(s, x);
    MembersAre(s);
    MembersAre(ZAdd(s, x));
  }

  lemma MembersAre(s: seq<int>)
    ensures forall x :: x in Members(s) <==> x in s
  {
  }

  lemma {:induction false} SortedSize(s: seq<int>)
    requires StrictlySorted(s)
    ensures |Members(s)| == |s|
  {
    if s != [] {
      MembersCons(s);
      assert StrictlySorted(s[1..]);
      SortedSize(s[1..]);
      assert s[0] !in Members(s[1..]);
    }
  }

  /** Dropping the front of the sorted index leaves exactly the largest members. */
  lemma TrimmedIsLargest(s: seq<int>, k: int, drop: nat)
    requires StrictlySorted(s) && drop <= |s|
    requires drop == (if |s| - k <= 0 then 0 else if k <= 0 then |s| else |s| - k)
    ensures Members(s[drop..]) == Largest(Members(s), k)
  {
    forall i | 0 <= i < |s| ensures s[i] in Members(s[drop..]) <==> s[i] in Largest(Members(s), k) {
      var rest := s[i + 1..];
      assert StrictlySorted(rest);
      SortedSize(rest);
      assert Above(Members(s), s[i]) == Members(rest) by {
        forall x | x in Above(Members(s), s[i]) ensures x in Members(rest) {
          var j :| 0 <= j < |s| && s[j] == x;
          assert j > i;
          assert rest[j - i - 1] == x;
        }
      }
      assert |Above(Members(s), s[i])| == |s| - 1 - i;
      if i >= drop { assert s[drop..][i - drop] == s[i]; }
    }
    forall x | x in Members(s[drop..]) ensures x in Members(s) {
      var j :| 0 <= j < |s[drop..]| && s[drop..][j] == x;
      assert s[drop + j] == x;
    }
  }

  // ------------------------------------------------------------------
  // The commands `RedisSink.write` sends, and the script that runs them
  // ------------------------------------------------------------------

  datatype Arg = Number(n: int) | Text(text: string) | Json(slice: Slice)

  const HEADER := 3

  /** The script's argument list: three settings, then (start, partition, slice) for every entry. */
  function Marshal(maxLen: int, prefix: string, ttl: int, batch: seq<Write>): (args: seq<Arg>)
    ensures |args| == HEADER + 3 * |batch|
    ensures forall i :: 0 <= i < |batch| ==>
      && args[HEADER + 3 * i] == Number(batch[i].slice.windowStart)
      && args[HEADER + 3 * i + 1] == Number(batch[i].partition)
      && args[HEADER + 3 * i + 2] == Json(batch[i].slice)
    ensures args[0] == Number(maxLen)
  {
    if batch == [] then [Number(maxLen), Text(prefix), Number(ttl)]
    else
      var w := batch[|batch| - 1];
      Marshal(maxLen, prefix, ttl, batch[..|batch| - 1])
      + [Number(w.slice.windowStart), Number(w.partition), Json(w.slice)]
  }

  class RedisStore {
    var index: seq<int>
    var hashes: map<int, Hash>

    ghost predicate Valid()
      reads this
    {
      StrictlySorted(index)
    }

    ghost function Value(): Store
      reads this
    {
      Store(Members(index), hashes)
    }

    constructor ()
      ensures Valid() && Value() == EMPTY
    {
      index, hashes := [], map[];
    }

    /** The write-and-trim script, atomic as Redis runs it; expiry is a step of its own (see `Expire`). */
    method RunScript(args: seq<Arg>, ghost batch: seq<Write>, ghost prefix: string, ghost ttl: int) returns (size: nat)
      requires Valid() && |args| >= HEADER && args[0].Number?
      requires args == Marshal(args[0].n, prefix, ttl, batch)
      modifies this
      ensures Valid() && Value() == Batch(args[0].n, old(Value()), batch)
      ensures size == |Value().index|
    {
      hide WriteOne, Largest, Members, StrictlySorted;
      var maxLen := args[0].n;
      var i := HEADER;
      ghost var done := 0;
      while i < |args|
        invariant 0 <= done <= |batch| && i == HEADER + 3 * done
        invariant Valid() && Value() == WriteAll(old(Value()), batch[..done])
        decreases |args| - i
      {
        assert args[i] == Number(batch[done].slice.windowStart) && args[i + 2] == Json(batch[done].slice);
        Put(args[i].n, args[i + 1].n, args[i + 2].slice);
        assert batch[..done + 1][..done] == batch[..done];
        i, done := i + 3, done + 1;
      }
      assert batch[..done] == batch;
      var excess := |index| - maxLen;
      if excess > 0 {
        DropOldest(excess, maxLen);
      } else {
        TrimmedIsLargest(index, maxLen, 0);
        assert hashes - (Members(index) - Largest(Members(index), maxLen)) == hashes;
      }
      SortedSize(index);
      size := |index|;
    }

    /** `ZADD` and `HSET` for one entry. */
    method Put(start: int, partition: int, slice: Slice)
      requires Valid() && slice.windowStart == start
      modifies this
      ensures Valid() && Value() == WriteOne(old(Value()), Write(partition, slice))
    {
      ZAddSorted(index, start);
      ZAddMembers(index, start);
      index := ZAdd(index, start);
      hashes := hashes[start := (if start in hashes then hashes[start] else map[])[partition := slice]];
    }

    /** `ZREMRANGEBYRANK` of the lowest `excess` starts and `DEL` of their hashes. */
    method DropOldest(excess: nat, ghost k: int)
      requires Valid() && excess > 0 && k == |index| - excess
      modifies this
      ensures Valid() && Value() == Trim(k, old(Value()))
    {
      var drop := if excess > |index| then |index| else excess;
      TrimmedIsLargest(index, k, drop);
      var stale := index[..drop];
      StaleIsDropped(index, drop);
      index := index[drop..];
      var j := 0;
      while j < |stale|
        invariant 0 <= j <= |stale| && index == old(index)[drop..]
        invariant hashes == old(hashes) - Members(stale[..j])
      {
        MembersSnoc(stale, j);
        hashes := hashes - {stale[j]};
        j := j + 1;
      }
      assert stale[..j] == stale;
    }

    /** The TTL of one window's hash runs out. */
    method Expire(start: int)
      requires Valid()
      modifies this
      ensures Valid() && Value() == Expired(old(Value()), start)
    {
      hashes := hashes - {start};
    }
  }

  function Expired(s: Store, start: int): Store {
    s.(hashes := s.hashes - {start})
  }

  lemma MembersSnoc(s: seq<int>, j: nat)
    requires j < |s|
    ensures Members(s[..j + 1]) == Members(s[..j]) + {s[j]}
  {
    MembersAre(s[..j + 1]);
    MembersAre(s[..j]);
    assert s[..j + 1] == s[..j] + [s[j]];
  }

  lemma StaleIsDropped(s: seq<int>, drop: nat)
    requires StrictlySorted(s) && drop <= |s|
    ensures Members(s[..drop]) == Members(s) - Members(s[drop..])
    ensures StrictlySorted(s[drop..])
  {
    MembersAre(s);
    MembersAre(s[..drop]);
    MembersAre(s[drop..]);
    forall x | x in s[..drop] ensures x !in s[drop..] {
      var i :| 0 <= i < drop && s[i] == x;
      assert forall j :: drop <= j < |s| ==> s[i] < s[j];
    }
    assert s == s[..drop] + s[drop..];
  }

  /** `RedisSink.write`: an empty batch sends nothing; otherwise the history length comes back. */
  method WriteEntries(redis: RedisStore, historyMax: int, prefix: string, ttl: int, entries: seq<Write>)
    returns (retained: Option<nat>)
    requires redis.Valid()
    modifies redis
    ensures redis.Valid()
    ensures redis.Value()
         == if entries == [] then old(redis.Value()) else Batch(historyMax, old(redis.Value()), entries)
    ensures retained == if entries == [] then None else Some(|redis.Value().index|)
  {
    if |entries| == 0 {
      return None;
    }
    var args: seq<Arg> := [Number(historyMax), Text(prefix), Number(ttl)];
    var i := 0;
    while i < |entries|
      invariant 0 <= i <= |entries|
      invariant args == Marshal(historyMax, prefix, ttl, entries[..i])
    {
      assert entries[..i + 1][..i] == entries[..i];
      args := args + [Number(entries[i].slice.windowStart)];
      args := args + [Number(entries[i].partition)];
      args := args + [Json(entries[i].slice)];
      assert args == Marshal(historyMax, prefix, ttl, entries[..i])
                     + [Number(entries[i].slice.windowStart), Number(entries[i].partition), Json(entries[i].slice)];
      i := i + 1;
    }
    assert entries[..i] == entries;
    var size := redis.RunScript(args, entries, prefix, ttl);
    return Some(size);
  }
}

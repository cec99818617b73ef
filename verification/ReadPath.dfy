/** From the logs to a reader: what the API serves is what one unpartitioned window would have counted. */
module ReadPath {
  import opened Delivery
  import opened EndToEnd
  import opened Events
  import opened Expiry
  import opened Guarantees
  import opened Lanes
  import opened Merge
  import opened Partitioned
  import opened Protocol
  import opened Reads
  import opened Sets
  import opened Sinks
  import opened Tallies
  import opened TimeSources
  import opened Windows

  /** The messages of one partition that belong to a window. */
  function Own(w: World, start: int, p: int): seq<Event>
    requires ValidWorld(w) && p in w.logs
  {
    OwnEvents(w.cfg, w.logs[p][w.origins[p]..], start)
  }

  /** The messages of a window over several partitions, in no particular order. */
  ghost function WindowEvents(w: World, start: int, ps: set<int>): multiset<Event>
    requires ValidWorld(w) && ps <= w.logs.Keys
  {
    if ps == {} then multiset{}
    else var p := Pick(ps); multiset(Own(w, start, p)) + WindowEvents(w, start, ps - {p})
  }

  lemma {:induction false} EventsWithout(w: World, start: int, ps: set<int>, p: int)
    requires ValidWorld(w) && ps <= w.logs.Keys && p in ps
    ensures WindowEvents(w, start, ps) == multiset(Own(w, start, p)) + WindowEvents(w, start, ps - {p})
  {
    hide ValidWorld, Own;
    var q := Pick(ps);
    if q != p {
      EventsWithout(w, start, ps - {q}, p);
      EventsWithout(w, start, ps - {p}, q);
      assert ps - {q} - {p} == ps - {p} - {q};
    }
  }

  lemma {:induction false} EmptyPartitionsAddNothing(w: World, start: int, ps: set<int>, all: set<int>)
    requires ValidWorld(w) && ps <= all <= w.logs.Keys
    requires forall p :: p in all && p !in ps ==> Own(w, start, p) == []
    ensures WindowEvents(w, start, ps) == WindowEvents(w, start, all)
    decreases all
  {
    hide ValidWorld, Own;
    if all - ps == {} {
      assert forall p :: p in all ==> p !in all - ps;
      assert ps == all;
    } else {
      var p := Pick(all - ps);
      EventsWithout(w, start, all, p);
      EmptyPartitionsAddNothing(w, start, ps, all - {p});
    }
  }

  function PartsOf(w: World, start: int, order: seq<int>): (parts: seq<seq<Event>>)
    requires ValidWorld(w) && forall i :: 0 <= i < |order| ==> order[i] in w.logs
    ensures |parts| == |order| && forall i :: 0 <= i < |order| ==> parts[i] == Own(w, start, order[i])
  {
    seq(|order|, i requires 0 <= i < |order| => Own(w, start, order[i]))
  }

  lemma NoMembers()
    ensures Members([]) == {}
  {
  }

  lemma {:induction false} JoinedEvents(w: World, start: int, order: seq<int>)
    requires ValidWorld(w) && forall i :: 0 <= i < |order| ==> order[i] in w.logs
    requires forall i, j :: 0 <= i < j < |order| ==> order[i] != order[j]
    ensures Members(order) <= w.logs.Keys
    ensures multiset(Joined(PartsOf(w, start, order))) == WindowEvents(w, start, Members(order))
  {
    hide ValidWorld, Own, Members;
    forall p | p in Members(order) ensures p in w.logs {
      MembersAre(order);
      var i :| 0 <= i < |order| && order[i] == p;
    }
    if order == [] {
      NoMembers();
    } else {
      var n := |order| - 1;
      JoinedEvents(w, start, order[..n]);
      assert PartsOf(w, start, order)[..n] == PartsOf(w, start, order[..n]);
      MembersSnoc(order, n);
      assert order[..n + 1] == order;
      MembersAre(order[..n]);
      assert order[n] !in Members(order[..n]);
      EventsWithout(w, start, Members(order), order[n]);
      assert Members(order) - {order[n]} == Members(order[..n]);
    }
  }

  /** The window's messages are all committed, and none of them fell to a resync. */
  ghost predicate Finished(w: World, c: Cluster, start: int)
    requires w.cfg.size > 0
  {
    forall p, i ::
      (p in w.logs && p in w.origins && p in c.committed && w.origins[p] <= i < |w.logs[p]|
       && StartOf(w.cfg, w.logs[p][i]) == start)
      ==> i < c.committed[p] && (p, i) !in c.dropped
  }

  lemma {:induction false} OwnNeedsMessage(cfg: Settings, log: Log, origin: nat, n: nat, start: int)
    requires cfg.size > 0 && origin <= n <= |log|
    ensures OwnEvents(cfg, log[origin..n], start) != [] ==>
      exists i :: origin <= i < n && StartOf(cfg, log[i]) == start
  {
    hide StartOf;
    if origin < n {
      assert log[origin..n][..n - origin - 1] == log[origin..n - 1];
      OwnNeedsMessage(cfg, log, origin, n - 1, start);
    }
  }

  /** Every partition with a message of a finished window has written its slice. */
  lemma FinishedIsWritten(w: World, actions: seq<Action>, start: int, p: int)
    requires ValidWorld(w) && w.source == EVENT && p in w.logs && Finished(w, Run(w, actions), start)
    requires Own(w, start, p) != []
    ensures (start, p) in WrittenKeys(Run(w, actions).trace)
  {
    hide TrueSlice, StartOf, Run;
    var log, c := w.logs[p], Run(w, actions);
    OwnNeedsMessage(w.cfg, log, w.origins[p], |log|, start);
    assert log[w.origins[p]..|log|] == log[w.origins[p]..];
    var i :| w.origins[p] <= i < |log| && StartOf(w.cfg, log[i]) == start;
    CommittedWindowIsWritten(w, actions, p, i);
    var e :| e in c.trace && e.partition == p && e.slice == TrueSlice(w, p, start);
    assert e.slice.windowStart == start;
  }

  /** What Redis has left of a window: complete slices, one per partition that wrote it since its hash last expired. */
  lemma HashIsTrue(w: World, k: int, history: seq<Moment>, start: int)
    requires ValidWorld(w) && w.source == EVENT && start in RedisAfter(w, k, history).hashes
    ensures RedisAfter(w, k, history).hashes[start] != map[]
    ensures RedisAfter(w, k, history).hashes[start].Keys <= w.logs.Keys
    ensures var hash := RedisAfter(w, k, history).hashes[start];
      && (forall p :: p in hash ==> p in w.logs && hash[p] == Snapshot(TallyOf(start, w.cfg.size, Own(w, start, p))))
      && (forall p :: p in hash <==> (start, p) in LiveKeys(SinkSteps(w, history)))
  {
    hide Run, RedisAfter, WrittenKeys, Snapshot, SinkSteps, LiveKeys;
    RedisHoldsTheTruth(w, k, history);
    var live := LiveKeys(SinkSteps(w, history));
    assert RedisAfter(w, k, history).hashes[start] == TrueFields(w, live, start);
    var key :| key in live && key.0 == start;
    assert key.1 in TrueFields(w, live, start);
    assert forall p :: (start, p) in live ==> (start, p).1 in w.logs;
  }

  lemma FieldsListed(order: seq<int>, hash: Hash)
    requires ListsFields(order, hash) && hash != map[]
    ensures order != [] && Members(order) == hash.Keys
    ensures forall i :: 0 <= i < |order| ==> order[i] in hash
  {
    var p := Pick(hash.Keys);
    assert p in order;
    forall q ensures q in Members(order) <==> q in hash.Keys {
      MembersAre(order);
    }
  }

  /** Every partition with a message of the window has written it since the window's hash last expired. */
  ghost predicate AllLive(w: World, history: seq<Moment>, start: int)
    requires ValidWorld(w)
  {
    forall p :: p in w.logs && Own(w, start, p) != [] ==> (start, p) in LiveKeys(SinkSteps(w, history))
  }

  lemma {:induction false} MorePartitionsMoreEvents(w: World, start: int, ps: set<int>, all: set<int>, p: int)
    requires ValidWorld(w) && ps <= all <= w.logs.Keys && p in all && p !in ps && Own(w, start, p) != []
    ensures |WindowEvents(w, start, ps)| < |WindowEvents(w, start, all)|
    decreases all
  {
    hide ValidWorld, Own;
    EventsWithout(w, start, all, p);
    assert |multiset(Own(w, start, p))| > 0;
    if ps != all - {p} {
      var q := Pick(all - {p} - ps);
      if Own(w, start, q) == [] {
        EventsWithout(w, start, all, q);
        MorePartitionsMoreEvents(w, start, ps, all - {q}, p);
      } else {
        MorePartitionsMoreEvents(w, start, ps, all - {p}, q);
      }
    }
  }

  /**
   * Event time, any replicas, any crashes, any expiry: merging whatever slices Redis has left of a window, in any
   * order, agrees with one window fed all its messages from every partition, if and only if every partition with such
   * a message has written the window since its hash last expired.
   */
  lemma ReadIsWholeIff(w: World, k: int, history: seq<Moment>, start: int, order: seq<int>, whole: seq<Event>)
    requires ValidWorld(w) && w.source == EVENT
    requires start in RedisAfter(w, k, history).hashes && ListsFields(order, RedisAfter(w, k, history).hashes[start])
    requires multiset(whole) == WindowEvents(w, start, w.logs.Keys)
    ensures MergeOf(SlicesIn(RedisAfter(w, k, history).hashes[start], order)).Some?
    ensures AgreesWithOne(MergeOf(SlicesIn(RedisAfter(w, k, history).hashes[start], order)).value,
                          start, w.cfg.size, whole)
            <==> AllLive(w, history, start)
  {
    hide Run, RedisAfter, WrittenKeys, Snapshot, MergeOf, AgreesWithOne, WindowEvents, OwnEvents, TallyOf, SinkSteps,
      LiveKeys, Own, ListsFields;
    HashIsTrue(w, k, history, start);
    var hash := RedisAfter(w, k, history).hashes[start];
    FieldsListed(order, hash);
    forall i | 0 <= i < |order| ensures order[i] in w.logs {
      assert order[i] in hash.Keys;
    }
    var parts := PartsOf(w, start, order);
    assert SlicesIn(hash, order) == SlicesOf(start, w.cfg.size, parts);
    ListedOnce(order, hash);
    JoinedEvents(w, start, order);
    PartitionedIsWhole(start, w.cfg.size, Joined(parts), parts);
    if AllLive(w, history, start) {
      EmptyPartitionsAddNothing(w, start, Members(order), w.logs.Keys);
      PartitionedIsWhole(start, w.cfg.size, whole, parts);
    } else {
      var p :| p in w.logs && Own(w, start, p) != [] && (start, p) !in LiveKeys(SinkSteps(w, history));
      MorePartitionsMoreEvents(w, start, Members(order), w.logs.Keys, p);
      DifferentTotals(MergeOf(SlicesOf(start, w.cfg.size, parts)).value, start, w.cfg.size, Joined(parts), whole);
    }
  }

  lemma ListedOnce(order: seq<int>, hash: Hash)
    requires ListsFields(order, hash)
    ensures forall i, j :: 0 <= i < j < |order| ==> order[i] != order[j]
  {
  }

  lemma DifferentTotals(m: Summary, start: int, size: int, part: seq<Event>, whole: seq<Event>)
    requires size != 0 && AgreesWithOne(m, start, size, part) && |multiset(part)| < |multiset(whole)|
    ensures !AgreesWithOne(m, start, size, whole)
  {
    hide TallyOf, Occurrences, Snapshot;
  }

  /**
   * So once a window's messages are committed, as long as no hash has expired under a slice of it, a reader is served
   * exactly what one unpartitioned window would have counted.
   */
  lemma ReadersSeeTheTruth(w: World, k: int, history: seq<Moment>, start: int, order: seq<int>, whole: seq<Event>)
    requires ValidWorld(w) && w.source == EVENT && Finished(w, ClusterAfter(w, history), start)
    requires Intact(SinkSteps(w, history), start)
    requires start in RedisAfter(w, k, history).hashes && ListsFields(order, RedisAfter(w, k, history).hashes[start])
    requires multiset(whole) == WindowEvents(w, start, w.logs.Keys)
    ensures MergeOf(SlicesIn(RedisAfter(w, k, history).hashes[start], order)).Some?
    ensures AgreesWithOne(MergeOf(SlicesIn(RedisAfter(w, k, history).hashes[start], order)).value,
                          start, w.cfg.size, whole)
  {
    hide Run, RedisAfter, WrittenKeys, MergeOf, AgreesWithOne, WindowEvents, Finished, SinkSteps, LiveKeys, Own,
      ListsFields, KeysOf;
    WritesAreTheTrace(w, history);
    KeysAreWritten(ClusterAfter(w, history).trace);
    forall p | p in w.logs && Own(w, start, p) != [] ensures (start, p) in LiveKeys(SinkSteps(w, history)) {
      FinishedIsWritten(w, ActionsOf(history), start, p);
    }
    ReadIsWholeIff(w, k, history, start, order, whole);
  }
}

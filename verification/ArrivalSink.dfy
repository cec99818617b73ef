/** Arrival time, from the logs to Redis: where each committed message is counted. */
module ArrivalSink {
  import opened Delivery
  import opened EndToEnd
  import opened Events
  import opened ExactlyOnce
  import opened Expiry
  import opened Lanes
  import opened Protocol
  import Replays
  import opened SinkHistory
  import opened Sinks
  import opened Uniqueness

  /** Redis holds, in the window's field of the partition, a write that counts the message. */
  ghost predicate HeldIn(w: World, k: int, history: seq<Moment>, start: int, p: int, i: int)
    requires Started(w)
  {
    var store := RedisAfter(w, k, history);
    && start in store.hashes && p in store.hashes[start]
    && exists e :: e in ClusterAfter(w, history).trace && Covers(e, p, i)
                   && e.slice.windowStart == start && e.slice == store.hashes[start][p]
  }

  /** Redis has the key's write still: the window is not trimmed, and its hash has not expired since. */
  ghost predicate Kept(w: World, k: int, history: seq<Moment>, start: int, p: int)
    requires Started(w)
  {
    start in RedisAfter(w, k, history).index && (start, p) in LiveKeys(SinkSteps(w, history))
  }

  lemma {:induction false} CountedAtOnePlace(trace: seq<Emission>, p: int, i: int, x: Emission, y: Emission)
    requires TimesCounted(trace, p, i) <= 1 && x in trace && y in trace && Covers(x, p, i) && Covers(y, p, i)
    ensures x == y
  {
    hide Covers;
    var front, last := trace[..|trace| - 1], trace[|trace| - 1];
    assert trace == front + [last];
    CountedIffCovered(front, p, i);
    if TimesCounted(front, p, i) > 0 { CountedAtOnePlace(front, p, i, x, y); }
  }

  /** In arrival time a field is there exactly while its key is kept, and holds the one write there ever was to it. */
  lemma FieldIsTheWrite(w: World, k: int, history: seq<Moment>, e: Emission)
    requires ValidWorld(w) && w.source == ARRIVAL && e in ClusterAfter(w, history).trace
    ensures var store, start, p := RedisAfter(w, k, history), e.slice.windowStart, e.partition;
      && (start in store.hashes && p in store.hashes[start] <==> Kept(w, k, history, start, p))
      && (Kept(w, k, history, start, p) ==> store.hashes[start][p] == e.slice)
  {
    hide Run, Largest, RedisAfter, SinkSteps, LiveKeys, Live, LastWrites, Starts;
    var steps, start, p := SinkSteps(w, history), e.slice.windowStart, e.partition;
    RedisHoldsTheTrace(w, k, history);
    LiveIffKey(steps, start, p);
    if p in Live(steps, start) {
      LiveIsLast(steps, start, p);
      LastIsOnly(w, ActionsOf(history), e);
    }
  }

  lemma LastIsOnly(w: World, actions: seq<Action>, e: Emission)
    requires ValidWorld(w) && w.source == ARRIVAL && e in Run(w, actions).trace
    ensures var last := LastWrites(AsWrites(Run(w, actions).trace), e.slice.windowStart);
      e.partition in last && last[e.partition] == e.slice
  {
    hide Run, LastWrites;
    var trace, start, p := Run(w, actions).trace, e.slice.windowStart, e.partition;
    var writes := AsWrites(trace);
    LastWriteWins(writes, start, p);
    var j :| 0 <= j < |trace| && trace[j] == e;
    assert writes[j].partition == p && writes[j].slice.windowStart == start;
    var m :| 0 <= m < |writes| && writes[m] == Write.Write(p, LastWrites(writes, start)[p])
             && writes[m].slice.windowStart == start;
    if j < m { KeysAreWrittenOnce(w, actions, j, m); } else if m < j { KeysAreWrittenOnce(w, actions, m, j); }
  }

  /**
   * Arrival time, any crashes, any expiry: a committed message that no resync discarded and no crash tore was written
   * to exactly one window. Redis counts it in that window's field exactly while the key is kept, and in no other field.
   */
  lemma HeldOnce(w: World, k: int, history: seq<Moment>, p: int, i: int) returns (start: int)
    requires ValidWorld(w) && w.source == ARRIVAL && p in w.logs
    requires w.origins[p] <= i < ClusterAfter(w, history).committed[p]
    requires (p, i) !in ClusterAfter(w, history).dropped && (p, i) !in ClusterAfter(w, history).torn
    ensures (start, p) in WrittenKeys(ClusterAfter(w, history).trace)
    ensures HeldIn(w, k, history, start, p, i) <==> Kept(w, k, history, start, p)
    ensures forall other :: HeldIn(w, k, history, other, p, i) ==> other == start
  {
    hide Run, RedisAfter, TimesCounted, Kept;
    var trace := ClusterAfter(w, history).trace;
    Replays.CountedOnceIffNotTorn(w, ActionsOf(history), p, i);
    CountedIffCovered(trace, p, i);
    var e :| e in trace && Covers(e, p, i);
    start := e.slice.windowStart;
    FieldIsTheWrite(w, k, history, e);
    forall other | HeldIn(w, k, history, other, p, i) ensures other == start {
      var x :| x in trace && Covers(x, p, i) && x.slice.windowStart == other;
      CountedAtOnePlace(trace, p, i, x, e);
    }
  }

  /** A message torn and committed was written to several windows, and Redis counts it once in each it still keeps. */
  lemma TornIsHeldAgain(w: World, k: int, history: seq<Moment>, p: int, i: int)
    requires ValidWorld(w) && w.source == ARRIVAL && p in w.logs
    requires w.origins[p] <= i < ClusterAfter(w, history).committed[p]
    requires (p, i) !in ClusterAfter(w, history).dropped && (p, i) in ClusterAfter(w, history).torn
    ensures exists x, y :: x in ClusterAfter(w, history).trace && y in ClusterAfter(w, history).trace
                           && Covers(x, p, i) && Covers(y, p, i)
                           && x.slice.windowStart != y.slice.windowStart
    ensures forall e :: e in ClusterAfter(w, history).trace && Covers(e, p, i) ==>
      (HeldIn(w, k, history, e.slice.windowStart, p, i) <==> Kept(w, k, history, e.slice.windowStart, p))
  {
    hide Run, RedisAfter, TimesCounted, Kept;
    var trace := ClusterAfter(w, history).trace;
    Replays.CountedOnceIffNotTorn(w, ActionsOf(history), p, i);
    var j, m := CountedAtTwoPlaces(trace, p, i);
    KeysAreWrittenOnce(w, ActionsOf(history), j, m);
    forall e | e in trace && Covers(e, p, i)
      ensures HeldIn(w, k, history, e.slice.windowStart, p, i) <==> Kept(w, k, history, e.slice.windowStart, p)
    {
      FieldIsTheWrite(w, k, history, e);
    }
  }

  lemma {:induction false} CountedAtTwoPlaces(trace: seq<Emission>, p: int, i: int) returns (j: nat, m: nat)
    requires TimesCounted(trace, p, i) >= 2
    ensures j < m < |trace| && Covers(trace[j], p, i) && Covers(trace[m], p, i)
  {
    hide Covers;
    var n := |trace| - 1;
    if Covers(trace[n], p, i) {
      m := n;
      CountedIffCovered(trace[..n], p, i);
      var e :| e in trace[..n] && Covers(e, p, i);
      j :| 0 <= j < n && trace[j] == e;
    } else {
      j, m := CountedAtTwoPlaces(trace[..n], p, i);
    }
  }
}

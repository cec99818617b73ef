/** From the logs to Redis: what the sink holds after any run, however often it crashed. */
module EndToEnd {
  import opened Delivery
  import opened Events
  import opened Expiry
  import opened Guarantees
  import opened Lanes
  import opened Protocol
  import opened Sets
  import opened SinkHistory
  import opened Sinks
  import opened TimeSources

  function AsWrites(trace: seq<Emission>): (writes: seq<Write>)
    ensures |writes| == |trace|
    ensures forall i :: 0 <= i < |trace| ==> writes[i] == Write.Write(trace[i].partition, trace[i].slice)
  {
    seq(|trace|, i requires 0 <= i < |trace| => Write.Write(trace[i].partition, trace[i].slice))
  }

  /** A step of the protocol, or the TTL of one window's hash running out. */
  datatype Moment = Act(action: Action) | Lapse(start: int)

  function ActionsOf(history: seq<Moment>): seq<Action> {
    if history == [] then []
    else
      var before, last := ActionsOf(history[..|history| - 1]), history[|history| - 1];
      if last.Act? then before + [last.action] else before
  }

  /** What Redis sees: each persist step is one batch of the write-and-trim script, and hashes expire in between. */
  ghost function SinkSteps(w: World, history: seq<Moment>): seq<SinkStep>
    requires Started(w)
  {
    if history == [] then []
    else
      var front := history[..|history| - 1];
      var before, c := SinkSteps(w, front), Run(w, ActionsOf(front));
      match history[|history| - 1]
      case Act(a) =>
        if a.Persist? && Enabled(w, c, a) then before + [Wrote(AsWrites(c.replicas[a.r].stage.entries))] else before
      case Lapse(start) => before + [Lapsed(start)]
  }

  ghost function RedisAfter(w: World, k: int, history: seq<Moment>): Store
    requires Started(w)
  {
    StoreAfter(k, SinkSteps(w, history))
  }

  /** The cluster at the end of a history; expiry does not touch it. */
  ghost function ClusterAfter(w: World, history: seq<Moment>): (c: Cluster)
    requires Started(w)
    ensures Shaped(w, c)
  {
    Run(w, ActionsOf(history))
  }

  lemma ActSnoc(w: World, k: int, history: seq<Moment>, a: Action)
    requires Started(w)
    ensures ActionsOf(history + [Act(a)]) == ActionsOf(history) + [a]
    ensures ClusterAfter(w, history + [Act(a)]) == Next(w, ClusterAfter(w, history), a)
    ensures RedisAfter(w, k, history + [Act(a)]) ==
      if a.Persist? && Enabled(w, ClusterAfter(w, history), a)
      then Batch(k, RedisAfter(w, k, history), AsWrites(ClusterAfter(w, history).replicas[a.r].stage.entries))
      else RedisAfter(w, k, history)
  {
    hide Run, Batch, Next, PollFits, Lists;
    assert (history + [Act(a)])[..|history|] == history;
    RunSnoc(w, ActionsOf(history), a);
    if a.Persist? && Enabled(w, ClusterAfter(w, history), a) {
      StoreSnoc(k, SinkSteps(w, history), Wrote(AsWrites(ClusterAfter(w, history).replicas[a.r].stage.entries)));
    }
  }

  lemma LapseSnoc(w: World, k: int, history: seq<Moment>, start: int)
    requires Started(w)
    ensures ActionsOf(history + [Lapse(start)]) == ActionsOf(history)
    ensures RedisAfter(w, k, history + [Lapse(start)]) == Expired(RedisAfter(w, k, history), start)
  {
    hide Run;
    assert (history + [Lapse(start)])[..|history|] == history;
    StoreSnoc(k, SinkSteps(w, history), Lapsed(start));
  }

  lemma StoreSnoc(k: int, steps: seq<SinkStep>, s: SinkStep)
    ensures StoreAfter(k, steps + [s]) ==
      if s.Wrote? then Batch(k, StoreAfter(k, steps), s.batch) else Expired(StoreAfter(k, steps), s.start)
  {
    hide Batch;
    assert (steps + [s])[..|steps|] == steps;
  }

  /** What Redis was sent is what the run wrote, in order. */
  lemma {:induction false} WritesAreTheTrace(w: World, history: seq<Moment>)
    requires Started(w)
    ensures WritesOf(SinkSteps(w, history)) == AsWrites(ClusterAfter(w, history).trace)
  {
    hide Shaped, PollFits, Lists;
    if history == [] {
      assert AsWrites([]) == [];
    } else {
      var front, last := history[..|history| - 1], history[|history| - 1];
      var c, before := ClusterAfter(w, front), SinkSteps(w, front);
      WritesAreTheTrace(w, front);
      if last.Act? {
        RunSnoc(w, ActionsOf(front), last.action);
        if last.action.Persist? && Enabled(w, c, last.action) {
          var entries := c.replicas[last.action.r].stage.entries;
          assert (before + [Wrote(AsWrites(entries))])[..|before|] == before;
          assert AsWrites(c.trace + entries) == AsWrites(c.trace) + AsWrites(entries);
        }
      } else {
        assert (before + [Lapsed(last.start)])[..|before|] == before;
      }
    }
  }

  /** Redis is the reference state of the writes made; without expiry, simply the last writes to the newest starts. */
  lemma RedisHoldsTheTrace(w: World, k: int, history: seq<Moment>)
    requires Started(w)
    ensures RedisAfter(w, k, history) == Remembered(k, SinkSteps(w, history))
    ensures WritesOf(SinkSteps(w, history)) == AsWrites(ClusterAfter(w, history).trace)
    ensures (forall m :: m in history ==> m.Act?) ==>
      RedisAfter(w, k, history) == Retained(k, AsWrites(ClusterAfter(w, history).trace))
  {
    hide Run, SinkSteps, Remembered, Retained, StoreAfter;
    SinkRemembersLiveWrites(k, SinkSteps(w, history));
    WritesAreTheTrace(w, history);
    if forall m :: m in history ==> m.Act? {
      ActsOnlyWrite(w, history);
      NoLapseAllLive(k, SinkSteps(w, history));
    }
  }

  lemma {:induction false} ActsOnlyWrite(w: World, history: seq<Moment>)
    requires Started(w) && forall m :: m in history ==> m.Act?
    ensures forall s :: s in SinkSteps(w, history) ==> s.Wrote?
  {
    hide Run, Enabled;
    if history != [] {
      assert history[|history| - 1] in history;
      ActsOnlyWrite(w, history[..|history| - 1]);
    }
  }

  /** The keys a run has written. */
  ghost function WrittenKeys(trace: seq<Emission>): set<(int, int)> {
    set e | e in trace :: (e.slice.windowStart, e.partition)
  }

  /** One window as the logs alone determine it. */
  ghost function TrueFields(w: World, keys: set<(int, int)>, start: int): Hash
    requires ValidWorld(w)
  {
    map p | p in w.logs && (start, p) in keys :: TrueSlice(w, p, start)
  }

  ghost function StartsOfKeys(keys: set<(int, int)>): set<int> {
    set key | key in keys :: key.0
  }

  /** The Redis state the logs alone determine, once it is known which keys were written and which of them are live. */
  ghost function TrueStore(w: World, k: int, keys: set<(int, int)>, live: set<(int, int)>): Store
    requires ValidWorld(w)
  {
    var newest := Largest(StartsOfKeys(keys), k);
    Store(newest, map start | start in newest && start in StartsOfKeys(live) :: TrueFields(w, live, start))
  }

  lemma FieldIsTrue(w: World, actions: seq<Action>, start: int, p: int)
    requires ValidWorld(w) && w.source == EVENT
    ensures var fields := LastWrites(AsWrites(Run(w, actions).trace), start);
      && (p in fields <==> (start, p) in WrittenKeys(Run(w, actions).trace))
      && (p in fields ==> p in w.logs && fields[p] == TrueSlice(w, p, start))
  {
    hide TrueSlice, Run, LastWrites, WindowMonotone;
    var trace := Run(w, actions).trace;
    var writes := AsWrites(trace);
    LastWriteWins(writes, start, p);
    EveryWriteIsComplete(w, actions);
    if p in LastWrites(writes, start) {
      var i :| 0 <= i < |writes| && writes[i] == Write.Write(p, LastWrites(writes, start)[p])
               && writes[i].slice.windowStart == start;
      assert trace[i] in trace;
    }
    if (start, p) in WrittenKeys(trace) {
      var e :| e in trace && (e.slice.windowStart, e.partition) == (start, p);
      var i :| 0 <= i < |trace| && trace[i] == e;
      assert writes[i].partition == p && writes[i].slice.windowStart == start;
    }
  }

  /**
   * Event time, any replicas, any crashes, any expiry: Redis holds, for the newest starts written, exactly the complete
   * summary of each (window, partition) written since the window's hash last expired, whatever replays happened on the
   * way.
   */
  lemma RedisHoldsTheTruth(w: World, k: int, history: seq<Moment>)
    requires ValidWorld(w) && w.source == EVENT
    ensures var keys, live := WrittenKeys(ClusterAfter(w, history).trace), LiveKeys(SinkSteps(w, history));
      && live <= keys && (forall key :: key in keys ==> key.1 in w.logs)
      && RedisAfter(w, k, history) == TrueStore(w, k, keys, live)
  {
    hide TrueFields, Largest, Live, Run, SinkSteps, LiveKeys, StoreAfter, WrittenKeys;
    var steps, trace := SinkSteps(w, history), ClusterAfter(w, history).trace;
    var live := LiveKeys(steps);
    RedisHoldsTheTrace(w, k, history);
    KeysAreWritten(trace);
    LiveKeysAreWritten(steps);
    KeysAreKnown(w, ActionsOf(history));
    forall start
      ensures Live(steps, start) == TrueFields(w, live, start)
      ensures Live(steps, start) != map[] <==> start in StartsOfKeys(live)
    {
      LiveFieldsAreTrue(w, history, start);
    }
  }

  lemma KeysAreKnown(w: World, actions: seq<Action>)
    requires ValidWorld(w) && w.source == EVENT
    ensures forall key :: key in WrittenKeys(Run(w, actions).trace) ==> key.1 in w.logs
  {
    hide Run, TrueSlice;
    EveryWriteIsComplete(w, actions);
  }

  lemma LiveFieldsAreTrue(w: World, history: seq<Moment>, start: int)
    requires ValidWorld(w) && w.source == EVENT
    ensures Live(SinkSteps(w, history), start) == TrueFields(w, LiveKeys(SinkSteps(w, history)), start)
    ensures Live(SinkSteps(w, history), start) != map[] <==> start in StartsOfKeys(LiveKeys(SinkSteps(w, history)))
  {
    hide TrueSlice, LastWrites, Run, SinkSteps, LiveKeys, Live, WindowMonotone;
    var steps := SinkSteps(w, history);
    var fields, truth := Live(steps, start), TrueFields(w, LiveKeys(steps), start);
    WritesAreTheTrace(w, history);
    forall p
      ensures (p in fields <==> p in truth) && (p in fields ==> fields[p] == truth[p])
      ensures p in fields <==> (start, p) in LiveKeys(steps)
    {
      LiveIffKey(steps, start, p);
      FieldIsTrue(w, ActionsOf(history), start, p);
      if p in fields { LiveIsLast(steps, start, p); }
    }
    assert fields.Keys == truth.Keys;
    SomeKey(LiveKeys(steps), start, fields);
  }

  lemma SomeKey(keys: set<(int, int)>, start: int, fields: Hash)
    requires forall p :: p in fields <==> (start, p) in keys
    ensures fields != map[] <==> start in StartsOfKeys(keys)
  {
    if fields != map[] {
      var p := Pick(fields.Keys);
      assert (start, p) in keys;
    }
    if start in StartsOfKeys(keys) {
      var key :| key in keys && key.0 == start;
      var p := key.1;
      assert key == (start, p);
      assert (start, p) in keys;
      assert p in fields;
    }
  }

  lemma KeysAreWritten(trace: seq<Emission>)
    ensures KeysOf(AsWrites(trace)) == WrittenKeys(trace)
    ensures Starts(AsWrites(trace)) == StartsOfKeys(WrittenKeys(trace))
  {
    var writes := AsWrites(trace);
    forall i | 0 <= i < |writes| ensures writes[i].slice.windowStart in StartsOfKeys(WrittenKeys(trace)) {
      assert trace[i] in trace;
      assert (trace[i].slice.windowStart, trace[i].partition) in WrittenKeys(trace);
    }
    forall e | e in trace
      ensures e.slice.windowStart in Starts(writes) && (e.slice.windowStart, e.partition) in KeysOf(writes)
    {
      var i :| 0 <= i < |trace| && trace[i] == e;
      assert writes[i].slice.windowStart == e.slice.windowStart && writes[i] in writes;
    }
  }

  /** A run full of crashes and one without leave the same Redis, as soon as the same keys are written and live. */
  lemma CrashesLeaveNoMark(w: World, k: int, crashed: seq<Moment>, clean: seq<Moment>)
    requires ValidWorld(w) && w.source == EVENT
    requires WrittenKeys(ClusterAfter(w, crashed).trace) == WrittenKeys(ClusterAfter(w, clean).trace)
    requires LiveKeys(SinkSteps(w, crashed)) == LiveKeys(SinkSteps(w, clean))
    ensures RedisAfter(w, k, crashed) == RedisAfter(w, k, clean)
  {
    RedisHoldsTheTruth(w, k, crashed);
    RedisHoldsTheTruth(w, k, clean);
  }
}

/** The aggregator as written: a window manager per partition, an offset tracker, a sink, and a broker to commit to. */
module Aggregators {
  import opened Alignment
  import opened Events
  import opened Offsets
  import Sets
  import opened Sinks
  import opened Tallies
  import opened WindowManagers
  import opened Windows
  import opened Workers

  /** Each manager has the recorded value and its own window objects. */
  ghost predicate Keeps(managers: map<int, WindowManager>, values: map<int, Manager>, cfg: Settings,
                        hosts: set<WindowManager>, cells: set<TumblingWindow>)
    reads hosts, cells
  {
    && managers.Keys == values.Keys
    && (forall p :: p in managers ==>
          && managers[p] in hosts && managers[p].cells <= cells
          && managers[p].Config() == cfg && managers[p].Value() == values[p] && managers[p].Valid())
    && (forall p, q :: p in managers && q in managers && p != q ==>
          managers[p] != managers[q] && managers[p].cells !! managers[q].cells)
  }

  /** A new manager joins the others. */
  lemma KeepsOneMore(managers: map<int, WindowManager>, values: map<int, Manager>, cfg: Settings,
                     hosts: set<WindowManager>,
                     cells: set<TumblingWindow>, p: int, m: WindowManager)
    requires Keeps(managers, values, cfg, hosts, cells) && p !in managers && m !in hosts
    requires m.cells == {} && m.Config() == cfg && m.Value() == FRESH && m.Valid()
    ensures Keeps(managers[p := m], values[p := FRESH], cfg, hosts + {m}, cells)
  {
    hide WindowManager.Valid;
  }

  /** Count one event in one partition's manager; the others stand still. */
  method AddAt(managers: map<int, WindowManager>, ghost values: map<int, Manager>, ghost cfg: Settings,
               ghost hosts: set<WindowManager>, ghost cells: set<TumblingWindow>, p: int, e: Event, ts: real)
    returns (counted: bool, ghost grown: set<TumblingWindow>)
    requires Keeps(managers, values, cfg, hosts, cells) && cfg.size > 0 && p in managers && p in values
    modifies hosts, cells
    ensures cells <= grown && fresh(grown - cells)
    ensures Keeps(managers, values[p := AddTo(cfg, values[p], e, ts)], cfg, hosts, grown)
    ensures counted == Accepts(cfg, values[p], ts)
  {
    hide WindowManager.Valid, AddTo, Accepts;
    counted := managers[p].Add(e, ts);
    grown := cells + managers[p].cells;
  }

  /** Close what is due in one partition's manager; the others stand still. */
  method PopAt(managers: map<int, WindowManager>, ghost values: map<int, Manager>, ghost cfg: Settings,
               ghost hosts: set<WindowManager>, ghost cells: set<TumblingWindow>, p: int, clock: real)
    returns (out: seq<Slice>)
    requires Keeps(managers, values, cfg, hosts, cells) && cfg.size > 0 && p in managers && p in values
    modifies hosts, cells
    ensures AllSized(cfg, values[p].windows)
    ensures Keeps(managers, values[p := PopState(cfg, values[p], clock)], cfg, hosts, cells)
    ensures out == PopSlices(cfg, values[p], clock)
  {
    hide PopState, PopSlices;
    out := managers[p].PopClosed(clock);
  }

  class Aggregator {
    const cfg: Settings
    const source: string
    const topic: string
    const historyMax: int
    const offsets: OffsetTracker
    const redis: RedisStore
    var managers: map<int, WindowManager>
    var order: seq<int>               // the managers' keys in insertion order
    var committed: map<int, nat>      // the group's offsets at the broker
    ghost var values: map<int, Manager>
    ghost var hosts: set<WindowManager>
    ghost var cells: set<TumblingWindow>

    ghost predicate Valid()
      reads this, hosts, cells, redis
    {
      && cfg.size > 0 && redis.Valid()
      && Keeps(managers, values, cfg, hosts, cells)
      && (forall p :: p in order <==> p in values)
      && (forall i, j :: 0 <= i < j < |order| ==> order[i] != order[j])
    }

    constructor (cfg: Settings, source: string, topic: string, historyMax: int, committed: map<int, nat>,
                 redis: RedisStore)
      requires cfg.size > 0 && redis.Valid()
      ensures Valid() && values == map[] && order == [] && offsets.pending == map[] && fresh(offsets)
      ensures this.cfg == cfg && this.source == source && this.topic == topic && this.historyMax == historyMax
      ensures this.redis == redis && this.committed == committed && hosts == {} && cells == {}
    {
      this.cfg, this.source, this.topic, this.historyMax := cfg, source, topic, historyMax;
      this.offsets := new OffsetTracker();
      this.redis, this.committed := redis, committed;
      managers, order, values, hosts, cells := map[], [], map[], {}, {};
    }

    ghost predicate Grown(hostsBefore: set<WindowManager>, cellsBefore: set<TumblingWindow>)
      reads this
    {
      hostsBefore <= hosts && cellsBefore <= cells
    }

    ghost function State(): Worker
      reads this, offsets
    {
      Worker(order, values, offsets.pending)
    }

    /** The manager of a partition, created on first sight. */
    method ManagerFor(p: int) returns (m: WindowManager)
      requires Valid()
      modifies `managers, `order, `values, `hosts
      ensures Valid() && p in managers && m == managers[p] && fresh(hosts - old(hosts)) && old(hosts) <= hosts
      ensures values == if p in old(values) then old(values) else old(values)[p := FRESH]
      ensures order == if p in old(values) then old(order) else old(order) + [p]
    {
      hide Keeps;
      SameKeys();
      if p !in managers {
        m := new WindowManager(cfg.size, cfg.grace, cfg.maxGap);
        KeepsOneMore(managers, values, cfg, hosts, cells, p, m);
        managers := managers[p := m];
        order := order + [p];
        values := values[p := FRESH];
        hosts := hosts + {m};
      }
      m := managers[p];
    }

    lemma SameKeys()
      requires Valid()
      ensures managers.Keys == values.Keys
    {
    }

    /** `manager.add` for one partition. */
    method AddTo(p: int, e: Event, ts: real) returns (counted: bool)
      requires Valid() && p in managers
      modifies `values, `cells, hosts, cells
      ensures Valid() && fresh(cells - old(cells)) && old(cells) <= cells && managers == old(managers)
      ensures counted == Accepts(cfg, old(values)[p], ts)
      ensures values == old(values)[p := Windows.AddTo(cfg, old(values)[p], e, ts)]
    {
      hide Keeps, Windows.AddTo, Accepts;
      SameKeys();
      ghost var after := Windows.AddTo(cfg, values[p], e, ts);
      counted, cells := AddAt(managers, values, cfg, hosts, cells, p, e, ts);
      values := values[p := after];
    }

    /** `manager.pop_closed` for one partition. */
    method PopFrom(p: int, clock: real) returns (out: seq<Slice>)
      requires Valid() && p in managers
      modifies `values, hosts, cells
      ensures Valid() && managers == old(managers)
      ensures p in old(values) && AllSized(cfg, old(values)[p].windows)
      ensures out == PopSlices(cfg, old(values)[p], clock)
      ensures values == old(values)[p := PopState(cfg, old(values)[p], clock)]
    {
      hide Keeps, PopState, PopSlices;
      SameKeys();
      ghost var after := PopState(cfg, values[p], clock);
      out := PopAt(managers, values, cfg, hosts, cells, p, clock);
      values := values[p := after];
    }

    /** Stamp one message, route it, and note its offset unless it was late. */
    method Receive(p: int, m: Message, arrival: real)
      requires Valid() && p in managers
      modifies `values, `cells, hosts, cells, offsets
      ensures Valid() && fresh(cells - old(cells)) && old(cells) <= cells && managers == old(managers)
      ensures State() == Workers.Receive(cfg, source, topic, old(State()), p, m, arrival)
    {
      hide Keeps, Windows.AddTo, Noted;
      var ts := EventTimestamp(m.event, arrival, source);
      var counted := AddTo(p, m.event, ts);
      if counted {
        offsets.Record(topic, p, m.offset, Align(cfg.size, ts));
      }
    }

    /** The records one poll returned for one partition. */
    method Consume(p: int, messages: seq<Message>, arrival: real)
      requires Valid()
      modifies `managers, `order, `values, `hosts, `cells, hosts, cells, offsets
      ensures Valid() && Grown(old(hosts), old(cells))
      ensures fresh(hosts - old(hosts)) && fresh(cells - old(cells))
      ensures State() == ReceiveAll(cfg, source, topic, WithManager(old(State()), p), p, messages, arrival)
    {
      hide Keeps, Workers.Receive, ReceiveAll;
      var manager := ManagerFor(p);
      ghost var start := State();
      var i := 0;
      NothingReceived(start, p, arrival);
      while i < |messages|
        invariant 0 <= i <= |messages| && Valid() && p in managers
        invariant Grown(old(hosts), old(cells)) && fresh(hosts - old(hosts)) && fresh(cells - old(cells))
        invariant State() == ReceiveAll(cfg, source, topic, start, p, messages[..i], arrival)
      {
        ReceiveOneMore(cfg, source, topic, start, p, messages, i, arrival);
        Receive(p, messages[i], arrival);
        i := i + 1;
      }
      assert messages[..i] == messages;
    }

    lemma NothingReceived(w: Worker, p: int, arrival: real)
      requires cfg.size > 0 && p in w.values
      ensures ReceiveAll(cfg, source, topic, w, p, [], arrival) == w
    {
    }

    /** The body of the main loop before the flush. */
    method Poll(records: seq<Records>, arrival: real)
      requires Valid()
      modifies `managers, `order, `values, `hosts, `cells, hosts, cells, offsets
      ensures Valid() && Grown(old(hosts), old(cells))
      ensures fresh(hosts - old(hosts)) && fresh(cells - old(cells))
      ensures State() == PollInto(cfg, source, topic, old(State()), records, arrival)
    {
      var i := 0;
      while i < |records|
        invariant 0 <= i <= |records| && Valid()
        invariant Grown(old(hosts), old(cells)) && fresh(hosts - old(hosts)) && fresh(cells - old(cells))
        invariant State() == PollInto(cfg, source, topic, old(State()), records[..i], arrival)
      {
        assert records[..i + 1][..i] == records[..i];
        Consume(records[i].partition, records[i].messages, arrival);
        i := i + 1;
      }
      assert records[..i] == records;
    }

    /** Close what is due in one partition, by the clock its time source dictates. */
    method CloseDue(p: int, now: real) returns (summaries: seq<Slice>)
      requires Valid() && p in order
      modifies `values, hosts, cells
      ensures Valid() && managers == old(managers) && p in old(values) && AllSized(cfg, old(values)[p].windows)
      ensures summaries == SlicesAt(cfg, source, old(values)[p], now)
      ensures values == old(values)[p := StateAt(cfg, source, old(values)[p], now)]
    {
      hide Keeps, PopState, PopSlices;
      Known(p);
      var clock := if source == ARRIVAL then Some(now) else managers[p].Watermark();
      if clock.Some? {
        summaries := PopFrom(p, clock.value);
      } else {
        summaries := [];
        assert values == values[p := values[p]];
      }
    }

    /** Close what is due, partition by partition. */
    method CollectDue(now: real) returns (entries: seq<Write>, through: map<int, int>)
      requires Valid()
      modifies `values, hosts, cells
      ensures Valid() && AllWellSized(cfg, old(values))
      ensures entries == Entries(cfg, source, old(values), order, now)
      ensures through == ThroughAt(cfg, source, old(values), now)
      ensures values == StatesAt(cfg, source, old(values), now)
    {
      hide Keeps, StateAt, SlicesAt, Entries, PartlyFlushed, PartlyThrough, StatesAt, ThroughAt, AllWellSized;
      WellSized();
      FlushNone(cfg, source, values, now);
      entries, through := [], map[];
      var i := 0;
      while i < |order|
        invariant 0 <= i <= |order| && Valid()
        invariant values == PartlyFlushed(cfg, source, old(values), order[..i], now)
        invariant entries == Entries(cfg, source, old(values), order[..i], now)
        invariant through == PartlyThrough(cfg, source, old(values), order[..i], now)
      {
        var p := order[i];
        FlushOneMore(cfg, source, old(values), order[..i], p, now);
        assert order[..i + 1] == order[..i] + [p];
        var summaries := CloseDue(p, now);
        entries := entries + Tagged(p, summaries);
        if |summaries| > 0 {
          through := through[p := summaries[|summaries| - 1].windowStart];
        }
        i := i + 1;
      }
      assert order[..i] == order;
      FlushAll(cfg, source, old(values), order, now);
    }

    lemma Known(p: int)
      requires Valid() && p in order
      ensures p in managers && p in values
      ensures managers[p] in hosts && managers[p].Watermark() == values[p].maxTs && AllSized(cfg, values[p].windows)
    {
    }

    lemma WellSized()
      requires Valid()
      ensures AllWellSized(cfg, values)
    {
    }

    /** Release what the written windows covered, per partition. */
    method ReleaseAll(through: map<int, int>) returns (commits: map<int, nat>)
      modifies offsets
      ensures offsets.pending == ReleasedPending(old(offsets.pending), topic, through)
      ensures commits == CommitsAt(old(offsets.pending), topic, through)
    {
      hide Released, Remaining;
      commits := map[];
      var todo := through.Keys;
      ghost var done: set<int> := {};
      assert PartlyReleased(offsets.pending, topic, through, {}) == offsets.pending;
      while todo != {}
        invariant done == through.Keys - todo && todo <= through.Keys
        invariant offsets.pending == PartlyReleased(old(offsets.pending), topic, through, done)
        invariant commits == PartlyCommitted(old(offsets.pending), topic, through, done)
        decreases todo
      {
        ghost var some := Sets.Pick(todo);
        var p: int :| p in todo;
        ReleaseOneMore(old(offsets.pending), topic, through, done, p);
        var next := offsets.ReleasePartition(topic, p, through[p]);
        if next.Some? {
          commits := commits[p := next.value];
        }
        todo, done := todo - {p}, done + {p};
      }
      assert done == through.Keys;
    }

    /**
     * One flush: write, then release, then commit. If the sink fails the flush stops before the release, and the
     * offsets stay where they were.
     */
    method Flush(now: real, prefix: string, ttl: int, sinkUp: bool) returns (ok: bool)
      requires Valid()
      modifies `values, `committed, hosts, cells, offsets, redis
      ensures Valid() && AllWellSized(cfg, old(values))
      ensures var entries := Entries(cfg, source, old(values), order, now);
        && ok == (entries == [] || sinkUp)
        && if entries != [] && sinkUp then
             && redis.Value() == Batch(historyMax, old(redis.Value()), entries)
             && State() == FlushedWorker(cfg, source, topic, old(State()), now)
             && committed == old(committed)
                             + CommitsAt(old(offsets.pending), topic, ThroughAt(cfg, source, old(values), now))
           else
             && redis.Value() == old(redis.Value()) && offsets.pending == old(offsets.pending)
             && committed == old(committed) && values == StatesAt(cfg, source, old(values), now)
    {
      hide Keeps, StatesAt, ReleasedPending, CommitsAt, ThroughAt, Entries, Batch, AllWellSized;
      var entries, through := CollectDue(now);
      ok := true;
      if |entries| > 0 {
        ok := sinkUp;
        if sinkUp {
          var retained := WriteEntries(redis, historyMax, prefix, ttl, entries);
          var commits := ReleaseAll(through);
          CommitAll(commits);
        }
      }
    }

    /** Commit the released offsets, if there are any. */
    method CommitAll(commits: map<int, nat>)
      requires Valid()
      modifies `committed
      ensures Valid() && committed == old(committed) + commits
    {
      if |commits| > 0 {
        committed := committed + commits;
      } else {
        assert commits == map[];
        assert committed == committed + commits;
      }
    }

    ghost function Whole(): Node
      reads this, offsets, redis
    {
      Node(State(), redis.Value(), committed)
    }

    lemma AllFormed()
      requires Valid()
      ensures Formed(cfg, values)
    {
    }

    /** One turn of the main loop; false means the sink failed and the process is about to die. */
    method TakeTurn(t: Turn, prefix: string, ttl: int) returns (ok: bool)
      requires Valid()
      modifies `managers, `order, `values, `hosts, `cells, `committed, hosts, cells, offsets, redis
      ensures Valid() && Grown(old(hosts), old(cells)) && Formed(cfg, old(values))
      ensures fresh(hosts - old(hosts)) && fresh(cells - old(cells))
      ensures Whole() == TurnOf(cfg, source, topic, historyMax, old(Whole()), t)
      ensures ok == Continues(cfg, source, topic, old(Whole()), t)
    {
      hide Keeps, PollInto, Entries, FlushedWorker, CommitsAt, ThroughAt, StatesAt, Batch, WellFormed, AllWellSized;
      AllFormed();
      Poll(t.records, t.arrival);
      ok := Flush(t.arrival, prefix, ttl, t.sinkUp);
    }

    /** The loop took `turns` and then `last`, at which the sink failed. */
    ghost predicate Stopped(n: Node, turns: seq<Turn>, last: Turn)
      requires Formed(cfg, n.worker.values)
    {
      && Going(cfg, source, topic, historyMax, n, turns)
      && !Continues(cfg, source, topic, RunOf(cfg, source, topic, historyMax, n, turns), last)
    }

    /** The main loop over the polls until `stop`, or until the sink fails. */
    method Run(turns: seq<Turn>, prefix: string, ttl: int) returns (taken: nat)
      requires Valid()
      modifies `managers, `order, `values, `hosts, `cells, `committed, hosts, cells, offsets, redis
      ensures Valid() && Formed(cfg, old(values))
      ensures taken <= |turns|
      ensures taken < |turns| ==> taken > 0 && Stopped(old(Whole()), turns[..taken - 1], turns[taken - 1])
      ensures taken > 0 ==> Going(cfg, source, topic, historyMax, old(Whole()), turns[..taken - 1])
      ensures Whole() == RunOf(cfg, source, topic, historyMax, old(Whole()), turns[..taken])
    {
      hide Keeps, TurnOf, WellFormed, Continues;
      AllFormed();
      taken := 0;
      var running := true;
      while running && taken < |turns|
        invariant taken <= |turns|
        invariant Valid() && Grown(old(hosts), old(cells)) && fresh(hosts - old(hosts)) && fresh(cells - old(cells))
        invariant Formed(cfg, old(values))
        invariant Whole() == RunOf(cfg, source, topic, historyMax, old(Whole()), turns[..taken])
        invariant running ==> Going(cfg, source, topic, historyMax, old(Whole()), turns[..taken])
        invariant taken > 0 ==> Going(cfg, source, topic, historyMax, old(Whole()), turns[..taken - 1])
        invariant !running ==> taken > 0 && Stopped(old(Whole()), turns[..taken - 1], turns[taken - 1])
        decreases |turns| - taken
      {
        assert turns[..taken + 1][..taken] == turns[..taken];
        running := TakeTurn(turns[taken], prefix, ttl);
        taken := taken + 1;
      }
    }
  }
}

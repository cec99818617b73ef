/** The aggregator's loop takes exactly the protocol's steps. */
module Refinement {
  import opened Alignment
  import opened Delivery
  import opened EndToEnd
  import opened Events
  import opened Expiry
  import opened Lanes
  import opened Offsets
  import opened Protocol
  import opened Sinks
  import opened Windows
  import opened Workers

  /** Each partition's manager and pending offsets are those of its lane, and no other partition has any. */
  ghost predicate Agrees(k: Worker, topic: string, lanes: map<int, Lane>) {
    && k.values.Keys == lanes.Keys
    && (forall p :: p in lanes ==>
          k.values[p] == lanes[p].manager && PendingAt(k.pending, TopicPartition(topic, p)) == lanes[p].pending)
    && (forall p :: p !in lanes ==> PendingAt(k.pending, TopicPartition(topic, p)) == map[])
  }

  /** An aggregator's memory is what the protocol says its replica holds, history aside. */
  ghost predicate Mirrors(k: Worker, topic: string, rep: Replica) {
    k.order == rep.order && Agrees(k, topic, rep.lanes)
  }

  // ------------------------------------------------------------------
  // Polling
  // ------------------------------------------------------------------

  /** The messages of a poll are the next ones of the lane's log. */
  ghost predicate NextMessages(log: Log, lane: Lane, messages: seq<Message>) {
    && Position(lane) + |messages| <= |log|
    && forall i :: 0 <= i < |messages| ==> messages[i] == Message(Position(lane) + i, log[Position(lane) + i])
  }

  function EventsIn(messages: seq<Message>): (events: seq<Event>)
    ensures |events| == |messages| && forall i :: 0 <= i < |messages| ==> events[i] == messages[i].event
  {
    seq(|messages|, i requires 0 <= i < |messages| => messages[i].event)
  }

  /** Receiving a partition's records advances its lane and touches no other. */
  lemma {:induction false} ReceiveIsIngest(cfg: Settings, source: string, topic: string, k: Worker, p: int,
                                           log: Log, lane: Lane, messages: seq<Message>, arrival: real)
    requires cfg.size > 0 && p in k.values && NextMessages(log, lane, messages)
    requires k.values[p] == lane.manager && PendingAt(k.pending, TopicPartition(topic, p)) == lane.pending
    ensures var after, ingested := ReceiveAll(cfg, source, topic, k, p, messages, arrival),
                                   IngestAll(cfg, source, lane, EventsIn(messages), arrival);
      && after.values[p] == ingested.manager && ingested.base == lane.base
      && Position(ingested) == Position(lane) + |messages|
      && PendingAt(after.pending, TopicPartition(topic, p)) == ingested.pending
      && (forall q :: q in k.values && q != p ==> after.values[q] == k.values[q])
      && (forall tp :: tp != TopicPartition(topic, p) ==> PendingAt(after.pending, tp) == PendingAt(k.pending, tp))
  {
    hide AddTo, Noted, Align, Accepts;
    if messages != [] {
      var n := |messages| - 1;
      ReceiveIsIngest(cfg, source, topic, k, p, log, lane, messages[..n], arrival);
      assert EventsIn(messages)[..n] == EventsIn(messages[..n]);
    }
  }

  ghost predicate DistinctPartitions(records: seq<Workers.Records>) {
    forall i, j :: 0 <= i < j < |records| ==> records[i].partition != records[j].partition
  }

  /** How many messages of each partition a poll returned. */
  ghost function CountsOf(records: seq<Workers.Records>): map<int, nat> {
    if records == [] then map[]
    else CountsOf(records[..|records| - 1])[records[|records| - 1].partition := |records[|records| - 1].messages|]
  }

  lemma {:induction false} CountsKeys(records: seq<Workers.Records>)
    ensures forall p :: p in CountsOf(records) <==> exists i :: 0 <= i < |records| && records[i].partition == p
  {
    if records != [] {
      var front := records[..|records| - 1];
      CountsKeys(front);
      forall p ensures p in CountsOf(records) <==> exists i :: 0 <= i < |records| && records[i].partition == p {
        if p in CountsOf(front) {
          var i :| 0 <= i < |front| && front[i].partition == p;
          assert records[i] == front[i];
        }
        if p == records[|records| - 1].partition {
        } else if i :| 0 <= i < |records| && records[i].partition == p {
          assert front[i] == records[i];
        }
      }
    }
  }

  /** Every record belongs to the lane the replica has, or would create, for its partition. */
  ghost predicate RecordsFit(w: World, c: Cluster, rep: Replica, records: seq<Workers.Records>) {
    forall i :: 0 <= i < |records| ==>
      && records[i].partition in w.logs && records[i].partition in c.committed && records[i].partition in rep.owned
      && NextMessages(w.logs[records[i].partition], LaneAt(c, rep, records[i].partition), records[i].messages)
  }

  /** Only one lane moved. */
  lemma AgreesStill(k: Worker, after: Worker, topic: string, lanes: map<int, Lane>, moved: map<int, Lane>, p: int)
    requires Agrees(k, topic, lanes) && moved.Keys == lanes.Keys + {p} && after.values.Keys == k.values.Keys + {p}
    requires forall q :: q in lanes && q != p ==> moved[q] == lanes[q] && after.values[q] == k.values[q]
    requires forall q :: q != p ==>
      PendingAt(after.pending, TopicPartition(topic, q)) == PendingAt(k.pending, TopicPartition(topic, q))
    requires after.values[p] == moved[p].manager
    requires PendingAt(after.pending, TopicPartition(topic, p)) == moved[p].pending
    ensures Agrees(after, topic, moved)
  {
    hide PendingAt;
  }

  lemma {:induction false} FitsTogether(w: World, c: Cluster, rep: Replica, records: seq<Workers.Records>)
    requires RecordsFit(w, c, rep, records)
    ensures PollFits(w, c, rep, CountsOf(records))
  {
    if records != [] {
      var front, last := records[..|records| - 1], records[|records| - 1];
      assert forall i :: 0 <= i < |front| ==> front[i] == records[i];
      FitsTogether(w, c, rep, front);
    }
  }

  lemma {:induction false} PollIsIngest(w: World, c: Cluster, rep: Replica, k: Worker, topic: string,
                                        records: seq<Workers.Records>, arrival: real)
    requires w.cfg.size > 0 && Mirrors(k, topic, rep)
    requires DistinctPartitions(records) && RecordsFit(w, c, rep, records)
    ensures PollFits(w, c, rep, CountsOf(records))
    ensures Agrees(PollInto(w.cfg, w.source, topic, k, records, arrival), topic,
                   PollLanes(w, c, rep, arrival, CountsOf(records)))
  {
    hide PollLanes, Agrees, ReceiveAll, PollFits;
    FitsTogether(w, c, rep, records);
    if records == [] {
      NothingPolled(w, c, rep, arrival);
    } else {
      var front, last := records[..|records| - 1], records[|records| - 1];
      assert forall i :: 0 <= i < |front| ==> front[i] == records[i];
      FitsTogether(w, c, rep, front);
      PollIsIngest(w, c, rep, k, topic, front, arrival);
      PollOneMore(w, c, rep, PollInto(w.cfg, w.source, topic, k, front, arrival), topic, front, last, arrival);
    }
  }

  lemma NothingPolled(w: World, c: Cluster, rep: Replica, arrival: real)
    requires w.cfg.size > 0
    ensures PollFits(w, c, rep, map[]) && PollLanes(w, c, rep, arrival, map[]) == rep.lanes
  {
  }

  lemma PollOneMore(w: World, c: Cluster, rep: Replica, k: Worker, topic: string, front: seq<Workers.Records>,
                    last: Workers.Records, arrival: real)
    requires w.cfg.size > 0 && PollFits(w, c, rep, CountsOf(front))
    requires Agrees(k, topic, PollLanes(w, c, rep, arrival, CountsOf(front)))
    requires forall i :: 0 <= i < |front| ==> front[i].partition != last.partition
    requires RecordsFit(w, c, rep, [last])
    ensures var counts := CountsOf(front)[last.partition := |last.messages|];
      && PollFits(w, c, rep, counts)
      && Agrees(ReceiveAll(w.cfg, w.source, topic, WithManager(k, last.partition), last.partition,
                           last.messages, arrival), topic, PollLanes(w, c, rep, arrival, counts))
  {
    hide IngestAll, ReceiveAll, EventsIn, PendingAt, Agrees, PollLanes, WithManager, CountsOf;
    assert [last][0] == last;
    var p := last.partition;
    var lane, next := LaneAt(c, rep, p), WithManager(k, p);
    CountsKeys(front);
    MessagesAreRecords(w.logs[p], lane, last.messages);
    PollLanesExtended(w, c, rep, arrival, CountsOf(front), p, |last.messages|);
    WithManagerAdds(k, p);
    LaneStands(k, topic, PollLanes(w, c, rep, arrival, CountsOf(front)), c, rep, p);
    ReceiveIsIngest(w.cfg, w.source, topic, next, p, w.logs[p], lane, last.messages, arrival);
    var counts := CountsOf(front)[p := |last.messages|];
    var was, lanes := PollLanes(w, c, rep, arrival, CountsOf(front)), PollLanes(w, c, rep, arrival, counts);
    AgreesStill(k, ReceiveAll(w.cfg, w.source, topic, next, p, last.messages, arrival), topic, was, lanes, p);
  }

  lemma WithManagerAdds(k: Worker, p: int)
    ensures var next := WithManager(k, p);
      && next.values.Keys == k.values.Keys + {p} && next.pending == k.pending
      && forall q :: q in k.values ==> next.values[q] == k.values[q]
  {
  }

  lemma PollLanesExtended(w: World, c: Cluster, rep: Replica, arrival: real, counts: map<int, nat>, p: int, n: nat)
    requires w.cfg.size > 0 && PollFits(w, c, rep, counts) && p !in counts
    requires p in rep.owned && p in c.committed && p in w.logs && Position(LaneAt(c, rep, p)) + n <= |w.logs[p]|
    ensures PollFits(w, c, rep, counts[p := n])
    ensures var was, lanes := PollLanes(w, c, rep, arrival, counts), PollLanes(w, c, rep, arrival, counts[p := n]);
      && rep.lanes.Keys <= was.Keys && lanes.Keys == was.Keys + {p}
      && (p in was ==> p in rep.lanes && was[p] == rep.lanes[p])
      && (forall q :: q in was && q != p ==> lanes[q] == was[q])
      && lanes[p] == IngestAll(w.cfg, w.source, LaneAt(c, rep, p),
                               Protocol.Records(w.logs[p], LaneAt(c, rep, p), n), arrival)
  {
    hide IngestAll;
  }

  lemma LaneStands(k: Worker, topic: string, lanes: map<int, Lane>, c: Cluster, rep: Replica, p: int)
    requires Agrees(k, topic, lanes) && rep.lanes.Keys <= lanes.Keys && p in c.committed
    requires p in lanes ==> p in rep.lanes && lanes[p] == rep.lanes[p]
    ensures k.values.Keys == lanes.Keys
    ensures PendingAt(k.pending, TopicPartition(topic, p)) == LaneAt(c, rep, p).pending
    ensures WithManager(k, p).values[p] == LaneAt(c, rep, p).manager
  {
  }

  lemma MessagesAreRecords(log: Log, lane: Lane, messages: seq<Message>)
    requires NextMessages(log, lane, messages)
    ensures EventsIn(messages) == Protocol.Records(log, lane, |messages|)
  {
  }

  /** A poll of the loop is the protocol's Poll. */
  lemma PollRefines(w: World, c: Cluster, r: int, k: Worker, topic: string, records: seq<Workers.Records>,
                    arrival: real)
    requires Shaped(w, c) && r in c.replicas && c.replicas[r].stage.Idle? && Mirrors(k, topic, c.replicas[r])
    requires DistinctPartitions(records) && RecordsFit(w, c, c.replicas[r], records)
    requires w.source == ARRIVAL ==> forall p :: p in c.replicas[r].owned && p in c.clock ==> c.clock[p] <= arrival
    ensures var k1 := PollInto(w.cfg, w.source, topic, k, records, arrival);
      var a := Poll(r, arrival, CountsOf(records), k1.order);
      && Enabled(w, c, a) && Mirrors(k1, topic, Next(w, c, a).replicas[r])
  {
    hide Sized, IngestAll, PollInto;
    PollIsIngest(w, c, c.replicas[r], k, topic, records, arrival);
    PollOrder(w.cfg, w.source, topic, k, records, arrival);
  }

  lemma {:induction false} PollOrder(cfg: Settings, source: string, topic: string, k: Worker,
                                     records: seq<Workers.Records>, arrival: real)
    requires cfg.size > 0 && Lists(k.order, k.values.Keys)
    ensures var k1 := PollInto(cfg, source, topic, k, records, arrival); Lists(k1.order, k1.values.Keys)
  {
    if records != [] {
      PollOrder(cfg, source, topic, k, records[..|records| - 1], arrival);
    }
  }

  // ------------------------------------------------------------------
  // Flushing
  // ------------------------------------------------------------------

  lemma AgreedIsFormed(w: World, k: Worker, topic: string, lanes: map<int, Lane>)
    requires Sized(w, lanes) && Agrees(k, topic, lanes)
    ensures Formed(w.cfg, k.values) && AllWellSized(w.cfg, k.values)
  {
  }

  lemma SlicesAgree(w: World, k: Worker, topic: string, lanes: map<int, Lane>, p: int, now: real)
    requires Sized(w, lanes) && Agrees(k, topic, lanes) && p in lanes
    ensures AllSized(w.cfg, k.values[p].windows) && AllSized(w.cfg, lanes[p].manager.windows)
    ensures SlicesAt(w.cfg, w.source, k.values[p], now) == LaneSlices(w.cfg, w.source, lanes[p], now)
  {
  }

  /** The flush collects the protocol's entries, in the same order. */
  lemma {:induction false} EntriesAreCollected(w: World, k: Worker, topic: string, lanes: map<int, Lane>,
                                               order: seq<int>, now: real)
    requires Sized(w, lanes) && Agrees(k, topic, lanes) && AllWellSized(w.cfg, k.values)
    ensures Entries(w.cfg, w.source, k.values, order, now) == AsWrites(Collect(w, lanes, order, now))
  {
    hide Sized, LaneSlices, SlicesAt, AllWellSized, AllSized;
    if order != [] {
      var p := order[|order| - 1];
      EntriesAreCollected(w, k, topic, lanes, order[..|order| - 1], now);
      if p in lanes { SlicesAgree(w, k, topic, lanes, p, now); }
    }
  }

  lemma ThroughAgrees(w: World, k: Worker, topic: string, lanes: map<int, Lane>, now: real)
    requires Sized(w, lanes) && Agrees(k, topic, lanes) && AllWellSized(w.cfg, k.values)
    ensures ThroughAt(w.cfg, w.source, k.values, now) == Through(w, lanes, now)
  {
    hide Sized, LaneSlices, SlicesAt, AllWellSized, AllSized;
    var a, b := ThroughAt(w.cfg, w.source, k.values, now), Through(w, lanes, now);
    forall p | p in lanes
      ensures (p in a <==> p in b) && (p in a ==> a[p] == b[p])
    {
      SlicesAgree(w, k, topic, lanes, p, now);
    }
    assert a.Keys == b.Keys;
  }

  lemma StatesAgree(w: World, k: Worker, topic: string, lanes: map<int, Lane>, now: real)
    requires w.cfg.size > 0 && Agrees(k, topic, lanes)
    ensures Agrees(k.(values := StatesAt(w.cfg, w.source, k.values, now)), topic, PopLanes(w, lanes, now))
  {
    hide PopState, PendingAt;
  }

  /** Releasing up to `through` partition by partition is the protocol's Release. */
  lemma ReleaseAgrees(k: Worker, topic: string, lanes: map<int, Lane>, through: map<int, int>)
    requires Agrees(k, topic, lanes) && through.Keys <= lanes.Keys
    ensures Agrees(k.(pending := ReleasedPending(k.pending, topic, through)), topic, ReleaseLanes(lanes, through))
    ensures CommitsAt(k.pending, topic, through) == Commits(lanes, through)
  {
    hide PendingAt, Remaining, Released, ReleasedPending, CommitsAt, Commits;
    forall p { ReleasedAt(k.pending, topic, through, p); }
    CommitsAgree(k, topic, lanes, through);
  }

  lemma ReleasedAt(pending: map<TopicPartition, Pending>, topic: string, through: map<int, int>, p: int)
    ensures var tp := TopicPartition(topic, p);
      PendingAt(ReleasedPending(pending, topic, through), tp)
      == if p in through then Remaining(PendingAt(pending, tp), through[p]) else PendingAt(pending, tp)
  {
    if p in through { assert Remaining(map[], through[p]) == map[]; }
  }

  lemma CommitsAgree(k: Worker, topic: string, lanes: map<int, Lane>, through: map<int, int>)
    requires Agrees(k, topic, lanes) && through.Keys <= lanes.Keys
    ensures CommitsAt(k.pending, topic, through) == Commits(lanes, through)
  {
    hide Released, PendingAt;
    var a, b := CommitsAt(k.pending, topic, through), Commits(lanes, through);
    forall p ensures (p in a <==> p in b) && (p in a ==> a[p] == b[p]) {}
    assert a.Keys == b.Keys;
  }

  /** Closing the windows in memory is the protocol's Pop. */
  lemma PopRefines(w: World, c: Cluster, r: int, k: Worker, topic: string)
    requires Shaped(w, c) && r in c.replicas && c.replicas[r].stage.Polled? && Mirrors(k, topic, c.replicas[r])
    ensures AllWellSized(w.cfg, k.values)
    ensures var now, after := c.replicas[r].stage.arrival, Next(w, c, Pop(r));
      var entries := Entries(w.cfg, w.source, k.values, k.order, now);
      && r in after.replicas
      && Mirrors(k.(values := StatesAt(w.cfg, w.source, k.values, now)), topic, after.replicas[r])
      && after.committed == c.committed && after.trace == c.trace
      && if entries == [] then after.replicas[r].stage.Idle?
         else after.replicas[r].stage.Popped? && AsWrites(after.replicas[r].stage.entries) == entries
              && after.replicas[r].stage.through == ThroughAt(w.cfg, w.source, k.values, now)
              && after.replicas[r].stage.through.Keys <= after.replicas[r].lanes.Keys
  {
    hide Agrees, Collect, Through, PopLanes, AllWellSized, Lists, Discarded, Entries, StatesAt, ThroughAt;
    var lanes, now := c.replicas[r].lanes, c.replicas[r].stage.arrival;
    AgreedIsFormed(w, k, topic, lanes);
    EntriesAreCollected(w, k, topic, lanes, k.order, now);
    ThroughAgrees(w, k, topic, lanes, now);
    StatesAgree(w, k, topic, lanes, now);
    assert Through(w, lanes, now).Keys <= PopLanes(w, lanes, now).Keys by { ThroughKeys(w, lanes, now); }
  }

  lemma ThroughKeys(w: World, lanes: map<int, Lane>, now: real)
    requires Sized(w, lanes)
    ensures Through(w, lanes, now).Keys <= PopLanes(w, lanes, now).Keys
  {
  }

  /** Write, release, commit: the protocol's last three steps. */
  lemma WriteRefines(w: World, c: Cluster, r: int, k: Worker, topic: string)
    requires Shaped(w, c) && r in c.replicas && c.replicas[r].stage.Popped? && Mirrors(k, topic, c.replicas[r])
    requires c.replicas[r].stage.through.Keys <= c.replicas[r].lanes.Keys
    ensures Shaped(w, Next(w, c, Persist(r))) && Shaped(w, Next(w, Next(w, c, Persist(r)), Release(r)))
    ensures var through := c.replicas[r].stage.through;
      var after := Next(w, Next(w, Next(w, c, Persist(r)), Release(r)), Commit(r));
      && r in after.replicas && after.replicas[r].stage.Idle?
      && Mirrors(k.(pending := ReleasedPending(k.pending, topic, through)), topic, after.replicas[r])
      && after.committed == c.committed + CommitsAt(k.pending, topic, through)
  {
    hide Agrees, Shaped, ReleaseLanes, Commits, CommitsAt, ReleasedPending, PollFits, Lists;
    ReleaseAgrees(k, topic, c.replicas[r].lanes, c.replicas[r].stage.through);
    NextKeepsShape(w, c, Persist(r));
    NextKeepsShape(w, Next(w, c, Persist(r)), Release(r));
  }

  // ------------------------------------------------------------------
  // Whole turns
  // ------------------------------------------------------------------

  /** An aggregator's memory, Redis and the broker are those of the protocol after a history. */
  ghost predicate Simulates(w: World, historyMax: int, topic: string, r: int, n: Node, history: seq<Moment>) {
    && Started(w) && r in ClusterAfter(w, history).replicas && ClusterAfter(w, history).replicas[r].stage.Idle?
    && Mirrors(n.worker, topic, ClusterAfter(w, history).replicas[r])
    && n.store == RedisAfter(w, historyMax, history) && n.committed == ClusterAfter(w, history).committed
  }

  /** A worker with whatever Redis and the broker hold after a history. */
  ghost function Beside(w: World, historyMax: int, k: Worker, history: seq<Moment>): Node
    requires Started(w)
  {
    Node(k, RedisAfter(w, historyMax, history), ClusterAfter(w, history).committed)
  }

  /** A newly constructed aggregator, with whatever Redis and the broker already hold, is a replica that just joined. */
  lemma JoinRefines(w: World, historyMax: int, topic: string, r: int, owned: set<int>, history: seq<Moment>)
    requires Started(w) && Enabled(w, ClusterAfter(w, history), Join(r, owned))
    ensures var joined := history + [Act(Join(r, owned))];
      Simulates(w, historyMax, topic, r, Beside(w, historyMax, Worker([], map[], map[]), joined), joined)
      && RedisAfter(w, historyMax, joined) == RedisAfter(w, historyMax, history)
      && ClusterAfter(w, joined).committed == ClusterAfter(w, history).committed
  {
    hide RedisAfter, ClusterAfter;
    ActSnoc(w, historyMax, history, Join(r, owned));
  }

  /** What the broker may hand a replica: the next records of partitions it owns, at a clock that does not go back. */
  ghost predicate Delivered(w: World, c: Cluster, r: int, t: Turn) {
    && r in c.replicas && DistinctPartitions(t.records) && RecordsFit(w, c, c.replicas[r], t.records)
    && (w.source == ARRIVAL ==> forall p :: p in c.replicas[r].owned && p in c.clock ==> c.clock[p] <= t.arrival)
  }

  /** The protocol's steps for one turn of the loop. */
  ghost function TurnSteps(w: World, topic: string, r: int, k: Worker, t: Turn): seq<Moment>
    requires Formed(w.cfg, k.values)
  {
    var polled := PollInto(w.cfg, w.source, topic, k, t.records, t.arrival);
    PollFormed(w.cfg, w.source, topic, k, t.records, t.arrival);
    FormedIsSized(w.cfg, polled.values);
    var poll := [Act(Poll(r, t.arrival, CountsOf(t.records), polled.order)), Act(Pop(r))];
    if Entries(w.cfg, w.source, polled.values, polled.order, t.arrival) == [] || !t.sinkUp then poll
    else poll + [Act(Persist(r)), Act(Release(r)), Act(Commit(r))]
  }

  /** Polling and closing windows: the memory follows, nothing durable moves. */
  lemma PollAndPop(w: World, historyMax: int, topic: string, r: int, n: Node, history: seq<Moment>, t: Turn)
    requires Simulates(w, historyMax, topic, r, n, history) && Delivered(w, ClusterAfter(w, history), r, t)
    ensures Formed(w.cfg, n.worker.values)
    ensures var polled := PollInto(w.cfg, w.source, topic, n.worker, t.records, t.arrival);
      && AllWellSized(w.cfg, polled.values)
      && var entries := Entries(w.cfg, w.source, polled.values, polled.order, t.arrival);
      var popped := history + [Act(Poll(r, t.arrival, CountsOf(t.records), polled.order))] + [Act(Pop(r))];
      var c := ClusterAfter(w, popped);
      && r in c.replicas
      && Mirrors(polled.(values := StatesAt(w.cfg, w.source, polled.values, t.arrival)), topic, c.replicas[r])
      && RedisAfter(w, historyMax, popped) == n.store && c.committed == n.committed
      && if entries == [] then c.replicas[r].stage.Idle?
         else c.replicas[r].stage.Popped? && AsWrites(c.replicas[r].stage.entries) == entries
              && c.replicas[r].stage.through == ThroughAt(w.cfg, w.source, polled.values, t.arrival)
              && c.replicas[r].stage.through.Keys <= c.replicas[r].lanes.Keys
  {
    hide Mirrors, ClusterAfter, RedisAfter, Batch, AsWrites, Formed, AllWellSized, RecordsFit, DistinctPartitions,
      PollFits, Lists, Entries, StatesAt, ThroughAt, CountsOf, PollInto, PollLanes, Shaped;
    var c := ClusterAfter(w, history);
    MirroredIsFormed(w, c, r, n.worker, topic);
    PollRefines(w, c, r, n.worker, topic, t.records, t.arrival);
    var polled := PollInto(w.cfg, w.source, topic, n.worker, t.records, t.arrival);
    var poll := Poll(r, t.arrival, CountsOf(t.records), polled.order);
    ActSnoc(w, historyMax, history, poll);
    PopRefines(w, ClusterAfter(w, history + [Act(poll)]), r, polled, topic);
    ActSnoc(w, historyMax, history + [Act(poll)], Pop(r));
  }

  lemma MirroredIsFormed(w: World, c: Cluster, r: int, k: Worker, topic: string)
    requires Shaped(w, c) && r in c.replicas && Mirrors(k, topic, c.replicas[r])
    ensures Formed(w.cfg, k.values)
  {
    hide WellFormed;
  }

  /**
   * One turn of the loop as written is a few steps of the protocol. If the sink fails with something to write, nothing
   * durable has moved and the replica is where a crash finds it, between closing its windows and writing them.
   */
  lemma TurnRefines(w: World, historyMax: int, topic: string, r: int, n: Node, history: seq<Moment>, t: Turn)
    requires Simulates(w, historyMax, topic, r, n, history) && Delivered(w, ClusterAfter(w, history), r, t)
    ensures Formed(w.cfg, n.worker.values)
    ensures var after, all := TurnOf(w.cfg, w.source, topic, historyMax, n, t),
                              history + TurnSteps(w, topic, r, n.worker, t);
      && (Continues(w.cfg, w.source, topic, n, t) ==> Simulates(w, historyMax, topic, r, after, all))
      && after.store == RedisAfter(w, historyMax, all) && after.committed == ClusterAfter(w, all).committed
      && r in ClusterAfter(w, all).replicas
      && if Continues(w.cfg, w.source, topic, n, t) then ClusterAfter(w, all).replicas[r].stage.Idle?
         else ClusterAfter(w, all).replicas[r].stage.Popped?
  {
    hide Mirrors, ClusterAfter, RedisAfter, Batch, AsWrites, Formed, AllWellSized, RecordsFit, DistinctPartitions,
      PollFits, Lists, Entries, StatesAt, ThroughAt, CommitsAt, ReleasedPending, CountsOf, PollInto, Next, Shaped;
    PollAndPop(w, historyMax, topic, r, n, history, t);
    var polled := PollInto(w.cfg, w.source, topic, n.worker, t.records, t.arrival);
    var poll := Act(Poll(r, t.arrival, CountsOf(t.records), polled.order));
    var popped := history + [poll] + [Act(Pop(r))];
    if Entries(w.cfg, w.source, polled.values, polled.order, t.arrival) == [] || !t.sinkUp {
      assert history + [poll, Act(Pop(r))] == popped;
    } else {
      var states := polled.(values := StatesAt(w.cfg, w.source, polled.values, t.arrival));
      WriteAfterPop(w, historyMax, topic, r, states, popped);
      assert history + ([poll, Act(Pop(r))] + [Act(Persist(r)), Act(Release(r)), Act(Commit(r))])
          == popped + [Act(Persist(r))] + [Act(Release(r))] + [Act(Commit(r))];
    }
  }

  lemma WriteAfterPop(w: World, historyMax: int, topic: string, r: int, k: Worker, popped: seq<Moment>)
    requires Started(w) && r in ClusterAfter(w, popped).replicas && ClusterAfter(w, popped).replicas[r].stage.Popped?
    requires Mirrors(k, topic, ClusterAfter(w, popped).replicas[r])
    requires ClusterAfter(w, popped).replicas[r].stage.through.Keys <= ClusterAfter(w, popped).replicas[r].lanes.Keys
    ensures var stage, all := ClusterAfter(w, popped).replicas[r].stage,
                              popped + [Act(Persist(r))] + [Act(Release(r))] + [Act(Commit(r))];
      Simulates(w, historyMax, topic, r,
                Node(k.(pending := ReleasedPending(k.pending, topic, stage.through)),
                     Batch(historyMax, RedisAfter(w, historyMax, popped), AsWrites(stage.entries)),
                     ClusterAfter(w, popped).committed + CommitsAt(k.pending, topic, stage.through)), all)
  {
    hide Mirrors, ClusterAfter, RedisAfter, Batch, AsWrites, CommitsAt, ReleasedPending, Next, Shaped;
    WriteRefines(w, ClusterAfter(w, popped), r, k, topic);
    ActSnoc(w, historyMax, popped, Persist(r));
    ActSnoc(w, historyMax, popped + [Act(Persist(r))], Release(r));
    ActSnoc(w, historyMax, popped + [Act(Persist(r))] + [Act(Release(r))], Commit(r));
  }

  // ------------------------------------------------------------------
  // Whole runs, beside other replicas and expiring hashes
  // ------------------------------------------------------------------

  /** What happens next: a turn of this loop, a step of another replica, or a hash in Redis expiring. */
  datatype Happening = Ours(turn: Turn) | Others(moment: Moment)

  /** A moment that is not a step of this replica. */
  predicate NotOurs(r: int, m: Moment) {
    m.Act? ==> m.action.r != r
  }

  /** Another replica's step, or an expiry, leaves the memory of this loop as it is and moves what all share. */
  lemma OthersKeepSimulation(w: World, historyMax: int, topic: string, r: int, n: Node, history: seq<Moment>, m: Moment)
    requires Simulates(w, historyMax, topic, r, n, history) && NotOurs(r, m)
    ensures Simulates(w, historyMax, topic, r, Beside(w, historyMax, n.worker, history + [m]), history + [m])
  {
    hide RedisAfter, Mirrors, Run;
    match m
    case Act(a) =>
      ActSnoc(w, historyMax, history, a);
      OtherReplicaStays(w, ClusterAfter(w, history), r, a);
    case Lapse(start) => LapseSnoc(w, historyMax, history, start);
  }

  lemma OtherReplicaStays(w: World, c: Cluster, r: int, a: Action)
    requires Shaped(w, c) && r in c.replicas && a.r != r
    ensures r in Next(w, c, a).replicas && Next(w, c, a).replicas[r] == c.replicas[r]
  {
    hide Shaped, PollFits, Lists;
  }

  /** The loop and the protocol side by side. */
  datatype Pair = Pair(node: Node, history: seq<Moment>)

  ghost function Together(w: World, historyMax: int, topic: string, r: int, start: Pair, all: seq<Happening>): (p: Pair)
    requires Started(w) && Formed(w.cfg, start.node.worker.values)
    ensures Formed(w.cfg, p.node.worker.values)
  {
    if all == [] then start
    else
      var before := Together(w, historyMax, topic, r, start, all[..|all| - 1]);
      match all[|all| - 1]
      case Ours(t) =>
        PollFormed(w.cfg, w.source, topic, before.node.worker, t.records, t.arrival);
        StatesFormed(w.cfg, w.source, PollInto(w.cfg, w.source, topic, before.node.worker, t.records, t.arrival).values,
                     t.arrival);
        Pair(TurnOf(w.cfg, w.source, topic, historyMax, before.node, t),
             before.history + TurnSteps(w, topic, r, before.node.worker, t))
      case Others(m) =>
        Pair(Beside(w, historyMax, before.node.worker, before.history + [m]), before.history + [m])
  }

  /** The broker may deliver this turn's records; a moment of others is not ours. */
  ghost predicate Admitted(w: World, r: int, before: Pair, h: Happening)
    requires Started(w)
  {
    match h
    case Ours(t) => Delivered(w, ClusterAfter(w, before.history), r, t)
    case Others(m) => NotOurs(r, m)
  }

  /** Everything that happens is admitted, and none of our turns ends the loop. */
  ghost predicate Ongoing(w: World, historyMax: int, topic: string, r: int, start: Pair, all: seq<Happening>)
    requires Started(w) && Formed(w.cfg, start.node.worker.values)
  {
    all == []
    || (var front, last := all[..|all| - 1], all[|all| - 1];
        var before := Together(w, historyMax, topic, r, start, front);
        && Ongoing(w, historyMax, topic, r, start, front) && Admitted(w, r, before, last)
        && (last.Ours? ==> Continues(w.cfg, w.source, topic, before.node, last.turn)))
  }

  /** As `Ongoing`, but the last turn may end the loop. */
  ghost predicate Possible(w: World, historyMax: int, topic: string, r: int, start: Pair, all: seq<Happening>)
    requires Started(w) && Formed(w.cfg, start.node.worker.values)
  {
    all == []
    || (Ongoing(w, historyMax, topic, r, start, all[..|all| - 1])
        && Admitted(w, r, Together(w, historyMax, topic, r, start, all[..|all| - 1]), all[|all| - 1]))
  }

  lemma {:induction false} OngoingRefines(w: World, historyMax: int, topic: string, r: int, start: Pair,
                                          all: seq<Happening>)
    requires Simulates(w, historyMax, topic, r, start.node, start.history) && Formed(w.cfg, start.node.worker.values)
    requires Ongoing(w, historyMax, topic, r, start, all)
    ensures var p := Together(w, historyMax, topic, r, start, all);
      Simulates(w, historyMax, topic, r, p.node, p.history)
  {
    hide Simulates, Delivered, Formed, TurnOf, TurnSteps, Continues, Beside;
    if all != [] {
      var front := all[..|all| - 1];
      SimulationStarted(w, historyMax, topic, r, start.node, start.history);
      OngoingRefines(w, historyMax, topic, r, start, front);
      var before := Together(w, historyMax, topic, r, start, front);
      match all[|all| - 1]
      case Ours(t) => TurnRefines(w, historyMax, topic, r, before.node, before.history, t);
      case Others(m) => OthersKeepSimulation(w, historyMax, topic, r, before.node, before.history, m);
    }
  }

  lemma SimulationStarted(w: World, historyMax: int, topic: string, r: int, n: Node, history: seq<Moment>)
    requires Simulates(w, historyMax, topic, r, n, history)
    ensures Started(w)
  {
  }

  /** What a simulation says of what survives it. */
  lemma SimulationIsDurable(w: World, historyMax: int, topic: string, r: int, n: Node, history: seq<Moment>)
    requires Simulates(w, historyMax, topic, r, n, history)
    ensures Started(w) && n.store == RedisAfter(w, historyMax, history)
    ensures n.committed == ClusterAfter(w, history).committed
  {
  }

  /**
   * Between the turns of the loop other replicas may join, poll, close, write, release, commit and crash, and hashes
   * expire, as they like: Redis and the committed offsets are the protocol's, even after a last turn that ends the loop
   * at a failing sink, and the loop is still the protocol's replica if it did not.
   */
  lemma SharedRunRefines(w: World, historyMax: int, topic: string, r: int, start: Pair, all: seq<Happening>)
    requires Simulates(w, historyMax, topic, r, start.node, start.history) && Formed(w.cfg, start.node.worker.values)
    requires Possible(w, historyMax, topic, r, start, all)
    ensures var p := Together(w, historyMax, topic, r, start, all);
      && p.node.store == RedisAfter(w, historyMax, p.history)
      && p.node.committed == ClusterAfter(w, p.history).committed
      && (Ongoing(w, historyMax, topic, r, start, all) ==> Simulates(w, historyMax, topic, r, p.node, p.history))
  {
    hide Simulates, Delivered, Formed, TurnOf, TurnSteps, Continues, RedisAfter, ClusterAfter;
    SimulationIsDurable(w, historyMax, topic, r, start.node, start.history);
    if Ongoing(w, historyMax, topic, r, start, all) { OngoingRefines(w, historyMax, topic, r, start, all); }
    if all != [] {
      var front, last := all[..|all| - 1], all[|all| - 1];
      OngoingRefines(w, historyMax, topic, r, start, front);
      var before := Together(w, historyMax, topic, r, start, front);
      if last.Ours? { TurnRefines(w, historyMax, topic, r, before.node, before.history, last.turn); }
    }
  }

  // ------------------------------------------------------------------
  // The loop by itself
  // ------------------------------------------------------------------

  function Alone(turns: seq<Turn>): (all: seq<Happening>)
    ensures |all| == |turns| && forall i :: 0 <= i < |turns| ==> all[i] == Ours(turns[i])
  {
    seq(|turns|, i requires 0 <= i < |turns| => Ours(turns[i]))
  }

  /** Without others in between, the loop side by side with the protocol is simply the loop. */
  lemma {:induction false} AloneIsRun(w: World, historyMax: int, topic: string, r: int, start: Pair, turns: seq<Turn>)
    requires Started(w) && Formed(w.cfg, start.node.worker.values)
    ensures Together(w, historyMax, topic, r, start, Alone(turns)).node
         == RunOf(w.cfg, w.source, topic, historyMax, start.node, turns)
  {
    hide Formed, TurnOf, TurnSteps;
    if turns != [] {
      AloneIsRun(w, historyMax, topic, r, start, turns[..|turns| - 1]);
      assert Alone(turns)[..|turns| - 1] == Alone(turns[..|turns| - 1]);
    }
  }

  lemma {:induction false} GoingIsOngoing(w: World, historyMax: int, topic: string, r: int, start: Pair,
                                          turns: seq<Turn>)
    requires Started(w) && Formed(w.cfg, start.node.worker.values)
    requires Possible(w, historyMax, topic, r, start, Alone(turns))
    ensures Going(w.cfg, w.source, topic, historyMax, start.node, turns)
            <==> Ongoing(w, historyMax, topic, r, start, Alone(turns))
  {
    hide Formed, TurnOf, TurnSteps, Continues, Admitted, Together, RunOf;
    if turns != [] {
      var front := turns[..|turns| - 1];
      assert Alone(turns)[..|turns| - 1] == Alone(front);
      AloneIsRun(w, historyMax, topic, r, start, front);
      OngoingIsPossible(w, historyMax, topic, r, start, Alone(front));
      GoingIsOngoing(w, historyMax, topic, r, start, front);
    }
  }

  lemma OngoingIsPossible(w: World, historyMax: int, topic: string, r: int, start: Pair, all: seq<Happening>)
    requires Started(w) && Formed(w.cfg, start.node.worker.values)
    requires Ongoing(w, historyMax, topic, r, start, all)
    ensures Possible(w, historyMax, topic, r, start, all)
  {
    hide Formed, Continues, Admitted, Together;
  }

  /**
   * Every run of the loop as written is a run of the protocol with the same Redis and the same committed offsets, even
   * if its last turn ends it at a failing sink; what is proved of the protocol holds of the loop.
   */
  lemma RunRefines(w: World, historyMax: int, topic: string, r: int, start: Pair, turns: seq<Turn>)
    requires Simulates(w, historyMax, topic, r, start.node, start.history) && Formed(w.cfg, start.node.worker.values)
    requires Possible(w, historyMax, topic, r, start, Alone(turns))
    ensures var after, history := RunOf(w.cfg, w.source, topic, historyMax, start.node, turns),
                                  Together(w, historyMax, topic, r, start, Alone(turns)).history;
      && after.store == RedisAfter(w, historyMax, history) && after.committed == ClusterAfter(w, history).committed
      && (Going(w.cfg, w.source, topic, historyMax, start.node, turns) ==>
            Simulates(w, historyMax, topic, r, after, history))
  {
    hide Simulates, Formed, RunOf, Together, RedisAfter, ClusterAfter, Going, Ongoing, Possible;
    SimulationStarted(w, historyMax, topic, r, start.node, start.history);
    SharedRunRefines(w, historyMax, topic, r, start, Alone(turns));
    AloneIsRun(w, historyMax, topic, r, start, turns);
    GoingIsOngoing(w, historyMax, topic, r, start, turns);
  }

  /**
   * Event time: whatever crashed before, however the broker cuts the log into polls, whatever other replicas do and
   * whichever hashes expire between the turns of the loop, Redis holds exactly the complete summaries of the keys
   * written and live.
   */
  lemma LoopWritesTheTruth(w: World, historyMax: int, topic: string, r: int, start: Pair, all: seq<Happening>)
    requires ValidWorld(w) && w.source == EVENT
    requires Simulates(w, historyMax, topic, r, start.node, start.history) && Formed(w.cfg, start.node.worker.values)
    requires Possible(w, historyMax, topic, r, start, all)
    ensures var p := Together(w, historyMax, topic, r, start, all);
      var keys, live := WrittenKeys(ClusterAfter(w, p.history).trace), LiveKeys(SinkSteps(w, p.history));
      && live <= keys && (forall key :: key in keys ==> key.1 in w.logs)
      && p.node.store == TrueStore(w, historyMax, keys, live)
  {
    hide Together, TrueStore, WrittenKeys, Formed, RedisAfter, Run, Possible, Ongoing, Simulates, SinkSteps, LiveKeys;
    SharedRunRefines(w, historyMax, topic, r, start, all);
    RedisHoldsTheTruth(w, historyMax, Together(w, historyMax, topic, r, start, all).history);
  }
}

/** What one poll and one flush of an aggregator compute, partition by partition. */
module Workers {
  import opened Alignment
  import opened Events
  import opened Lanes
  import opened Offsets
  import opened Sinks
  import opened Tallies
  import opened Windows

  datatype Message = Message(offset: int, event: Event)

  /** The records of one partition in one poll. */
  datatype Records = Records(partition: int, messages: seq<Message>)

  /** The in-memory state of an aggregator; a crash loses all of it. */
  datatype Worker = Worker(order: seq<int>, values: map<int, Manager>, pending: map<TopicPartition, Pending>)

  function PendingAt(pending: map<TopicPartition, Pending>, tp: TopicPartition): Pending {
    if tp in pending then pending[tp] else map[]
  }

  function WithManager(w: Worker, p: int): Worker {
    if p in w.values then w else w.(values := w.values[p := FRESH], order := w.order + [p])
  }

  /** Count one message, and record its offset unless it was late. */
  function Receive(cfg: Settings, source: string, topic: string, w: Worker, p: int, m: Message, arrival: real): Worker
    requires cfg.size > 0 && p in w.values
  {
    var ts, tp := EventTimestamp(m.event, arrival, source), TopicPartition(topic, p);
    Worker(w.order, w.values[p := AddTo(cfg, w.values[p], m.event, ts)],
           if Accepts(cfg, w.values[p], ts)
           then w.pending[tp := Noted(PendingAt(w.pending, tp), m.offset, Align(cfg.size, ts))] else w.pending)
  }

  function ReceiveAll(cfg: Settings, source: string, topic: string, w: Worker, p: int, messages: seq<Message>,
                      arrival: real)
    : (r: Worker)
    requires cfg.size > 0 && p in w.values
    ensures r.values.Keys == w.values.Keys && r.order == w.order
  {
    if messages == [] then w
    else Receive(cfg, source, topic, ReceiveAll(cfg, source, topic, w, p, messages[..|messages| - 1], arrival), p,
                 messages[|messages| - 1], arrival)
  }

  lemma ReceiveOneMore(cfg: Settings, source: string, topic: string, w: Worker, p: int, messages: seq<Message>, i: nat,
                       arrival: real)
    requires cfg.size > 0 && p in w.values && i < |messages|
    ensures ReceiveAll(cfg, source, topic, w, p, messages[..i + 1], arrival)
         == Receive(cfg, source, topic, ReceiveAll(cfg, source, topic, w, p, messages[..i], arrival), p, messages[i],
                    arrival)
  {
    assert messages[..i + 1][..i] == messages[..i];
  }

  /** One poll: the records of each partition in turn. */
  function PollInto(cfg: Settings, source: string, topic: string, w: Worker, records: seq<Records>,
                    arrival: real): Worker
    requires cfg.size > 0
  {
    if records == [] then w
    else
      var before, last := PollInto(cfg, source, topic, w, records[..|records| - 1], arrival), records[|records| - 1];
      ReceiveAll(cfg, source, topic, WithManager(before, last.partition), last.partition, last.messages, arrival)
  }

  predicate AllWellSized(cfg: Settings, values: map<int, Manager>) {
    cfg.size > 0 && forall p :: p in values ==> AllSized(cfg, values[p].windows)
  }

  function SlicesAt(cfg: Settings, source: string, m: Manager, now: real): seq<Slice>
    requires cfg.size > 0 && AllSized(cfg, m.windows)
  {
    var clock := Clock(source, m, now);
    if clock.None? then [] else PopSlices(cfg, m, clock.value)
  }

  ghost function StateAt(cfg: Settings, source: string, m: Manager, now: real): Manager
    requires cfg.size > 0
  {
    var clock := Clock(source, m, now);
    if clock.None? then m else PopState(cfg, m, clock.value)
  }

  function Tagged(p: int, slices: seq<Slice>): (writes: seq<Write>)
    ensures |writes| == |slices| && forall i :: 0 <= i < |slices| ==> writes[i] == Write(p, slices[i])
  {
    seq(|slices|, i requires 0 <= i < |slices| => Write(p, slices[i]))
  }

  /** Everything due, partition after partition in the order the managers were created. */
  function Entries(cfg: Settings, source: string, values: map<int, Manager>, order: seq<int>, now: real): seq<Write>
    requires AllWellSized(cfg, values)
  {
    if order == [] then []
    else
      var p, before := order[|order| - 1], Entries(cfg, source, values, order[..|order| - 1], now);
      if p in values then before + Tagged(p, SlicesAt(cfg, source, values[p], now)) else before
  }

  /** The last window each partition emitted. */
  ghost function ThroughAt(cfg: Settings, source: string, values: map<int, Manager>, now: real): map<int, int>
    requires AllWellSized(cfg, values)
  {
    map p | p in values && SlicesAt(cfg, source, values[p], now) != [] ::
      var out := SlicesAt(cfg, source, values[p], now);
      out[|out| - 1].windowStart
  }

  ghost function StatesAt(cfg: Settings, source: string, values: map<int, Manager>, now: real): map<int, Manager>
    requires cfg.size > 0
  {
    map p | p in values :: StateAt(cfg, source, values[p], now)
  }

  /** The pending offsets once every partition in `through` is released. */
  ghost function ReleasedPending(pending: map<TopicPartition, Pending>, topic: string, through: map<int, int>)
    : map<TopicPartition, Pending>
  {
    map tp | tp in pending ::
      if tp.topic == topic && tp.partition in through then Remaining(pending[tp], through[tp.partition])
      else pending[tp]
  }

  ghost function CommitsAt(pending: map<TopicPartition, Pending>, topic: string, through: map<int,
                           int>): map<int, nat> {
    map p | p in through && Released(PendingAt(pending, TopicPartition(topic, p)), through[p]).Some? ::
      Released(PendingAt(pending, TopicPartition(topic, p)), through[p]).value
  }

  /** What a flush leaves in memory and at the broker once the sink has taken the entries. */
  ghost function FlushedWorker(cfg: Settings, source: string, topic: string, w: Worker, now: real): Worker
    requires AllWellSized(cfg, w.values)
  {
    Worker(w.order, StatesAt(cfg, source, w.values, now),
           ReleasedPending(w.pending, topic, ThroughAt(cfg, source, w.values, now)))
  }

  // ------------------------------------------------------------------
  // The main loop
  // ------------------------------------------------------------------

  /** What one turn of the loop is given: the wall clock, the records, and whether Redis answers. */
  datatype Turn = Turn(arrival: real, records: seq<Records>, sinkUp: bool)

  /** An aggregator with what survives it: Redis and the offsets at the broker. */
  datatype Node = Node(worker: Worker, store: Store, committed: map<int, nat>)

  ghost predicate Formed(cfg: Settings, values: map<int, Manager>) {
    cfg.size > 0 && forall p :: p in values ==> WellFormed(cfg, values[p])
  }

  lemma FormedIsSized(cfg: Settings, values: map<int, Manager>)
    requires Formed(cfg, values)
    ensures AllWellSized(cfg, values)
  {
  }

  lemma {:induction false} ReceiveAllFormed(cfg: Settings, source: string, topic: string, w: Worker, p: int,
                                            messages: seq<Message>, arrival: real)
    requires Formed(cfg, w.values) && p in w.values
    ensures Formed(cfg, ReceiveAll(cfg, source, topic, w, p, messages, arrival).values)
  {
    hide WellFormed, AddTo;
    if messages != [] {
      var n := |messages| - 1;
      var before := ReceiveAll(cfg, source, topic, w, p, messages[..n], arrival);
      ReceiveAllFormed(cfg, source, topic, w, p, messages[..n], arrival);
      AddKeepsWellFormed(cfg, before.values[p], messages[n].event, EventTimestamp(messages[n].event, arrival, source));
    }
  }

  lemma {:induction false} PollFormed(cfg: Settings, source: string, topic: string, w: Worker, records: seq<Records>,
                                      arrival: real)
    requires Formed(cfg, w.values)
    ensures Formed(cfg, PollInto(cfg, source, topic, w, records, arrival).values)
  {
    if records != [] {
      var n := |records| - 1;
      PollFormed(cfg, source, topic, w, records[..n], arrival);
      var before := WithManager(PollInto(cfg, source, topic, w, records[..n], arrival), records[n].partition);
      ReceiveAllFormed(cfg, source, topic, before, records[n].partition, records[n].messages, arrival);
    }
  }

  lemma StatesFormed(cfg: Settings, source: string, values: map<int, Manager>, now: real)
    requires Formed(cfg, values)
    ensures Formed(cfg, StatesAt(cfg, source, values, now))
  {
    hide WellFormed;
    forall p | p in values ensures WellFormed(cfg, StateAt(cfg, source, values[p], now)) {
      var clock := Clock(source, values[p], now);
      if clock.Some? { PopKeepsWellFormed(cfg, values[p], clock.value); }
    }
  }

  /** Poll, then flush: write, release and commit together, or none of them. */
  ghost function TurnOf(cfg: Settings, source: string, topic: string, historyMax: int, n: Node, t: Turn): Node
    requires Formed(cfg, n.worker.values)
  {
    var polled := PollInto(cfg, source, topic, n.worker, t.records, t.arrival);
    PollFormed(cfg, source, topic, n.worker, t.records, t.arrival);
    FormedIsSized(cfg, polled.values);
    var entries := Entries(cfg, source, polled.values, polled.order, t.arrival);
    if entries == [] || !t.sinkUp then
      Node(polled.(values := StatesAt(cfg, source, polled.values, t.arrival)), n.store, n.committed)
    else
      Node(FlushedWorker(cfg, source, topic, polled, t.arrival), Batch(historyMax, n.store, entries),
           n.committed + CommitsAt(polled.pending, topic, ThroughAt(cfg, source, polled.values, t.arrival)))
  }

  /** The turn does not end the loop: there is nothing to write, or the sink takes it. */
  ghost predicate Continues(cfg: Settings, source: string, topic: string, n: Node, t: Turn)
    requires Formed(cfg, n.worker.values)
  {
    var polled := PollInto(cfg, source, topic, n.worker, t.records, t.arrival);
    PollFormed(cfg, source, topic, n.worker, t.records, t.arrival);
    FormedIsSized(cfg, polled.values);
    Entries(cfg, source, polled.values, polled.order, t.arrival) == [] || t.sinkUp
  }

  ghost function RunOf(cfg: Settings, source: string, topic: string, historyMax: int, n: Node,
                       turns: seq<Turn>): (r: Node)
    requires Formed(cfg, n.worker.values)
    ensures Formed(cfg, r.worker.values)
  {
    if turns == [] then n
    else
      var before, t := RunOf(cfg, source, topic, historyMax, n, turns[..|turns| - 1]), turns[|turns| - 1];
      PollFormed(cfg, source, topic, before.worker, t.records, t.arrival);
      StatesFormed(cfg, source, PollInto(cfg, source, topic, before.worker, t.records, t.arrival).values, t.arrival);
      TurnOf(cfg, source, topic, historyMax, before, t)
  }

  /** No turn of the run ends the loop. */
  ghost predicate Going(cfg: Settings, source: string, topic: string, historyMax: int, n: Node, turns: seq<Turn>)
    requires Formed(cfg, n.worker.values)
  {
    turns == []
    || (var front := turns[..|turns| - 1];
        Going(cfg, source, topic, historyMax, n, front)
        && Continues(cfg, source, topic, RunOf(cfg, source, topic, historyMax, n, front), turns[|turns| - 1]))
  }

  // ------------------------------------------------------------------
  // Loop states
  // ------------------------------------------------------------------

  /** The managers after the partitions in `done` have been flushed. */
  ghost function PartlyFlushed(cfg: Settings, source: string, values: map<int, Manager>, done: seq<int>, now: real)
    : map<int, Manager>
    requires cfg.size > 0
  {
    map p | p in values :: if p in done then StateAt(cfg, source, values[p], now) else values[p]
  }

  ghost function PartlyThrough(cfg: Settings, source: string, values: map<int, Manager>, done: seq<int>, now: real)
    : map<int, int>
    requires AllWellSized(cfg, values)
  {
    map p | p in values && p in done && SlicesAt(cfg, source, values[p], now) != [] ::
      var out := SlicesAt(cfg, source, values[p], now);
      out[|out| - 1].windowStart
  }

  lemma FlushNone(cfg: Settings, source: string, values: map<int, Manager>, now: real)
    requires AllWellSized(cfg, values)
    ensures PartlyFlushed(cfg, source, values, [], now) == values
    ensures PartlyThrough(cfg, source, values, [], now) == map[] && Entries(cfg, source, values, [], now) == []
  {
    hide StateAt, SlicesAt;
  }

  lemma FlushOneMore(cfg: Settings, source: string, values: map<int, Manager>, done: seq<int>, p: int, now: real)
    requires AllWellSized(cfg, values) && p in values && p !in done
    ensures var states, out := PartlyFlushed(cfg, source, values, done, now), SlicesAt(cfg, source, values[p], now);
      var through := PartlyThrough(cfg, source, values, done, now);
      && p in states && states[p] == values[p]
      && PartlyFlushed(cfg, source, values, done + [p], now) == states[p := StateAt(cfg, source, values[p], now)]
      && PartlyThrough(cfg, source, values, done + [p], now)
         == (if out == [] then through else through[p := out[|out| - 1].windowStart])
      && Entries(cfg, source, values, done + [p], now)
         == Entries(cfg, source, values, done, now) + Tagged(p, out)
  {
    hide StateAt, SlicesAt, Tagged;
    assert (done + [p])[..|done|] == done;
  }

  lemma FlushAll(cfg: Settings, source: string, values: map<int, Manager>, order: seq<int>, now: real)
    requires AllWellSized(cfg, values) && forall p :: p in order <==> p in values
    ensures PartlyFlushed(cfg, source, values, order, now) == StatesAt(cfg, source, values, now)
    ensures PartlyThrough(cfg, source, values, order, now) == ThroughAt(cfg, source, values, now)
  {
    hide StateAt, SlicesAt;
    var all := StatesAt(cfg, source, values, now);
    var part := PartlyFlushed(cfg, source, values, order, now);
    forall p | p in values ensures p in order && part[p] == all[p] {}
    assert part.Keys == all.Keys;
    var ends, some := ThroughAt(cfg, source, values, now), PartlyThrough(cfg, source, values, order, now);
    forall p ensures p in ends <==> p in some {}
    assert ends.Keys == some.Keys;
  }

  ghost function PartlyReleased(pending: map<TopicPartition, Pending>, topic: string, through: map<int, int>,
                                done: set<int>)
    : map<TopicPartition, Pending>
  {
    map tp | tp in pending ::
      if tp.topic == topic && tp.partition in through && tp.partition in done
      then Remaining(pending[tp], through[tp.partition]) else pending[tp]
  }

  ghost function PartlyCommitted(pending: map<TopicPartition, Pending>, topic: string, through: map<int, int>,
                                 done: set<int>)
    : map<int, nat>
  {
    map p | p in through && p in done && Released(PendingAt(pending, TopicPartition(topic, p)), through[p]).Some? ::
      Released(PendingAt(pending, TopicPartition(topic, p)), through[p]).value
  }

  lemma ReleaseOneMore(pending: map<TopicPartition, Pending>, topic: string, through: map<int, int>, done: set<int>,
                       p: int)
    requires p in through && p !in done
    ensures var tp := TopicPartition(topic, p);
      var was := PartlyReleased(pending, topic, through, done);
      var r := Released(PendingAt(pending, tp), through[p]);
      && PendingAt(was, tp) == PendingAt(pending, tp)
      && PartlyReleased(pending, topic, through, done + {p})
         == (if r.None? then was else was[tp := Remaining(PendingAt(pending, tp), through[p])])
      && PartlyCommitted(pending, topic, through, done + {p})
         == (if r.None? then PartlyCommitted(pending, topic, through, done)
             else PartlyCommitted(pending, topic, through, done)[p := r.value])
  {
    hide Highest, Settled;
    var tp := TopicPartition(topic, p);
    if Released(PendingAt(pending, tp), through[p]).None? {
      NothingSettled(PendingAt(pending, tp), through[p]);
    } else {
      NothingPending(through[p]);
    }
  }

  lemma NothingPending(through: int)
    ensures Released(map[], through).None?
  {
    assert Settled(map[], through).Keys == {};
  }

  lemma NothingSettled(p: Pending, through: int)
    requires Released(p, through).None?
    ensures Remaining(p, through) == p
  {
    assert Settled(p, through).Keys == {};
    assert forall w :: w in p ==> w !in Settled(p, through).Keys;
  }
}

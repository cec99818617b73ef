/** Either time source: a message torn from its commit is counted again before the group commits past it. */
module Replays {
  import opened Delivery
  import opened ExactlyOnce
  import opened Lanes
  import opened Offsets
  import opened Protocol
  import opened TimeSources
  import opened Windows

  /** Written once, and once more for a message whose earlier write was cut off; or discarded by a resync. */
  ghost predicate Repaid(c: Cluster, trace: seq<Emission>, p: int, i: int) {
    (p, i) in c.dropped || TimesCounted(trace, p, i) >= if (p, i) in c.torn then 2 else 1
  }

  /** Every message the lane has closed is repaid once the flush in progress has written its entries. */
  ghost predicate LaneRepaid(c: Cluster, rep: Replica, p: int)
    requires p in rep.lanes
  {
    rep.lanes[p].manager.emittedThrough.Some? ==>
      forall i :: 0 <= i < |rep.lanes[p].starts| && rep.lanes[p].starts[i] <= Emitted(rep.lanes[p]) ==>
        Repaid(c, InView(c, rep), p, rep.lanes[p].base + i)
  }

  ghost predicate CommittedRepaid(w: World, c: Cluster, p: int)
    requires p in w.origins && p in c.committed
  {
    forall i :: w.origins[p] <= i < c.committed[p] ==> Repaid(c, c.trace, p, i)
  }

  ghost predicate TornWritten(c: Cluster) {
    forall p, i :: (p, i) in c.torn ==> TimesCounted(c.trace, p, i) >= 1
  }

  ghost predicate ReplayInv(w: World, c: Cluster) {
    && TornWritten(c)
    && (forall p :: p in w.origins && p in c.committed ==> CommittedRepaid(w, c, p))
    && (forall r, p :: r in c.replicas && p in c.replicas[r].lanes ==> LaneRepaid(c, c.replicas[r], p))
  }

  // ------------------------------------------------------------------
  // What a step leaves repaid
  // ------------------------------------------------------------------

  /** Nothing repaid is lost by writing more, unless the message becomes torn. */
  lemma RepaidGrows(c: Cluster, after: Cluster, trace: seq<Emission>, more: seq<Emission>, p: int, i: int)
    requires Repaid(c, trace, p, i) && trace <= more && c.dropped <= after.dropped
    requires (p, i) in after.torn ==> (p, i) in c.torn
    ensures Repaid(after, more, p, i)
  {
    assert more == trace + more[|trace|..];
    TimesConcat(trace, more[|trace|..], p, i);
  }

  /** A crash tears only uncommitted messages of the crashed replica's own partitions. */
  lemma OnlyOwnTear(w: World, c: Cluster, a: Action, p: int, i: int)
    requires Inv(w, c) && OnceInv(c) && (p, i) in Next(w, c, a).torn && (p, i) !in c.torn
    ensures a.Crash? && a.r in c.replicas && p in c.replicas[a.r].lanes && p in c.committed && i >= c.committed[p]
    ensures TimesCounted(c.trace, p, i) >= 1
  {
    hide ReplicaInv, PartitionInv, AllOk, Sized, Lists, PollFits, OrderedRanges, ClosedEnd, TimesCounted, Accounted;
    var entries := Uncommitted(c.replicas[a.r].stage);
    assert FlightOnce(c, c.replicas[a.r]);
    assert (p, i) in Messages(entries);
    var e :| e in entries && e.partition == p && e.lo <= i < e.hi;
    assert Covers(e, p, i);
    CountedIffCovered(c.trace, p, i);
  }

  lemma StepGrows(w: World, c: Cluster, a: Action)
    requires Shaped(w, c)
    ensures c.trace <= Next(w, c, a).trace && c.dropped <= Next(w, c, a).dropped
  {
    hide Shaped, PollFits, Lists, Collect, Discarded;
  }

  lemma CommittedStaysRepaid(w: World, c: Cluster, a: Action, p: int)
    requires Inv(w, c) && OnceInv(c) && p in w.origins && p in c.committed && CommittedRepaid(w, c, p)
    requires p in Next(w, c, a).committed && Next(w, c, a).committed[p] == c.committed[p]
    ensures CommittedRepaid(w, Next(w, c, a), p)
  {
    hide Inv, OnceInv, Next, Repaid, Shaped;
    InvIsShaped(w, c);
    var after := Next(w, c, a);
    StepGrows(w, c, a);
    forall i | w.origins[p] <= i < after.committed[p] ensures Repaid(after, after.trace, p, i) {
      if (p, i) in after.torn && (p, i) !in c.torn { OnlyOwnTear(w, c, a, p, i); }
      RepaidGrows(c, after, c.trace, after.trace, p, i);
    }
  }

  lemma BystanderRepaid(w: World, c: Cluster, a: Action, r: int, p: int)
    requires Inv(w, c) && OnceInv(c) && r in c.replicas && r != a.r && p in c.replicas[r].lanes
    requires LaneRepaid(c, c.replicas[r], p)
    ensures r in Next(w, c, a).replicas && Next(w, c, a).replicas[r] == c.replicas[r]
    ensures LaneRepaid(Next(w, c, a), c.replicas[r], p)
  {
    hide OnceInv, Repaid, ReplicaInv, PartitionInv, AllOk, Sized, Lists, PollFits, Collect, Discarded;
    var after, rep := Next(w, c, a), c.replicas[r];
    var lane, view, more := rep.lanes[p], InView(c, rep), InView(after, rep);
    StepGrows(w, c, a);
    if lane.manager.emittedThrough.Some? {
      forall i | 0 <= i < |lane.starts| && lane.starts[i] <= Emitted(lane)
        ensures Repaid(after, more, p, lane.base + i)
      {
        if (p, lane.base + i) in after.torn && (p, lane.base + i) !in c.torn {
          OnlyOwnTear(w, c, a, p, lane.base + i);
          SoleOwner(w, c, r, a.r, p);
        }
        ViewGrows(c, after, rep, p, lane.base + i);
      }
    }
  }

  /** What is repaid in a replica's view stays so as others write. */
  lemma ViewGrows(c: Cluster, after: Cluster, rep: Replica, p: int, i: int)
    requires Repaid(c, InView(c, rep), p, i) && c.trace <= after.trace && c.dropped <= after.dropped
    requires (p, i) in after.torn ==> (p, i) in c.torn
    ensures Repaid(after, InView(after, rep), p, i)
  {
    var more := after.trace[|c.trace|..];
    assert after.trace == c.trace + more;
    TimesConcat(c.trace, more, p, i);
    if rep.stage.Popped? {
      TimesConcat(c.trace, rep.stage.entries, p, i);
      TimesConcat(after.trace, rep.stage.entries, p, i);
    }
  }

  // ------------------------------------------------------------------
  // The acting replica
  // ------------------------------------------------------------------

  /** With no flush under way, a lane has closed exactly what is committed. */
  lemma SettledRepaid(w: World, c: Cluster, r: int, p: int)
    requires Inv(w, c) && r in c.replicas && p in c.replicas[r].lanes && InFlight(c.replicas[r].stage) == []
    requires !c.replicas[r].stage.Popped? && !AfterWrite(c.replicas[r])
    requires p in w.origins && p in c.committed && CommittedRepaid(w, c, p)
    ensures LaneRepaid(c, c.replicas[r], p)
  {
    hide PartitionInv, AllOk, Sized, Lists, LaneMode, ClosedDurable, Routing.Grouped, LastOffsets, Repaid;
    var lane := c.replicas[r].lanes[p];
    assert LaneInv(w, c, c.replicas[r], p);
    if lane.manager.emittedThrough.Some? {
      forall i | 0 <= i < |lane.starts| && lane.starts[i] <= Emitted(lane)
        ensures Repaid(c, c.trace, p, lane.base + i)
      {
        assert i < c.committed[p] - lane.base;
      }
    }
  }

  /** What a flush closes is written once more than before, or discarded. */
  lemma PopRepays(w: World, c: Cluster, a: Action, p: int)
    requires Inv(w, c) && OnceInv(c) && ReplayInv(w, c) && a.Pop? && Enabled(w, c, a)
    requires p in Advance(w, c, a).lanes && Advance(w, c, a).stage.Popped?
    ensures LaneRepaid(Next(w, c, a), Advance(w, c, a), p)
  {
    hide Inv, OnceInv, Repaid, PopLane, Collect, Discarded, Sized, Lists;
    InvIsShaped(w, c);
    var rep, after, done := c.replicas[a.r], Next(w, c, a), Advance(w, c, a);
    var popped := done.lanes[p];
    LaneOfReplica(w, c, a.r, p);
    assert popped == PopLane(w.cfg, w.source, rep.lanes[p], rep.stage.arrival);
    PopKeepsBase(w, rep.lanes[p], rep.stage.arrival);
    if popped.manager.emittedThrough.Some? {
      forall i | 0 <= i < |popped.starts| && popped.starts[i] <= Emitted(popped)
        ensures Repaid(after, InView(after, done), p, popped.base + i)
      {
        if i < c.committed[p] - popped.base {
          assert Repaid(c, c.trace, p, popped.base + i);
          RepaidGrows(c, after, c.trace, InView(after, done), p, popped.base + i);
        } else {
          ClosedByFlush(w, c, a.r, p, i);
          EmittedIsRepaid(c, after, done.stage.entries, Discarded(w, rep.lanes, rep.stage.arrival), p, popped.base + i);
        }
      }
    }
  }

  lemma PopKeepsBase(w: World, lane: Lane, now: real)
    requires w.cfg.size > 0
    ensures PopLane(w.cfg, w.source, lane, now).base == lane.base
    ensures PopLane(w.cfg, w.source, lane, now).starts == lane.starts
  {
    hide PopState;
  }

  lemma EmittedIsRepaid(c: Cluster, after: Cluster, entries: seq<Emission>, discarded: set<(int, int)>, p: int, i: int)
    requires Durable(entries, discarded, p, i) && TornWritten(c)
    requires after.torn == c.torn && after.dropped == c.dropped + discarded
    ensures Repaid(after, c.trace + entries, p, i)
  {
    TimesConcat(c.trace, entries, p, i);
    CountedIffCovered(entries, p, i);
  }

  lemma LaneOfReplica(w: World, c: Cluster, r: int, p: int)
    requires Inv(w, c) && r in c.replicas && p in c.replicas[r].lanes
    ensures p in w.logs && p in w.origins && p in c.committed && w.origins[p] <= c.replicas[r].lanes[p].base
  {
    hide PartitionInv, AllOk, Sized, Lists, LaneMode, ClosedDurable, LaneOk;
    assert LaneInv(w, c, c.replicas[r], p);
  }

  /** A commit passes only repaid messages. */
  lemma CommitRepays(w: World, c: Cluster, a: Action, p: int)
    requires Inv(w, c) && ReplayInv(w, c) && a.Commit? && Enabled(w, c, a) && p in c.replicas[a.r].stage.commits
    ensures p in w.origins && p in c.committed && p in Next(w, c, a).committed && CommittedRepaid(w, Next(w, c, a), p)
  {
    hide PartitionInv, AllOk, Sized, Lists, LaneMode, ClosedDurable, Routing.Grouped, LastOffsets, TimesCounted;
    var rep, after := c.replicas[a.r], Next(w, c, a);
    var lane := rep.lanes[p];
    assert LaneInv(w, c, rep, p);
    assert LaneRepaid(c, rep, p);
    forall i | w.origins[p] <= i < after.committed[p] ensures Repaid(after, after.trace, p, i) {
      if i >= c.committed[p] {
        assert lane.starts[i - lane.base] <= Emitted(lane);
        assert Repaid(c, InView(c, rep), p, lane.base + (i - lane.base));
      } else {
        assert Repaid(c, c.trace, p, i);
      }
    }
  }

  /** Writing and releasing leave the flush's view as it is. */
  lemma SameView(w: World, c: Cluster, a: Action, p: int)
    requires Shaped(w, c) && Enabled(w, c, a) && (a.Persist? || a.Release?) && p in c.replicas[a.r].lanes
    requires LaneRepaid(c, c.replicas[a.r], p)
    ensures p in Advance(w, c, a).lanes && LaneRepaid(Next(w, c, a), Advance(w, c, a), p)
  {
    hide Sized, Lists, Remaining, TimesCounted;
    var rep, after, done := c.replicas[a.r], Next(w, c, a), Advance(w, c, a);
    assert InView(after, done) == InView(c, rep);
    forall i ensures Repaid(c, InView(c, rep), p, i) == Repaid(after, InView(after, done), p, i) {}
  }

  lemma OwnRepaid(w: World, c: Cluster, a: Action, p: int)
    requires Inv(w, c) && OnceInv(c) && ReplayInv(w, c) && Enabled(w, c, a) && !a.Join? && !a.Crash?
    requires p in Advance(w, c, a).lanes && Inv(w, Next(w, c, a))
    requires p in w.origins && p in Next(w, c, a).committed && CommittedRepaid(w, Next(w, c, a), p)
    ensures LaneRepaid(Next(w, c, a), Advance(w, c, a), p)
  {
    hide Inv, OnceInv, Repaid, PollFits, Lists, Sized, PollLanes, PopLanes, LaneRepaid, CommittedRepaid, Collect;
    InvIsShaped(w, c);
    var rep, done := c.replicas[a.r], Advance(w, c, a);
    if a.Persist? || a.Release? {
      assert p in rep.lanes && LaneRepaid(c, rep, p);
      SameView(w, c, a, p);
    } else if done.stage.Popped? {
      PopRepays(w, c, a, p);
    } else {
      SettledRepaid(w, Next(w, c, a), a.r, p);
    }
  }

  // ------------------------------------------------------------------
  // Every step, every run
  // ------------------------------------------------------------------

  lemma TornStaysWritten(w: World, c: Cluster, a: Action)
    requires Inv(w, c) && OnceInv(c) && TornWritten(c)
    ensures TornWritten(Next(w, c, a))
  {
    hide Inv, OnceInv, Next, TimesCounted;
    InvIsShaped(w, c);
    var after := Next(w, c, a);
    StepGrows(w, c, a);
    var more := after.trace[|c.trace|..];
    assert after.trace == c.trace + more;
    forall p, i | (p, i) in after.torn ensures TimesCounted(after.trace, p, i) >= 1 {
      if (p, i) !in c.torn { OnlyOwnTear(w, c, a, p, i); }
      TimesConcat(c.trace, more, p, i);
    }
  }

  lemma CommittedRepaidNext(w: World, c: Cluster, a: Action, p: int)
    requires Inv(w, c) && OnceInv(c) && ReplayInv(w, c) && p in w.origins && p in c.committed
    ensures p in Next(w, c, a).committed && CommittedRepaid(w, Next(w, c, a), p)
  {
    hide Inv, OnceInv, CommittedRepaid, LaneRepaid, PollFits, Lists, Sized, Discarded, Collect;
    InvIsShaped(w, c);
    if a.Commit? && Enabled(w, c, a) && p in c.replicas[a.r].stage.commits {
      CommitRepays(w, c, a, p);
    } else {
      CommittedStaysRepaid(w, c, a, p);
    }
  }

  lemma LanesRepaidNext(w: World, c: Cluster, a: Action, r: int, p: int)
    requires Inv(w, c) && OnceInv(c) && ReplayInv(w, c)
    requires r in Next(w, c, a).replicas && p in Next(w, c, a).replicas[r].lanes
    ensures LaneRepaid(Next(w, c, a), Next(w, c, a).replicas[r], p)
  {
    hide Inv, OnceInv, CommittedRepaid, LaneRepaid, PollFits, Lists, Sized, Discarded, Collect;
    InvIsShaped(w, c);
    var after := Next(w, c, a);
    if !Enabled(w, c, a) {
      assert after == c;
    } else if r != a.r {
      assert r in c.replicas && after.replicas[r] == c.replicas[r];
      BystanderRepaid(w, c, a, r, p);
    } else {
      NextKeeps(w, c, a);
      LaneOfReplica(w, after, r, p);
      SameOrigins(w, c, p);
      CommittedRepaidNext(w, c, a, p);
      OwnRepaid(w, c, a, p);
    }
  }

  lemma SameOrigins(w: World, c: Cluster, p: int)
    requires Inv(w, c) && p in w.logs
    ensures p in w.origins && p in c.committed
  {
    hide PartitionInv, AllOk, Sized, Lists, ReplicaInv;
  }

  lemma NextRepays(w: World, c: Cluster, a: Action)
    requires Inv(w, c) && OnceInv(c) && ReplayInv(w, c)
    ensures ReplayInv(w, Next(w, c, a))
  {
    hide Inv, OnceInv, Next, LaneRepaid, CommittedRepaid, TornWritten;
    InvIsShaped(w, c);
    var after := Next(w, c, a);
    TornStaysWritten(w, c, a);
    forall p | p in w.origins && p in after.committed ensures CommittedRepaid(w, after, p) {
      NextKeeps(w, c, a);
      SameKeys(w, c, after);
      CommittedRepaidNext(w, c, a, p);
    }
    forall r, p | r in after.replicas && p in after.replicas[r].lanes ensures LaneRepaid(after, after.replicas[r], p) {
      LanesRepaidNext(w, c, a, r, p);
    }
  }

  lemma SameKeys(w: World, c: Cluster, after: Cluster)
    requires Inv(w, c) && Inv(w, after)
    ensures c.committed.Keys == after.committed.Keys == w.logs.Keys
  {
    hide PartitionInv, AllOk, Sized, Lists, ReplicaInv;
  }

  lemma {:induction false} RunRepays(w: World, actions: seq<Action>)
    requires ValidWorld(w)
    ensures ReplayInv(w, Run(w, actions))
  {
    hide Inv, Next, OnceInv, ReplayInv;
    if actions == [] {
      NothingTornYet(w);
    } else {
      var before := actions[..|actions| - 1];
      RunKeeps(w, before);
      RunKeepsOnce(w, before);
      RunRepays(w, before);
      NextRepays(w, Run(w, before), actions[|actions| - 1]);
    }
  }

  lemma NothingTornYet(w: World)
    ensures ReplayInv(w, Initial(w))
  {
  }

  /**
   * Either time source, any crashes: a committed message that no resync discarded is counted in exactly one write if
   * and only if no crash ever cut a write of it off from its commit, and in several otherwise.
   */
  lemma CountedOnceIffNotTorn(w: World, actions: seq<Action>, p: int, i: int)
    requires ValidWorld(w) && p in w.logs
    requires w.origins[p] <= i < Run(w, actions).committed[p] && (p, i) !in Run(w, actions).dropped
    ensures TimesCounted(Run(w, actions).trace, p, i) >= 1
    ensures TimesCounted(Run(w, actions).trace, p, i) == 1 <==> (p, i) !in Run(w, actions).torn
  {
    hide Run, Inv, OnceInv, TimesCounted;
    var c := Run(w, actions);
    RunKeeps(w, actions);
    SameOrigins(w, c, p);
    RunRepays(w, actions);
    assert CommittedRepaid(w, c, p);
    assert Repaid(c, c.trace, p, i);
    if (p, i) !in c.torn { CountedOnceUnlessTorn(w, actions, p, i); }
  }
}

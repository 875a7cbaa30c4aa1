/** The bound of Redrive for every queue, one that others dead-letter into or that is its own target
    included: while a copy stays in a queue it is returned at most as often as the limit allows. */
module Stays {
  import opened Types
  import opened QueueModel
  import opened History
  import opened Receiving
  import opened Runs
  import opened Visibility
  import opened Ordering
  import opened Redrive

  /** The queue always has a dead-letter target with at most this limit, and messages are sent to
      it with a receive count of 0. */
  ghost predicate Limits(e: Event, id: string, limit: nat) {
    && ((e.Create? || e.Update?) && e.config.id == id ==>
          e.config.dlq.Some? && e.config.dlq.value.maxReceiveCount <= limit)
    && (e.Push? && e.id == id ==> e.message.receiveCount == 0)
  }

  /** The event dead-letters the copy, perhaps back into the same queue. */
  ghost predicate MovesAway(s: Store, e: Event, t: nat) {
    e.ReceiveMessages? && Callable(s, e.call) && Has(Moved(s, e.call), t)
  }

  /** The copy is in the queue all through the run and not moved away. */
  ghost predicate Stays(p: Params, s: Store, es: seq<Event>, id: string, t: nat)
    requires Run(p, s, es)
    decreases |es|
  {
    && t < |s.ledger| && Resides(s.ledger[t].place, id)
    && (es != [] ==> !MovesAway(s, es[0], t) && Stays(p, Apply(p, s, es[0]), es[1..], id, t))
  }

  // ---------------------------------------------------------------- no resident is over the limit

  ghost predicate LimitedResidents(ledger: seq<Record>, id: string, limit: nat) {
    forall t :: 0 <= t < |ledger| && Resides(ledger[t].place, id) ==> ledger[t].entryCount == 0 && ledger[t].served <= limit
  }

  ghost predicate LimitedConfig(s: Store, id: string, limit: nat) {
    id in s.queues ==> s.queues[id].config.dlq.Some? && s.queues[id].config.dlq.value.maxReceiveCount <= limit
  }

  ghost predicate Within(s: Store, id: string, limit: nat) {
    LimitedConfig(s, id, limit) && LimitedResidents(s.ledger, id, limit)
  }

  lemma PushWithin(p: Params, s: Store, x: string, m: Message, r: Reads, id: string, limit: nat)
    requires Resting(s) && Within(s, id, limit) && x in s.queues && (x == id ==> m.receiveCount == 0)
    ensures Within(PushS(p, s, x, m, r).(clock := r.stamp), id, limit)
  {
    hide Inv, SendOne, SameHoldings;
    SendOneShape(p, s.queues[x], m, r, |s.ledger|);
  }

  lemma ReceiveWithin(p: Params, s: Store, c: Call, id: string, limit: nat)
    requires Resting(s) && Callable(s, c) && Within(s, id, limit) && limit < U32_LIMIT - 1
    ensures LimitedResidents(ReceiveS(p, s, c).ledger, id, limit)
  {
    hide Inv, Landable, ReceiveS, Callable;
    var ledger' := ReceiveS(p, s, c).ledger;
    ReceiveFields(p, s, c);
    forall t: nat | t < |ledger'| && Resides(ledger'[t].place, id)
      ensures ledger'[t].entryCount == 0 && ledger'[t].served <= limit
    {
      ReceivedWithin(p, s, c, id, limit, t);
    }
  }

  lemma ReceivedWithin(p: Params, s: Store, c: Call, id: string, limit: nat, t: nat)
    requires Callable(s, c) && Within(s, id, limit) && limit < U32_LIMIT - 1
    requires t < |s.ledger| == |ReceiveS(p, s, c).ledger| && Resides(ReceiveS(p, s, c).ledger[t].place, id)
    ensures ReceiveS(p, s, c).ledger[t].entryCount == 0 && ReceiveS(p, s, c).ledger[t].served <= limit
  {
    hide Inv, Landable, Unused, ReceiveS, Returned, Taken, Moved, Has;
    ReceivedPoint(p, s, c, t);
    if Has(Returned(s, c), t) {
      ReturnedTaken(s, c, t);
      LimitDecides(s, c, t);
    }
  }

  lemma ConfigWithin(p: Params, s: Store, e: Event, id: string, limit: nat)
    requires Enabled(s, e) && !e.Push? && LimitedConfig(s, id, limit) && Limits(e, id, limit)
    ensures LimitedConfig(Apply(p, s, e), id, limit)
  {
    hide Inv, DrainS, LandAllS, ReceiveS, ParseHandle, ExpiryOrder, Callable;
    match e
    case RemoveQueue(x) => if x in s.queues { DrainEffect(s, x, QueueRemoved); }
    case PurgeQueue(x) => if x in s.queues { DrainEffect(s, x, Purged); }
    case SweepQueue(x, order, now) => if x in s.queues { SweepMeta(s, x, order, now); }
    case ReceiveMessages(c, end) =>
      if c.id in s.queues {
        ReceiveReady(s, c, end);
        ReceivedMeta(p, s, c);
      }
    case _ =>
  }

  lemma StepWithin(p: Params, s: Store, e: Event, id: string, limit: nat)
    requires Enabled(s, e) && Within(s, id, limit) && Limits(e, id, limit) && limit < U32_LIMIT - 1
    ensures Within(Apply(p, s, e), id, limit)
  {
    hide Inv, ReceiveS, PushS, Callable, LimitedConfig, ExpiryOrder;
    if e.Push? {
      if e.id in s.queues {
        PushWithin(p, s, e.id, e.message, e.clocks, id, limit);
      } else {
        ClockWithin(s, e.clocks.stamp, id, limit);
      }
    } else {
      ConfigWithin(p, s, e, id, limit);
      if !e.ReceiveMessages? {
        QuietResidents(p, s, e, id);
      } else if e.call.id in s.queues {
        ReceiveReady(s, e.call, e.end);
        ReceiveWithin(p, s, e.call, id, limit);
      }
    }
  }

  lemma ClockWithin(s: Store, now: nat, id: string, limit: nat)
    requires Within(s, id, limit)
    ensures Within(s.(clock := now), id, limit)
  {
  }

  lemma {:induction false} RunWithin(p: Params, s: Store, es: seq<Event>, id: string, limit: nat)
    requires Resting(s) && Run(p, s, es) && Within(s, id, limit) && limit < U32_LIMIT - 1
    requires forall i :: 0 <= i < |es| ==> Limits(es[i], id, limit)
    ensures Within(After(p, s, es), id, limit)
    decreases |es|
  {
    hide Resting, Within, Limits, Apply;
    if es != [] {
      StepKeeps(p, s, es[0]);
      StepWithin(p, s, es[0], id, limit);
      assert forall i :: 0 <= i < |es| - 1 ==> es[1..][i] == es[i + 1];
      RunWithin(p, Apply(p, s, es[0]), es[1..], id, limit);
    }
  }

  // ---------------------------------------------------------------- returns during a stay

  /** A receive that does not move the copy adds to its returns what it adds to its record. */
  lemma ReceiveCounts(p: Params, s: Store, c: Call, id: string, t: nat)
    requires Callable(s, c) && t < |s.ledger| && Resides(s.ledger[t].place, id) && !Has(Moved(s, c), t)
    ensures |ReceiveS(p, s, c).ledger| == |s.ledger|
    ensures Returns(ReceiveS(p, s, c).deliveries, id, t) - Returns(s.deliveries, id, t)
         == ReceiveS(p, s, c).ledger[t].served - s.ledger[t].served
  {
    hide Inv, Landable, Unused, ReceiveS, Receive, Deliveries, Selected, Returned, Moved, Has;
    ReceivedPoint(p, s, c, t);
    ReceiveFields(p, s, c);
    ReturnedDistinct(s, c);
    ReturnsJoin(s.deliveries, Deliveries(p, Selected(s, c).ledger, c.id, Returned(s, c), c.nonces), id, t);
    ReturnsOfBatch(p, Selected(s, c).ledger, c.id, Returned(s, c), c.nonces, id, t);
  }

  lemma StepCounts(p: Params, s: Store, e: Event, id: string, t: nat)
    requires Enabled(s, e) && t < |s.ledger| && Resides(s.ledger[t].place, id) && !MovesAway(s, e, t)
    requires t < |Apply(p, s, e).ledger| && Resides(Apply(p, s, e).ledger[t].place, id)
    ensures Returns(Apply(p, s, e).deliveries, id, t) - Returns(s.deliveries, id, t)
         == Apply(p, s, e).ledger[t].served - s.ledger[t].served
  {
    hide Inv, ReceiveS, PushS, Callable, ExpiryOrder, Returns, Moved;
    if e.ReceiveMessages? {
      if e.call.id in s.queues {
        ReceiveReady(s, e.call, e.end);
        ReceiveCounts(p, s, e.call, id, t);
      }
    } else {
      OnlyReceivesDeliver(p, s, e);
      if e.Push? {
        PushKeepsOld(p, s, e, t);
      } else {
        QuietResidents(p, s, e, id);
      }
    }
  }

  lemma PushKeepsOld(p: Params, s: Store, e: Event, t: nat)
    requires Enabled(s, e) && e.Push? && t < |s.ledger|
    ensures |Apply(p, s, e).ledger| >= |s.ledger| && Apply(p, s, e).ledger[t] == s.ledger[t]
  {
    hide Inv, SendOne;
  }

  lemma {:induction false} StayCounts(p: Params, s: Store, es: seq<Event>, id: string, t: nat)
    requires Resting(s) && Run(p, s, es) && Stays(p, s, es, id, t)
    ensures var s' := After(p, s, es);
            && t < |s'.ledger| && Resides(s'.ledger[t].place, id)
            && Returns(s'.deliveries, id, t) - Returns(s.deliveries, id, t) == s'.ledger[t].served - s.ledger[t].served
    decreases |es|
  {
    hide Resting, Apply, Returns, MovesAway, Enabled;
    if es != [] {
      StepKeeps(p, s, es[0]);
      StayCounts(p, Apply(p, s, es[0]), es[1..], id, t);
      StepCounts(p, s, es[0], id, t);
    }
  }

  /** Bounded deliveries during every stay: from any point of a copy's stay in the queue to any
      later one the queue returns it at most `limit` times, and its returns in this stay so far are
      its receive count. */
  lemma StaysAreBounded(p: Params, past: seq<Event>, es: seq<Event>, id: string, limit: nat, t: nat)
    requires Run(p, EMPTY, past) && Run(p, After(p, EMPTY, past), es) && limit < U32_LIMIT - 1
    requires forall i :: 0 <= i < |past| ==> Limits(past[i], id, limit)
    requires forall i :: 0 <= i < |es| ==> Limits(es[i], id, limit)
    requires Stays(p, After(p, EMPTY, past), es, id, t)
    ensures var s := After(p, EMPTY, past);
            var s' := After(p, s, es);
            var returns_ := Returns(s'.deliveries, id, t) - Returns(s.deliveries, id, t);
            && t < |s.ledger| <= |s'.ledger|
            && returns_ <= limit - s.ledger[t].served
            && HeldWith(s, id, t, s.ledger[t].served)
            && HeldWith(s', id, t, s.ledger[t].served + returns_)
  {
    hide Run, After, Limits, Returns, Stays, Resting, HeldWith, LimitedConfig;
    StartRests();
    StartWithin(id, limit);
    RunKeeps(p, EMPTY, past);
    RunWithin(p, EMPTY, past, id, limit);
    var s := After(p, EMPTY, past);
    RunKeeps(p, s, es);
    RunWithin(p, s, es, id, limit);
    StayBegins(p, s, es, id, t);
    StayCounts(p, s, es, id, t);
    ResidentHeld(s, id, limit, t);
    ResidentHeld(After(p, s, es), id, limit, t);
  }

  lemma StayBegins(p: Params, s: Store, es: seq<Event>, id: string, t: nat)
    requires Run(p, s, es) && Stays(p, s, es, id, t)
    ensures t < |s.ledger| && Resides(s.ledger[t].place, id)
  {
  }

  lemma StartWithin(id: string, limit: nat)
    ensures Within(EMPTY, id, limit)
  {
  }

  /** The queue holds the copy with this receive count. */
  ghost predicate HeldWith(s: Store, id: string, t: nat, count: int) {
    && id in s.queues
    && if exists i :: 0 <= i < |s.queues[id].available| && s.queues[id].available[i].ticket == t
       then forall i :: 0 <= i < |s.queues[id].available| && s.queues[id].available[i].ticket == t ==>
              s.queues[id].available[i].message.receiveCount == count
       else exists h :: h in s.queues[id].inFlight && s.queues[id].inFlight[h].ticket == t
                        && s.queues[id].inFlight[h].message.receiveCount == count
  }

  lemma ResidentHeld(s: Store, id: string, limit: nat, t: nat)
    requires Resting(s) && Within(s, id, limit) && limit < U32_LIMIT
    requires t < |s.ledger| && Resides(s.ledger[t].place, id)
    ensures s.ledger[t].served <= limit && HeldWith(s, id, t, s.ledger[t].served)
  {
    hide QueueOk, QueuesOk, LimboOk, Census;
    assert Found(s, t);
    if s.ledger[t].place.Available? {
      forall i | 0 <= i < |s.queues[id].available| && s.queues[id].available[i].ticket == t
        ensures s.queues[id].available[i].message.receiveCount == s.ledger[t].served
      {
        AvailableEntry(s, id, i);
      }
    } else {
      var h := s.ledger[t].place.handle;
      FlyingEntry(s, id, h);
      forall i | 0 <= i < |s.queues[id].available|
        ensures s.queues[id].available[i].ticket != t
      {
        AvailableEntry(s, id, i);
      }
    }
  }
}

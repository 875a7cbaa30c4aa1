/** A queue with a dead-letter limit returns a message at most that often: its receive count is
    the number of times consumers got it, and at the limit the next selection moves it away. */
module Redrive {
  import opened Types
  import opened Sequences
  import opened QueueModel
  import opened History
  import opened Receiving
  import opened Runs
  import opened Visibility
  import opened Ordering
  import opened Numbering

  /** How often consumers received the copy with ticket t from the queue. */
  function Returns(deliveries: seq<Delivery>, id: string, t: nat): nat {
    if deliveries == [] then 0
    else
      var d := deliveries[|deliveries| - 1];
      Returns(deliveries[..|deliveries| - 1], id, t) + if d.queue == id && d.ticket == t then 1 else 0
  }

  lemma {:induction false} ReturnsJoin(a: seq<Delivery>, b: seq<Delivery>, id: string, t: nat)
    ensures Returns(a + b, id, t) == Returns(a, id, t) + Returns(b, id, t)
  {
    if b == [] {
      assert a + b == a;
    } else {
      ReturnsJoin(a, b[..|b| - 1], id, t);
      assert (a + b)[..|a + b| - 1] == a + b[..|b| - 1];
    }
  }

  lemma ReturnsOne(d: Delivery, id: string, t: nat)
    ensures Returns([d], id, t) == if d.queue == id && d.ticket == t then 1 else 0
  {
    assert [d][..0] == [];
  }

  /** One receive delivers each copy it keeps exactly once. */
  lemma {:induction false} ReturnsOfBatch(p: Params, ledger: seq<Record>, id: string, kept: seq<Stored>,
                                          nonces: seq<nat>, x: string, t: nat)
    requires |kept| <= |nonces| && DistinctTickets(kept)
    ensures Returns(Deliveries(p, ledger, id, kept, nonces), x, t) == if x == id && Has(kept, t) then 1 else 0
  {
    if kept != [] {
      var tail := kept[1..];
      assert forall i :: 0 <= i < |tail| ==> tail[i] == kept[i + 1];
      ReturnsOfBatch(p, ledger, id, tail, nonces, x, t);
      var rest := Deliveries(p, ledger, id, tail, nonces);
      var d := Deliveries(p, ledger, id, kept, nonces);
      assert d == [d[0]] + rest;
      ReturnsOne(d[0], x, t);
      ReturnsJoin([d[0]], rest, x, t);
      assert kept == [kept[0]] + tail;
      HasIn(kept, t);
      HasIn(tail, t);
    }
  }

  // ---------------------------------------------------------------- the limit

  ghost predicate NeverDead(config: QueueConfig) {
    forall e: Stored :: !Dead(config, e)
  }

  /** A limit can be exceeded exactly when it is not the largest u32: the count wraps there. */
  lemma LimitCanBeExceeded(config: QueueConfig, e: Stored)
    requires config.dlq.Some?
    ensures NeverDead(config) <==> config.dlq.value.maxReceiveCount == U32_LIMIT - 1
  {
    var limit := config.dlq.value.maxReceiveCount;
    if limit < U32_LIMIT - 1 {
      assert Dead(config, e.(message := e.message.(receiveCount := limit)));
    }
  }

  lemma {:induction false} NoneDoomed(config: QueueConfig, taken: seq<Stored>)
    requires NeverDead(config)
    ensures Doomed(config, taken) == []
  {
    if taken != [] {
      NoneDoomed(config, taken[1..]);
    }
  }

  /** With the largest u32 as limit no receive ever dead-letters a message. */
  lemma LargestLimitNeverMoves(s: Store, c: Call)
    requires Callable(s, c)
    requires var dlq := s.queues[c.id].config.dlq; dlq.Some? && dlq.value.maxReceiveCount == U32_LIMIT - 1
    ensures Moved(s, c) == []
  {
    hide Inv, Pick, LandAll, Doomed, Dead, NeverDead, Unused, Supplied, Landable, Landed;
    var config := s.queues[c.id].config;
    LimitCanBeExceeded(config, SomeEntry());
    NoneDoomed(config, Taken(s, c));
    ReversedNothing();
  }

  function SomeEntry(): Stored {
    Stored(0, Message("", "", map[], "", 0, 0, None, None, None, None), 0)
  }

  lemma ReversedNothing()
    ensures Reversed<Stored>([]) == []
  {
  }

  ghost predicate OverLimit(config: QueueConfig, r: Record) {
    config.dlq.Some? && Increment((r.entryCount + r.served) % U32_LIMIT) > config.dlq.value.maxReceiveCount
  }

  /** Whether a selected copy is returned or dead-lettered depends on its returns alone. */
  lemma LimitDecides(s: Store, c: Call, t: nat)
    requires Callable(s, c) && t < |s.ledger| && Has(Taken(s, c), t)
    ensures Has(Moved(s, c), t) <==> OverLimit(s.queues[c.id].config, s.ledger[t])
    ensures Has(Returned(s, c), t) <==> !OverLimit(s.queues[c.id].config, s.ledger[t])
  {
    hide Landable, Distinct, Unused, Selected, QueueOk, QueuesOk, LimboOk, AllFound, Census, Dead, Pick, LandAll;
    ReturnedHeld(s, c);
    SelectedEffect(s, c);
    var config := s.queues[c.id].config;
    SortedOut(config, Taken(s, c));
    ReversedElements(Doomed(config, Taken(s, c)));
    hide Kept, Doomed, Reversed;
    if Has(Returned(s, c), t) {
      var i :| 0 <= i < |Returned(s, c)| && Returned(s, c)[i].ticket == t;
      SelectedCount(s, c, Returned(s, c)[i]);
    } else {
      var i :| 0 <= i < |Moved(s, c)| && Moved(s, c)[i].ticket == t;
      assert Moved(s, c)[i] in Moved(s, c);
      SelectedCount(s, c, Moved(s, c)[i]);
    }
  }

  lemma SelectedCount(s: Store, c: Call, e: Stored)
    requires Callable(s, c) && e in Selected(s, c).limbo
    ensures e.ticket < |s.ledger|
    ensures Dead(s.queues[c.id].config, e) <==> OverLimit(s.queues[c.id].config, s.ledger[e.ticket])
  {
    hide Landable, Distinct, Unused, Selected, QueueOk, QueuesOk, LimboOk, AllFound, Census, Pick, LandAll;
    SelectedEffect(s, c);
    LimboEntry(Selected(s, c).ledger, Selected(s, c).limbo, e);
    HasIn(Taken(s, c), e.ticket);
    hide Has, Taken;
  }

  // ---------------------------------------------------------------- the invariant of a run

  /** Deliveries of the queue so far: as many as the copy's returns while it is there, and never
      more than the limit. */
  ghost predicate Limited(s: Store, id: string, limit: nat) {
    && NotATarget(s, id)
    && (id in s.queues ==>
          s.queues[id].config.dlq.Some? && s.queues[id].config.dlq.value.maxReceiveCount <= limit)
    && Counted(s.ledger, s.deliveries, id, limit)
  }

  ghost predicate Counted(ledger: seq<Record>, deliveries: seq<Delivery>, id: string, limit: nat) {
    && (forall t: nat :: t < |ledger| ==>
          && Returns(deliveries, id, t) <= limit
          && (Resides(ledger[t].place, id) ==>
                ledger[t].entryCount == 0 && ledger[t].served == Returns(deliveries, id, t)))
    && (forall t: nat :: t >= |ledger| ==> Returns(deliveries, id, t) == 0)
  }

  /** The queue always has a dead-letter target elsewhere with at most this limit, and messages
      are sent to it with a receive count of 0. */
  ghost predicate Redriving(e: Event, id: string, limit: nat) {
    && (e.Create? || e.Update? ==>
          && (e.config.id == id ==> e.config.dlq.Some? && e.config.dlq.value.maxReceiveCount <= limit)
          && (e.config.dlq.Some? ==> e.config.dlq.value.target != id))
    && (e.Push? && e.id == id ==> e.message.receiveCount == 0)
  }

  /** A step without deliveries, after which residents are old residents with old counts. */
  lemma CountedStays(ledger: seq<Record>, ledger': seq<Record>, deliveries: seq<Delivery>, id: string, limit: nat)
    requires Counted(ledger, deliveries, id, limit) && |ledger'| == |ledger|
    requires forall t :: 0 <= t < |ledger| && Resides(ledger'[t].place, id) ==>
               && Resides(ledger[t].place, id)
               && ledger'[t].entryCount == ledger[t].entryCount && ledger'[t].served == ledger[t].served
    ensures Counted(ledger', deliveries, id, limit)
  {
  }

  lemma PushCounted(p: Params, s: Store, x: string, m: Message, r: Reads, id: string, limit: nat)
    requires Resting(s) && Limited(s, id, limit) && x in s.queues && (x == id ==> m.receiveCount == 0)
    ensures Limited(PushS(p, s, x, m, r).(clock := r.stamp), id, limit)
  {
    hide Inv, SendOne, SameHoldings;
    var result := SendOne(p, s.queues[x], m, r, |s.ledger|);
    SendOneShape(p, s.queues[x], m, r, |s.ledger|);
  }

  /** Without a send or a receive the residents are old residents with old counts. */
  lemma QuietResidents(p: Params, s: Store, e: Event, id: string)
    requires Enabled(s, e) && !e.Push? && !e.ReceiveMessages?
    ensures var s' := Apply(p, s, e);
            && |s'.ledger| == |s.ledger|
            && forall t :: 0 <= t < |s.ledger| && Resides(s'.ledger[t].place, id) ==>
                 && Resides(s.ledger[t].place, id)
                 && s'.ledger[t].entryCount == s.ledger[t].entryCount && s'.ledger[t].served == s.ledger[t].served
  {
    hide Inv, DrainS, LandAllS, ParseHandle, ExpiryOrder, Callable;
    match e
    case RemoveQueue(x) => if x in s.queues { DrainEffect(s, x, QueueRemoved); }
    case PurgeQueue(x) => if x in s.queues { DrainEffect(s, x, Purged); }
    case SweepQueue(x, order, now) =>
      if x in s.queues {
        SweptResidents(s, x, order, now, id);
        SweptCounts(s, x, order, now);
      }
    case _ =>
  }

  lemma QuietCounts(p: Params, s: Store, e: Event, id: string, limit: nat)
    requires Enabled(s, e) && Limited(s, id, limit) && !e.Push? && !e.ReceiveMessages?
    ensures Counted(Apply(p, s, e).ledger, Apply(p, s, e).deliveries, id, limit)
  {
    hide Inv, Apply, Enabled, Counted;
    OnlyReceivesDeliver(p, s, e);
    QuietResidents(p, s, e, id);
    CountedStays(s.ledger, Apply(p, s, e).ledger, s.deliveries, id, limit);
  }

  lemma SweptCounts(s: Store, x: string, order: seq<Handle>, now: nat)
    requires Inv(s) && x in s.queues && ExpiryOrder(s.queues[x], order, now)
    ensures var s' := LandAllS(s, x, order, now);
            && |s'.ledger| == |s.ledger|
            && forall t :: 0 <= t < |s.ledger| ==>
                 s'.ledger[t].entryCount == s.ledger[t].entryCount && s'.ledger[t].served == s.ledger[t].served
  {
    hide Inv, LandAllS;
    LandAllEffect(s, x, order, now);
    var s' := LandAllS(s, x, order, now);
    forall t: nat | t < |s.ledger|
      ensures s'.ledger[t].entryCount == s.ledger[t].entryCount && s'.ledger[t].served == s.ledger[t].served
    {
      assert LandedRecord(s.ledger[t], s'.ledger[t], x, order);
    }
  }

  /** What a receive does to one copy's returns from the queue. */
  lemma ReceivedCount(p: Params, s: Store, c: Call, id: string, limit: nat, t: nat)
    requires Callable(s, c) && Limited(s, id, limit) && limit < U32_LIMIT - 1 && t < |s.ledger|
    ensures |ReceiveS(p, s, c).ledger| == |s.ledger|
    ensures var r, r' := s.ledger[t], ReceiveS(p, s, c).ledger[t];
            var n := Returns(s.deliveries, id, t) + if c.id == id && Has(Returned(s, c), t) then 1 else 0;
            && n <= limit
            && (Resides(r'.place, id) ==> r'.entryCount == 0 && r'.served == n)
  {
    hide Inv, Landable, Distinct, Unused, ReceiveS, Returned, Taken, Moved, Has;
    ReceivedPoint(p, s, c, t);
    MovedSomewhere(s, c);
    assert Has(Moved(s, c), t) ==> Moved(s, c) != [] by { NonEmpty(Moved(s, c), t); }
    if Has(Returned(s, c), t) {
      assert Has(Taken(s, c), t) by { ReturnedTaken(s, c, t); }
      LimitDecides(s, c, t);
    }
  }

  lemma NonEmpty(a: seq<Stored>, t: nat)
    ensures Has(a, t) ==> a != []
  {
  }

  lemma ReturnedTaken(s: Store, c: Call, t: nat)
    requires Callable(s, c) && Has(Returned(s, c), t)
    ensures Has(Taken(s, c), t)
  {
    hide Inv, Landable, Distinct, Unused, Selected, Returned, Taken;
    ReturnedHeld(s, c);
  }

  lemma ReceiveCounted(p: Params, s: Store, c: Call, id: string, limit: nat)
    requires Resting(s) && Callable(s, c) && Limited(s, id, limit) && limit < U32_LIMIT - 1
    ensures Counted(ReceiveS(p, s, c).ledger, ReceiveS(p, s, c).deliveries, id, limit)
  {
    hide Inv, Landable, Distinct, Unused, ReceiveS, Receive, Deliveries, Selected, Returned;
    ReceiveFields(p, s, c);
    var s' := ReceiveS(p, s, c);
    assert DistinctTickets(Returned(s, c)) by { ReturnedDistinct(s, c); }
    forall t: nat
      ensures Returns(s'.deliveries, id, t)
           == Returns(s.deliveries, id, t) + if c.id == id && Has(Returned(s, c), t) then 1 else 0
    {
      ReturnsJoin(s.deliveries, Deliveries(p, Selected(s, c).ledger, c.id, Returned(s, c), c.nonces), id, t);
      ReturnsOfBatch(p, Selected(s, c).ledger, c.id, Returned(s, c), c.nonces, id, t);
    }
    forall t: nat | Has(Returned(s, c), t)
      ensures t < |s.ledger|
    {
      ReturnedKnown(s, c, t);
    }
    hide Has, Returns;
    forall t: nat | t < |s.ledger|
      ensures Returns(s'.deliveries, id, t) <= limit
      ensures Resides(s'.ledger[t].place, id) ==>
                s'.ledger[t].entryCount == 0 && s'.ledger[t].served == Returns(s'.deliveries, id, t)
    {
      ReceivedCount(p, s, c, id, limit, t);
    }
  }

  lemma ReturnedDistinct(s: Store, c: Call)
    requires Callable(s, c)
    ensures DistinctTickets(Returned(s, c))
  {
    hide Inv, Landable, Distinct, Unused, Selected, Returned, Moved, Taken, Has;
    ReturnedHeld(s, c);
  }

  lemma LimitStays(p: Params, s: Store, e: Event, id: string, limit: nat)
    requires Enabled(s, e) && !e.Push? && Limited(s, id, limit) && Redriving(e, id, limit)
    ensures var s' := Apply(p, s, e);
            id in s'.queues ==>
              s'.queues[id].config.dlq.Some? && s'.queues[id].config.dlq.value.maxReceiveCount <= limit
  {
    hide Inv, DrainS, LandAllS, ReceiveS, ParseHandle, ExpiryOrder, Callable, Counted, NotATarget;
    match e
    case RemoveQueue(x) => if x in s.queues { DrainEffect(s, x, QueueRemoved); }
    case PurgeQueue(x) => if x in s.queues { DrainEffect(s, x, Purged); }
    case SweepQueue(x, order, now) => if x in s.queues { SweepMeta(s, x, order, now); }
    case ReceiveMessages(c, end) =>
      if c.id in s.queues {
        ReceiveReady(s, c, end);
        ReceivedMeta(p, s, c);
      }
    case _ =>
  }

  lemma StepLimited(p: Params, s: Store, e: Event, id: string, limit: nat)
    requires Enabled(s, e) && Limited(s, id, limit) && Redriving(e, id, limit) && limit < U32_LIMIT - 1
    ensures Limited(Apply(p, s, e), id, limit)
  {
    hide Inv, DrainS, LandAllS, ReceiveS, PushS, ParseHandle, ExpiryOrder, Callable, Counted, NotATarget;
    if e.Push? {
      if e.id in s.queues { PushCounted(p, s, e.id, e.message, e.clocks, id, limit); } else { ClockOnly(s, e.clocks.stamp, id, limit); }
    } else {
      LimitStays(p, s, e, id, limit);
      StepTargets(p, s, e, id);
      if e.ReceiveMessages? {
        if e.call.id in s.queues {
          ReceiveReady(s, e.call, e.end);
          ReceiveCounted(p, s, e.call, id, limit);
        }
      } else {
        QuietCounts(p, s, e, id, limit);
      }
    }
  }

  lemma ClockOnly(s: Store, now: nat, id: string, limit: nat)
    requires Limited(s, id, limit)
    ensures Limited(s.(clock := now), id, limit)
  {
  }

  lemma {:induction false} RunLimited(p: Params, s: Store, es: seq<Event>, id: string, limit: nat)
    requires Resting(s) && Run(p, s, es) && Limited(s, id, limit) && limit < U32_LIMIT - 1
    requires forall i :: 0 <= i < |es| ==> Redriving(es[i], id, limit)
    ensures Limited(After(p, s, es), id, limit)
    decreases |es|
  {
    hide Resting, Limited, Redriving, Apply;
    if es != [] {
      StepKeeps(p, s, es[0]);
      StepLimited(p, s, es[0], id, limit);
      assert forall i :: 0 <= i < |es| - 1 ==> es[1..][i] == es[i + 1];
      RunLimited(p, Apply(p, s, es[0]), es[1..], id, limit);
    }
  }

  /** Bounded deliveries over every run: no copy is ever returned from the queue more often than
      the limit, and the receive count held for a copy in the queue is its number of returns. */
  lemma DeliveriesAreBounded(p: Params, es: seq<Event>, id: string, limit: nat)
    requires Run(p, EMPTY, es) && limit < U32_LIMIT - 1
    requires forall i :: 0 <= i < |es| ==> Redriving(es[i], id, limit)
    ensures var s := After(p, EMPTY, es);
            && (forall t: nat :: Returns(s.deliveries, id, t) <= limit)
            && (id in s.queues ==>
                  && (forall i :: 0 <= i < |s.queues[id].available| ==>
                        s.queues[id].available[i].message.receiveCount
                        == Returns(s.deliveries, id, s.queues[id].available[i].ticket))
                  && (forall h :: h in s.queues[id].inFlight ==>
                        s.queues[id].inFlight[h].message.receiveCount
                        == Returns(s.deliveries, id, s.queues[id].inFlight[h].ticket)))
  {
    hide Run, After, Redriving, Returns;
    StartRests();
    StartLimited(id, limit);
    RunKeeps(p, EMPTY, es);
    RunLimited(p, EMPTY, es, id, limit);
    var s := After(p, EMPTY, es);
    if id in s.queues {
      HeldCounts(s, id, limit);
      hide Inv, Limited;
    }
    NoMoreReturns(s, id, limit);
  }

  lemma NoMoreReturns(s: Store, id: string, limit: nat)
    requires Limited(s, id, limit)
    ensures forall t: nat :: Returns(s.deliveries, id, t) <= limit
  {
    hide Returns;
  }

  lemma HeldCounts(s: Store, id: string, limit: nat)
    requires QueuesOk(s) && Limited(s, id, limit) && id in s.queues && limit < U32_LIMIT
    ensures forall i :: 0 <= i < |s.queues[id].available| ==>
              s.queues[id].available[i].message.receiveCount
              == Returns(s.deliveries, id, s.queues[id].available[i].ticket)
    ensures forall h :: h in s.queues[id].inFlight ==>
              s.queues[id].inFlight[h].message.receiveCount
              == Returns(s.deliveries, id, s.queues[id].inFlight[h].ticket)
  {
    hide Returns, QueuesOk, Counted;
    forall i | 0 <= i < |s.queues[id].available|
      ensures s.queues[id].available[i].message.receiveCount
           == Returns(s.deliveries, id, s.queues[id].available[i].ticket)
    {
      AvailableEntry(s, id, i);
      ResidentCount(s, id, limit, s.queues[id].available[i].ticket);
    }
    forall h | h in s.queues[id].inFlight
      ensures s.queues[id].inFlight[h].message.receiveCount
           == Returns(s.deliveries, id, s.queues[id].inFlight[h].ticket)
    {
      FlyingEntry(s, id, h);
      ResidentCount(s, id, limit, s.queues[id].inFlight[h].ticket);
    }
  }

  lemma ResidentCount(s: Store, id: string, limit: nat, t: nat)
    requires Limited(s, id, limit) && t < |s.ledger| && Resides(s.ledger[t].place, id) && limit < U32_LIMIT
    ensures (s.ledger[t].entryCount + s.ledger[t].served) % U32_LIMIT == Returns(s.deliveries, id, t)
  {
    hide Returns;
  }

  lemma StartLimited(id: string, limit: nat)
    ensures Limited(EMPTY, id, limit)
  {
  }
}

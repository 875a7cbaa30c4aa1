/** Sequence numbers of a FIFO queue: within one lifetime of the queue they grow with every
    accepted send, and first deliveries come out in strictly increasing sequence. */
module Numbering {
  import opened Types
  import opened Sequences
  import opened QueueModel
  import opened History
  import opened Receiving
  import opened Runs
  import opened Visibility
  import opened Ordering

  /** The copies sent to the queue since ticket `from` are numbered in ticket order, below the
      queue's counter. */
  ghost predicate Numbered(ledger: seq<Record>, from: nat, id: string, next: nat) {
    && (forall t :: from <= t < |ledger| && ledger[t].home == id ==>
          ledger[t].message.sequence.Some? && ledger[t].message.sequence.value < next)
    && (forall t, u :: from <= t < u < |ledger| && ledger[t].home == id && ledger[u].home == id ==>
          && ledger[t].message.sequence.Some? && ledger[u].message.sequence.Some?
          && ledger[t].message.sequence.value < ledger[u].message.sequence.value)
  }

  /** Everything in the queue, and everything it ever returned, was sent to it. */
  ghost predicate AllAtHome(s: Store, id: string) {
    && (forall t :: 0 <= t < |s.ledger| && Resides(s.ledger[t].place, id) ==> s.ledger[t].home == id)
    && (forall d :: d in s.deliveries && d.queue == id ==> d.ticket < |s.ledger| && s.ledger[d.ticket].home == id)
  }

  ghost predicate NumberState(s: Store, from: nat, id: string) {
    && from <= |s.ledger|
    && AllAtHome(s, id) && NotATarget(s, id)
    && (if id in s.queues
        then s.queues[id].config.queueType.SqsFifo? && Numbered(s.ledger, from, id, s.queues[id].nextSequence)
        else forall t :: from <= t < |s.ledger| ==> s.ledger[t].home != id)
  }

  /** The queue stays a FIFO queue, nobody's dead-letter queue, and is not removed. */
  ghost predicate Lifelong(e: Event, id: string) {
    && (e.Create? || e.Update? ==>
          && (e.config.id == id ==> e.config.queueType.SqsFifo?)
          && (e.config.dlq.Some? ==> e.config.dlq.value.target != id))
    && !(e.RemoveQueue? && e.id == id)
  }

  // ---------------------------------------------------------------- what an event adds

  /** Only a push into the queue brings a new resident, and only a push makes a new copy. */
  lemma Residents(p: Params, s: Store, e: Event, id: string)
    requires Enabled(s, e) && NotATarget(s, id) && !e.Push?
    ensures var s' := Apply(p, s, e);
            && |s'.ledger| == |s.ledger|
            && forall t :: 0 <= t < |s.ledger| && Resides(s'.ledger[t].place, id) ==> Resides(s.ledger[t].place, id)
  {
    hide Inv, DrainS, LandAllS, ReceiveS, ParseHandle, ExpiryOrder, Callable;
    match e
    case RemoveQueue(x) => if x in s.queues { DrainEffect(s, x, QueueRemoved); }
    case PurgeQueue(x) => if x in s.queues { DrainEffect(s, x, Purged); }
    case SweepQueue(x, order, now) => if x in s.queues { SweptResidents(s, x, order, now, id); }
    case ReceiveMessages(c, end) => if c.id in s.queues { ReceiveReady(s, c, end); ReceivedResidents(p, s, c, id); }
    case _ =>
  }

  lemma SweptResidents(s: Store, x: string, order: seq<Handle>, now: nat, id: string)
    requires Resting(s) && x in s.queues && ExpiryOrder(s.queues[x], order, now)
    ensures var s' := LandAllS(s, x, order, now);
            && |s'.ledger| == |s.ledger|
            && forall t :: 0 <= t < |s.ledger| && Resides(s'.ledger[t].place, id) ==> Resides(s.ledger[t].place, id)
  {
    hide Inv, LandAllS;
    LandAllEffect(s, x, order, now);
    var s' := LandAllS(s, x, order, now);
    forall t | 0 <= t < |s.ledger| && Resides(s'.ledger[t].place, id)
      ensures Resides(s.ledger[t].place, id)
    {
      assert LandedRecord(s.ledger[t], s'.ledger[t], x, order);
    }
  }

  lemma ReceivedResidents(p: Params, s: Store, c: Call, id: string)
    requires Callable(s, c) && NotATarget(s, id)
    ensures var s' := ReceiveS(p, s, c);
            && |s'.ledger| == |s.ledger|
            && forall t :: 0 <= t < |s.ledger| && Resides(s'.ledger[t].place, id) ==> Resides(s.ledger[t].place, id)
  {
    hide Inv, Landable, Distinct, Unused, ReceiveS, Receive, Deliveries, Selected, Returned;
    ReceiveFields(p, s, c);
    var s' := ReceiveS(p, s, c);
    forall t: nat | t < |s.ledger| && Resides(s'.ledger[t].place, id)
      ensures Resides(s.ledger[t].place, id)
    {
      ReceivedResident(p, s, c, id, t);
    }
  }

  lemma {:induction false} OnlyDead(config: QueueConfig, taken: seq<Stored>)
    ensures Doomed(config, taken) != [] ==> config.dlq.Some?
  {
    if taken != [] {
      OnlyDead(config, taken[1..]);
    }
  }

  lemma MovedSomewhere(s: Store, c: Call)
    requires Callable(s, c)
    ensures Moved(s, c) != [] ==> s.queues[c.id].config.dlq.Some?
  {
    hide Inv, Distinct, Unused, Pick, LandAll;
    OnlyDead(s.queues[c.id].config, Selection(s.queues[c.id], c.request, c.clocks, c.order).taken);
  }

  lemma ReceivedResident(p: Params, s: Store, c: Call, id: string, t: nat)
    requires Callable(s, c) && NotATarget(s, id) && t < |s.ledger|
    ensures |ReceiveS(p, s, c).ledger| == |s.ledger|
    ensures Resides(ReceiveS(p, s, c).ledger[t].place, id) ==> Resides(s.ledger[t].place, id)
  {
    hide Inv, Landable, Distinct, Unused, ReceiveS, Returned, Moved;
    ReceivedPoint(p, s, c, t);
    MovedSomewhere(s, c);
    assert Has(Moved(s, c), t) ==> Moved(s, c) != [];
  }

  /** The counter moves only with a push. */
  lemma CounterStays(p: Params, s: Store, e: Event, id: string)
    requires Enabled(s, e) && !e.Push? && id in s.queues && Lifelong(e, id) && NotATarget(s, id)
    ensures var s' := Apply(p, s, e);
            && id in s'.queues && s'.queues[id].nextSequence == s.queues[id].nextSequence
            && (s.queues[id].config.queueType.SqsFifo? ==> s'.queues[id].config.queueType.SqsFifo?)
            && NotATarget(s', id)
  {
    hide Inv, DrainS, LandAllS, ReceiveS, ParseHandle, ExpiryOrder, Callable, Receive, Supplied, Unused, Landable;
    match e
    case RemoveQueue(x) => if x in s.queues { DrainEffect(s, x, QueueRemoved); }
    case PurgeQueue(x) => if x in s.queues { DrainEffect(s, x, Purged); }
    case SweepQueue(x, order, now) => if x in s.queues { SweepMeta(s, x, order, now); }
    case ReceiveMessages(c, end) => if c.id in s.queues { ReceiveReady(s, c, end); ReceivedMeta(p, s, c); }
    case _ =>
  }

  /** Deliveries of the queue are of copies that were in it. */
  lemma NewFromHome(p: Params, s: Store, e: Event, id: string)
    requires Enabled(s, e) && AllAtHome(s, id)
    ensures var s' := Apply(p, s, e);
            forall d :: d in s'.deliveries && d.queue == id ==> d.ticket < |s.ledger| && s.ledger[d.ticket].home == id
  {
    hide Inv, DrainS, LandAllS, ReceiveS, ParseHandle, ExpiryOrder, Callable, PushS, Receive, Supplied, Unused;
    if e.ReceiveMessages? {
      if e.call.id in s.queues { ReceiveReady(s, e.call, e.end); ReceivedFromHome(p, s, e.call, id); }
    } else {
      OnlyReceivesDeliver(p, s, e);
    }
  }

  lemma ReceivedFromHome(p: Params, s: Store, c: Call, id: string)
    requires Callable(s, c) && AllAtHome(s, id)
    ensures forall d :: d in ReceiveS(p, s, c).deliveries && d.queue == id ==>
              d.ticket < |s.ledger| && s.ledger[d.ticket].home == id
  {
    hide Inv, Landable, Distinct, Unused, ReceiveS, Receive, Deliveries, Selected, Returned;
    ReceiveFields(p, s, c);
    DeliveredTickets(p, Selected(s, c).ledger, c.id, Returned(s, c), c.nonces);
    forall d | d in Deliveries(p, Selected(s, c).ledger, c.id, Returned(s, c), c.nonces) && d.queue == id
      ensures d.ticket < |s.ledger| && s.ledger[d.ticket].home == id
    {
      ReturnedKnown(s, c, d.ticket);
      ReceivedPoint(p, s, c, d.ticket);
    }
  }

  lemma ReturnedKnown(s: Store, c: Call, t: nat)
    requires Callable(s, c) && Has(Returned(s, c), t)
    ensures t < |s.ledger|
  {
    hide Landable, Distinct, Unused, Selected, Returned, QueueOk, QueuesOk, LimboOk, AllFound, Census, Moved;
    ReturnedHeld(s, c);
    SelectedEffect(s, c);
    HasIn(Returned(s, c), t);
    HeldTickets(Selected(s, c), Returned(s, c));
  }

  // ---------------------------------------------------------------- steps

  lemma NumberedAppend(ledger: seq<Record>, from: nat, id: string, next: nat, r: Record)
    requires Numbered(ledger, from, id, next)
    requires r.home == id ==> r.message.sequence == Some(next)
    ensures Numbered(ledger + [r], from, id, if r.home == id then next + 1 else next)
  {
  }

  /** What a push does to the counter of a FIFO queue. */
  lemma SendOneNumbers(p: Params, q: Queue, m: Message, r: Reads, ticket: nat)
    requires q.config.queueType.SqsFifo?
    ensures var result := SendOne(p, q, m, r, ticket);
            if result.outcome.Sent?
            then result.outcome.message.sequence == Some(q.nextSequence) && result.queue.nextSequence == q.nextSequence + 1
            else result.queue.nextSequence == q.nextSequence
  {
  }

  lemma PushNumbers(p: Params, s: Store, x: string, m: Message, r: Reads, from: nat, id: string)
    requires Resting(s) && NumberState(s, from, id) && x in s.queues
    ensures NumberState(PushS(p, s, x, m, r).(clock := r.stamp), from, id)
  {
    hide Inv, SendOne, Numbered, SameHoldings;
    var s' := PushS(p, s, x, m, r).(clock := r.stamp);
    var result := SendOne(p, s.queues[x], m, r, |s.ledger|);
    SendOneShape(p, s.queues[x], m, r, |s.ledger|);
    if id in s.queues {
      if x == id { SendOneNumbers(p, s.queues[x], m, r, |s.ledger|); }
      if result.outcome.Sent? {
        NumberedAppend(s.ledger, from, id, s.queues[id].nextSequence, s'.ledger[|s.ledger|]);
        assert s'.ledger == s.ledger + [s'.ledger[|s.ledger|]];
      }
    }
  }

  lemma StepNumbers(p: Params, s: Store, e: Event, from: nat, id: string)
    requires Enabled(s, e) && NumberState(s, from, id) && Lifelong(e, id)
    ensures NumberState(Apply(p, s, e), from, id)
  {
    hide Inv, DrainS, LandAllS, ReceiveS, ParseHandle, ExpiryOrder, Callable, PushS, Receive, Supplied, Unused, Evolves, Numbered, AllAtHome;
    var s' := Apply(p, s, e);
    if e.Push? {
      if e.id in s.queues { PushNumbers(p, s, e.id, e.message, e.clocks, from, id); } else { SameLedger(s, s', from, id); }
    } else {
      StepKeeps(p, s, e);
      Residents(p, s, e, id);
      NewFromHome(p, s, e, id);
      HomesStay(s, s', id);
      if id in s.queues {
        CounterStays(p, s, e, id);
        NumbersStay(s, s', from, id, s.queues[id].nextSequence);
      } else {
        Newborn(p, s, e, from, id);
      }
    }
  }

  lemma SameLedger(s: Store, s': Store, from: nat, id: string)
    requires NumberState(s, from, id)
    requires s'.ledger == s.ledger && s'.queues == s.queues && s'.deliveries == s.deliveries
    ensures NumberState(s', from, id)
  {
  }

  lemma HomesStay(s: Store, s': Store, id: string)
    requires AllAtHome(s, id) && Evolves(s, s') && |s'.ledger| == |s.ledger|
    requires forall t :: 0 <= t < |s.ledger| && Resides(s'.ledger[t].place, id) ==> Resides(s.ledger[t].place, id)
    requires forall d :: d in s'.deliveries && d.queue == id ==> d.ticket < |s.ledger| && s.ledger[d.ticket].home == id
    ensures AllAtHome(s', id)
  {
  }

  lemma NumbersStay(s: Store, s': Store, from: nat, id: string, next: nat)
    requires Numbered(s.ledger, from, id, next) && Evolves(s, s') && |s'.ledger| == |s.ledger|
    ensures Numbered(s'.ledger, from, id, next)
  {
  }

  /** The queue does not exist yet, or is created just now. */
  lemma Newborn(p: Params, s: Store, e: Event, from: nat, id: string)
    requires Enabled(s, e) && NumberState(s, from, id) && Lifelong(e, id) && !e.Push? && id !in s.queues
    requires Evolves(s, Apply(p, s, e)) && |Apply(p, s, e).ledger| == |s.ledger|
    requires AllAtHome(Apply(p, s, e), id)
    ensures NumberState(Apply(p, s, e), from, id)
  {
    hide Inv, DrainS, LandAllS, ReceiveS, ParseHandle, ExpiryOrder, Callable, PushS, Receive, Supplied, Unused, AllAtHome, Landable;
    var s' := Apply(p, s, e);
    match e
    case RemoveQueue(x) => if x in s.queues { DrainEffect(s, x, QueueRemoved); }
    case PurgeQueue(x) => if x in s.queues { DrainEffect(s, x, Purged); }
    case SweepQueue(x, order, now) => if x in s.queues { SweepMeta(s, x, order, now); }
    case ReceiveMessages(c, end) => NewbornReceive(p, s, e, from, id);
    case _ =>
  }

  lemma NewbornReceive(p: Params, s: Store, e: Event, from: nat, id: string)
    requires Enabled(s, e) && NumberState(s, from, id) && e.ReceiveMessages? && id !in s.queues
    requires Evolves(s, Apply(p, s, e)) && |Apply(p, s, e).ledger| == |s.ledger| && AllAtHome(Apply(p, s, e), id)
    ensures NumberState(Apply(p, s, e), from, id)
  {
    hide Inv, DrainS, LandAllS, ReceiveS, ParseHandle, ExpiryOrder, Callable, PushS, Receive, Supplied, Unused, AllAtHome, Landable;
    if e.call.id in s.queues {
      ReceiveReady(s, e.call, e.end);
      ReceivedMeta(p, s, e.call);
    }
  }

  ghost predicate LifelongRun(es: seq<Event>, id: string) {
    forall i :: 0 <= i < |es| ==> Lifelong(es[i], id)
  }

  lemma {:induction false} RunNumbers(p: Params, s: Store, es: seq<Event>, from: nat, id: string)
    requires Resting(s) && Run(p, s, es) && NumberState(s, from, id) && LifelongRun(es, id)
    ensures NumberState(After(p, s, es), from, id)
    decreases |es|
  {
    hide Resting, NumberState, Lifelong, Apply;
    if es != [] {
      StepKeeps(p, s, es[0]);
      StepNumbers(p, s, es[0], from, id);
      assert forall i :: 0 <= i < |es| - 1 ==> es[1..][i] == es[i + 1];
      RunNumbers(p, Apply(p, s, es[0]), es[1..], from, id);
    }
  }

  lemma {:induction false} RunAtHome(p: Params, s: Store, es: seq<Event>, id: string, delay: nat)
    requires Resting(s) && Run(p, s, es) && AllAtHome(s, id) && NotATarget(s, id) && SteadyRun(p, s, es, id, delay)
    ensures AllAtHome(After(p, s, es), id) && NotATarget(After(p, s, es), id)
    decreases |es|
  {
    hide Resting, AllAtHome, Apply, NotATarget;
    if es != [] {
      StepKeeps(p, s, es[0]);
      StepAtHome(p, s, es[0], id);
      RunAtHome(p, Apply(p, s, es[0]), es[1..], id, delay);
    }
  }

  lemma StepAtHome(p: Params, s: Store, e: Event, id: string)
    requires Enabled(s, e) && AllAtHome(s, id) && NotATarget(s, id)
    requires (e.Create? || e.Update?) && e.config.dlq.Some? ==> e.config.dlq.value.target != id
    ensures AllAtHome(Apply(p, s, e), id) && NotATarget(Apply(p, s, e), id)
  {
    hide Inv, DrainS, LandAllS, ReceiveS, ParseHandle, ExpiryOrder, Callable, PushS, Receive, Supplied, Unused, Evolves, AllAtHome, Landable;
    if e.Push? {
      PushAtHome(p, s, e, id);
    } else {
      StepKeeps(p, s, e);
      Residents(p, s, e, id);
      NewFromHome(p, s, e, id);
      HomesStay(s, Apply(p, s, e), id);
      StepTargets(p, s, e, id);
    }
  }

  lemma PushAtHome(p: Params, s: Store, e: Event, id: string)
    requires Enabled(s, e) && e.Push? && AllAtHome(s, id) && NotATarget(s, id)
    ensures AllAtHome(Apply(p, s, e), id) && NotATarget(Apply(p, s, e), id)
  {
    hide Inv;
    if e.id in s.queues {
      SendOneShape(p, s.queues[e.id], e.message, e.clocks, |s.ledger|);
      hide SendOne;
    }
  }

  lemma StepTargets(p: Params, s: Store, e: Event, id: string)
    requires Enabled(s, e) && !e.Push? && NotATarget(s, id)
    requires (e.Create? || e.Update?) && e.config.dlq.Some? ==> e.config.dlq.value.target != id
    ensures NotATarget(Apply(p, s, e), id)
  {
    hide Inv, DrainS, LandAllS, ReceiveS, ParseHandle, ExpiryOrder, Callable, Receive, Supplied, Unused, Landable;
    match e
    case RemoveQueue(x) => if x in s.queues { DrainEffect(s, x, QueueRemoved); }
    case PurgeQueue(x) => if x in s.queues { DrainEffect(s, x, Purged); }
    case SweepQueue(x, order, now) => if x in s.queues { SweepMeta(s, x, order, now); }
    case ReceiveMessages(c, end) => if c.id in s.queues { ReceiveReady(s, c, end); ReceivedMeta(p, s, c); }
    case _ =>
  }

  /** In one lifetime of a FIFO queue, after any history: the copies sent to it carry strictly
      increasing sequence numbers below the counter, and so do its first deliveries in the order
      consumers see them. `past` ends with the queue absent; `es` is the lifetime. */
  lemma SequencesInOrder(p: Params, past: seq<Event>, es: seq<Event>, id: string, delay: nat)
    requires Run(p, EMPTY, past) && id !in After(p, EMPTY, past).queues
    requires Run(p, After(p, EMPTY, past), es) && LifelongRun(es, id)
    requires SteadyRun(p, EMPTY, past, id, delay) && SteadyRun(p, After(p, EMPTY, past), es, id, delay)
    ensures var from := |After(p, EMPTY, past).ledger|;
            var s := After(p, After(p, EMPTY, past), es);
            && (id in s.queues ==> Numbered(s.ledger, from, id, s.queues[id].nextSequence))
            && FirstSequences(s, from, id)
            && (id in s.queues ==> WaitingSequences(s, id))
  {
    StartRests();
    StartInOrder(id, delay);
    hide Run, After, SteadyRun, Resting, Numbered, FirstsSoFar, LifelongRun, WaitingSequences, NoneBefore;
    RunKeeps(p, EMPTY, past);
    RunAtHome(p, EMPTY, past, id, delay);
    RunInOrder(p, EMPTY, past, id, delay);
    var mid := After(p, EMPTY, past);
    var from := |mid.ledger|;
    hide AllAtHome, LineState, FlyingServed, NotATarget;
    assert NumberState(mid, from, id);
    RunNumbers(p, mid, es, from, id);
    RunInOrder(p, mid, es, id, delay);
    var s := After(p, mid, es);
    FirstsNumbered(s, from, id, delay);
    NoneWithoutQueue(mid, id);
    RunKeeps(p, mid, es);
    RunNoneBefore(p, mid, es, from, id, delay);
    if id in s.queues {
      WaitingNumbered(s, from, id, delay);
    }
  }

  /** Messages of the queue that were never received stand in strictly increasing sequence. */
  ghost predicate WaitingSequences(s: Store, id: string)
    requires id in s.queues
  {
    var waiting := s.queues[id].available;
    forall i, j | 0 <= i < j < |waiting| && Unserved(s.ledger, waiting[i]) && Unserved(s.ledger, waiting[j]) ::
      var a, b := waiting[i].message.sequence, waiting[j].message.sequence;
      a.Some? && b.Some? && a.value < b.value
  }

  /** No copy from before the lifetime is in the queue. */
  ghost predicate NoneBefore(s: Store, from: nat, id: string) {
    from <= |s.ledger| && forall t :: 0 <= t < from ==> !Resides(s.ledger[t].place, id)
  }

  lemma NoneWithoutQueue(s: Store, id: string)
    requires Resting(s) && id !in s.queues
    ensures NoneBefore(s, |s.ledger|, id)
  {
    hide QueuesOk, LimboOk, Census;
    NobodyHome(s, id);
  }

  lemma StepNoneBefore(p: Params, s: Store, e: Event, from: nat, id: string)
    requires Enabled(s, e) && NoneBefore(s, from, id) && NotATarget(s, id)
    ensures NoneBefore(Apply(p, s, e), from, id)
  {
    hide Enabled, Apply, NotATarget;
    if e.Push? {
      PushKeepsLedger(p, s, e);
    } else {
      Residents(p, s, e, id);
    }
  }

  lemma PushKeepsLedger(p: Params, s: Store, e: Event)
    requires Enabled(s, e) && e.Push?
    ensures s.ledger <= Apply(p, s, e).ledger
  {
    hide Inv, SendOne;
  }

  lemma {:induction false} RunNoneBefore(p: Params, s: Store, es: seq<Event>, from: nat, id: string, delay: nat)
    requires Resting(s) && Run(p, s, es) && NoneBefore(s, from, id)
    requires AllAtHome(s, id) && NotATarget(s, id) && SteadyRun(p, s, es, id, delay)
    ensures NoneBefore(After(p, s, es), from, id)
    decreases |es|
  {
    hide Resting, AllAtHome, Apply, NotATarget, NoneBefore;
    if es != [] {
      StepKeeps(p, s, es[0]);
      StepAtHome(p, s, es[0], id);
      StepNoneBefore(p, s, es[0], from, id);
      RunNoneBefore(p, Apply(p, s, es[0]), es[1..], from, id, delay);
    }
  }

  lemma WaitingNumbered(s: Store, from: nat, id: string, delay: nat)
    requires Resting(s) && NumberState(s, from, id) && InOrder(s, id, delay) && NoneBefore(s, from, id) && id in s.queues
    ensures WaitingSequences(s, id)
  {
    hide QueueOk, LimboOk, AllFound, Census, FirstsSoFar, FlyingServed, NotATarget;
    var a := s.queues[id].available;
    forall i, j | 0 <= i < j < |a| && Unserved(s.ledger, a[i]) && Unserved(s.ledger, a[j])
      ensures a[i].message.sequence.Some? && a[j].message.sequence.Some?
              && a[i].message.sequence.value < a[j].message.sequence.value
    {
      WaitingEntry(s, from, id, i);
      WaitingEntry(s, from, id, j);
      assert a[i].ticket < a[j].ticket;
    }
  }

  lemma WaitingEntry(s: Store, from: nat, id: string, i: nat)
    requires Inv(s) && NoneBefore(s, from, id) && AllAtHome(s, id) && id in s.queues && i < |s.queues[id].available|
    ensures var e := s.queues[id].available[i];
            from <= e.ticket < |s.ledger| && s.ledger[e.ticket].home == id
            && e.message.sequence == s.ledger[e.ticket].message.sequence
  {
    hide QueueOk, LimboOk, AllFound, Census;
    AvailableEntry(s, id, i);
    var e := s.queues[id].available[i];
    assert Payload(e.message).sequence == e.message.sequence;
    assert Payload(s.ledger[e.ticket].message).sequence == s.ledger[e.ticket].message.sequence;
  }

  /** First deliveries of copies from ticket `from` on, in strictly increasing sequence. */
  ghost predicate FirstSequences(s: Store, from: nat, id: string) {
    forall i, j | 0 <= i < j < |s.deliveries|
      && s.deliveries[i].queue == id && s.deliveries[j].queue == id
      && s.deliveries[i].first && s.deliveries[j].first && from <= s.deliveries[i].ticket ::
        && s.deliveries[i].ticket < s.deliveries[j].ticket < |s.ledger|
        && var a, b := s.ledger[s.deliveries[i].ticket].message.sequence, s.ledger[s.deliveries[j].ticket].message.sequence;
           a.Some? && b.Some? && a.value < b.value
  }

  lemma FirstsNumbered(s: Store, from: nat, id: string, delay: nat)
    requires NumberState(s, from, id) && InOrder(s, id, delay)
    ensures FirstSequences(s, from, id)
  {
    hide Line, FlyingServed, NotATarget;
    forall i, j | 0 <= i < j < |s.deliveries|
      && s.deliveries[i].queue == id && s.deliveries[j].queue == id
      && s.deliveries[i].first && s.deliveries[j].first && from <= s.deliveries[i].ticket
      ensures s.deliveries[i].ticket < s.deliveries[j].ticket < |s.ledger|
      ensures var a, b := s.ledger[s.deliveries[i].ticket].message.sequence, s.ledger[s.deliveries[j].ticket].message.sequence;
              a.Some? && b.Some? && a.value < b.value
    {
      assert s.deliveries[i] in s.deliveries && s.deliveries[j] in s.deliveries;
    }
  }
}

/** No stored message is lost, duplicated or altered: at every reachable state each copy is in
    exactly one place, and copies leave only in the ways the operations name. */
module Conservation {
  import opened Types
  import opened QueueModel
  import opened History
  import opened Receiving
  import opened Runs

  /** A copy with ticket t is at `place`. */
  ghost predicate At(s: Store, place: Place, t: nat)
    requires t < |s.ledger|
  {
    match place
    case Available(id) => id in s.queues && Has(s.queues[id].available, t)
    case Flying(id, h) => id in s.queues && h in s.queues[id].inFlight && s.queues[id].inFlight[h].ticket == t
    case Limbo => false
    case Gone(fate) => s.ledger[t].place == Gone(fate)
  }

  lemma OnlyThere(s: Store, place: Place, t: nat)
    requires Resting(s) && t < |s.ledger|
    ensures At(s, place, t) <==> s.ledger[t].place == place
  {
    hide QueueOk, QueuesOk, Census;
    assert Found(s, t);
    if place.Available? && At(s, place, t) {
      var i :| 0 <= i < |s.queues[place.queue].available| && s.queues[place.queue].available[i].ticket == t;
      AvailableEntry(s, place.queue, i);
    }
    if place.Flying? && At(s, place, t) {
      FlyingEntry(s, place.queue, place.handle);
    }
  }

  function Tally(ledger: seq<Record>, fate: Fate): nat {
    if ledger == [] then 0
    else Tally(ledger[..|ledger| - 1], fate) + if ledger[|ledger| - 1].place == Gone(fate) then 1 else 0
  }

  lemma {:induction false} TallySum(ledger: seq<Record>)
    ensures GoneCount(ledger) == Tally(ledger, Deleted) + Tally(ledger, Evicted) + Tally(ledger, Purged)
                                 + Tally(ledger, QueueRemoved) + Tally(ledger, Dropped)
  {
    if ledger != [] {
      TallySum(ledger[..|ledger| - 1]);
      var place := ledger[|ledger| - 1].place;
      if place.Gone? {
        match place.fate
        case Deleted => assert place == Gone(Deleted);
        case Evicted => assert place == Gone(Evicted);
        case Purged => assert place == Gone(Purged);
        case QueueRemoved => assert place == Gone(QueueRemoved);
        case Dropped => assert place == Gone(Dropped);
      }
    }
  }

  /** Conservation over every run, ticket by ticket: the place the ledger names is the only
      place with that ticket, no deque holds a ticket twice, and what is held is the message
      that was stored, apart from its queue, sent time and receive count. */
  lemma EveryCopyInOnePlace(p: Params, es: seq<Event>)
    requires Run(p, EMPTY, es)
    ensures var s := After(p, EMPTY, es);
            && (forall place, t: nat :: t < |s.ledger| ==> (At(s, place, t) <==> s.ledger[t].place == place))
            && (forall id :: id in s.queues ==> DistinctTickets(s.queues[id].available))
            && (forall id, i :: id in s.queues && 0 <= i < |s.queues[id].available| ==>
                  var e := s.queues[id].available[i];
                  e.ticket < |s.ledger| && Payload(e.message) == Payload(s.ledger[e.ticket].message))
            && (forall id, h :: id in s.queues && h in s.queues[id].inFlight ==>
                  var f := s.queues[id].inFlight[h];
                  f.ticket < |s.ledger| && Payload(f.message) == Payload(s.ledger[f.ticket].message))
  {
    hide Run, After;
    StartRests();
    RunKeeps(p, EMPTY, es);
    var s := After(p, EMPTY, es);
    hide QueueOk, QueuesOk, LimboOk, AllFound, Census;
    forall place, t: nat | t < |s.ledger|
      ensures At(s, place, t) <==> s.ledger[t].place == place
    {
      OnlyThere(s, place, t);
    }
    forall id | id in s.queues
      ensures DistinctTickets(s.queues[id].available)
    {
      NoTicketTwice(s, id);
    }
    forall id, i | id in s.queues && 0 <= i < |s.queues[id].available|
      ensures var e := s.queues[id].available[i];
              e.ticket < |s.ledger| && Payload(e.message) == Payload(s.ledger[e.ticket].message)
    {
      AvailableEntry(s, id, i);
    }
    forall id, h | id in s.queues && h in s.queues[id].inFlight
      ensures var f := s.queues[id].inFlight[h];
              f.ticket < |s.ledger| && Payload(f.message) == Payload(s.ledger[f.ticket].message)
    {
      FlyingEntry(s, id, h);
    }
  }

  lemma NoTicketTwice(s: Store, id: string)
    requires QueuesOk(s) && id in s.queues
    ensures DistinctTickets(s.queues[id].available)
  {
    assert QueueOk(s.ledger, s.nonces, id, s.queues[id]);
  }

  /** Conservation over every run, in numbers. */
  lemma EveryCopyCounted(p: Params, es: seq<Event>)
    requires Run(p, EMPTY, es)
    ensures var s := After(p, EMPTY, es);
            |s.ledger| == Total(s.queues) + Tally(s.ledger, Deleted) + Tally(s.ledger, Evicted)
                        + Tally(s.ledger, Purged) + Tally(s.ledger, QueueRemoved) + Tally(s.ledger, Dropped)
  {
    hide QueueOk, QueuesOk, LimboOk, AllFound, Run, After;
    StartRests();
    RunKeeps(p, EMPTY, es);
    TallySum(After(p, EMPTY, es).ledger);
  }

  /** The only way to each end of a copy's life. */
  ghost predicate Justified(p: Params, s: Store, e: Event, t: nat, fate: Fate)
    requires t < |s.ledger|
  {
    var place := s.ledger[t].place;
    match fate
    case Deleted =>
      && e.DeleteMessage? && place == Flying(e.id, e.handle)
      && HandleFault(p, s.queues, e.id, e.handle).None?
    case Evicted =>
      && e.Evict? && place == Available(e.id) && e.id in s.queues && s.queues[e.id].available != []
      && s.queues[e.id].available[0].ticket == t
    case Purged => e.PurgeQueue? && Resides(place, e.id)
    case QueueRemoved => e.RemoveQueue? && Resides(place, e.id)
    case Dropped =>
      && e.ReceiveMessages? && e.call.id in s.queues && Resides(place, e.call.id)
      && TargetOf(s.queues[e.call.id].config) !in s.queues
      && Callable(s, e.call) && Has(Moved(s, e.call), t)
  }

  /** A copy that one step ends was deleted with its own handle, evicted from the front, purged,
      removed with its queue, or over its receive limit with no dead-letter queue to go to. */
  lemma WhyGone(p: Params, s: Store, e: Event, t: nat)
    requires Enabled(s, e) && t < |s.ledger| && !s.ledger[t].place.Gone?
    requires t < |Apply(p, s, e).ledger| && Apply(p, s, e).ledger[t].place.Gone?
    ensures Justified(p, s, e, t, Apply(p, s, e).ledger[t].place.fate)
  {
    hide QueueOk, QueuesOk, LimboOk, AllFound, Census, DrainS, LandAllS, ReceiveS;
    match e
    case RemoveQueue(id) => if id in s.queues { DrainEffect(s, id, QueueRemoved); }
    case PurgeQueue(id) => if id in s.queues { DrainEffect(s, id, Purged); }
    case Evict(id) => AvailableEntry(s, id, 0);
    case DeleteMessage(id, h) => if HandleFault(p, s.queues, id, h).None? { FlyingEntry(s, id, h); }
    case SweepQueue(id, order, now) =>
      if id in s.queues {
        NobodySwept(s, id, order, now, t);
      }
    case ReceiveMessages(c, end) =>
      if c.id in s.queues { WhyDropped(p, s, c, t); }
    case _ =>
  }

  lemma NobodySwept(s: Store, id: string, order: seq<Handle>, now: nat, t: nat)
    requires Inv(s) && id in s.queues && Landable(s.queues[id], order) && t < |s.ledger|
    ensures |LandAllS(s, id, order, now).ledger| == |s.ledger|
    ensures LandAllS(s, id, order, now).ledger[t].place.Gone? ==> s.ledger[t].place.Gone?
  {
    hide Inv, LandAllS, Landable;
    LandAllEffect(s, id, order, now);
    assert LandedRecord(s.ledger[t], LandAllS(s, id, order, now).ledger[t], id, order);
  }

  lemma WhyDropped(p: Params, s: Store, c: Call, t: nat)
    requires Callable(s, c) && t < |s.ledger| && !s.ledger[t].place.Gone?
    ensures |ReceiveS(p, s, c).ledger| == |s.ledger|
    ensures ReceiveS(p, s, c).ledger[t].place.Gone? ==>
              && ReceiveS(p, s, c).ledger[t].place == Gone(Dropped)
              && TargetOf(s.queues[c.id].config) !in s.queues
              && Resides(s.ledger[t].place, c.id) && Has(Moved(s, c), t)
  {
    hide Has, Returned, Moved, Inv, Landable, Supplied, Unused, ReceiveS;
    ReceivedPoint(p, s, c, t);
  }
}

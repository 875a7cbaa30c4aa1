/** While a message is in flight it is nobody else's, and a handle that has done its work never
    works again. */
module Visibility {
  import opened Types
  import opened Sequences
  import opened QueueModel
  import opened History
  import opened Receiving
  import opened Runs

  // ---------------------------------------------------------------- in-flight maps

  lemma {:induction false} LandAllFlights(q: Queue, order: seq<Handle>, now: nat)
    requires Landable(q, order)
    ensures LandAll(q, order, now).inFlight == q.inFlight - (set h | h in order)
    decreases |order|
  {
    if order == [] {
      assert q.inFlight - (set h | h in order) == q.inFlight;
    } else {
      LandableTail(q, order, now);
      LandAllFlights(Land(q, order[0], now), order[1..], now);
      assert (set h | h in order) == {order[0]} + (set h | h in order[1..]);
    }
  }

  /** New handles do not disturb a handle with another nonce. */
  lemma {:induction false} LaunchFlights(p: Params, m: map<Handle, InFlight>, id: string, kept: seq<Stored>,
                                         nonces: seq<nat>, expiresAt: nat, h: Handle)
    requires |kept| <= |nonces| && h in m && h.Decoded? && h.nonce !in nonces
    ensures var m' := Launch(p, m, id, kept, nonces, expiresAt);
            h in m' && m'[h] == m[h]
  {
    if kept != [] {
      LaunchFlights(p, m, id, kept[1..], nonces, expiresAt, h);
      assert nonces[|kept| - 1] in nonces;
    }
  }

  lemma {:induction false} DivertAllFlights(qs: Queues, target: string, moves: seq<Stored>, stamps: seq<nat>, now: nat)
    requires |moves| <= |stamps|
    ensures DivertAll(qs, target, moves, stamps, now).Keys == qs.Keys
    ensures forall id :: id in qs ==> DivertAll(qs, target, moves, stamps, now)[id].inFlight == qs[id].inFlight
    decreases |moves|
  {
    if moves != [] {
      DivertAllFlights(Divert(qs, target, moves[0], stamps[0], now), target, moves[1..], stamps[1..], now);
    }
  }

  lemma ReceiveFlights(p: Params, qs: Queues, c: Call, id: string, h: Handle)
    requires c.id in qs && Landable(qs[c.id], c.order)
    requires RECEIVE_LIMIT <= |c.nonces| && RECEIVE_LIMIT <= |c.clocks.stamps|
    requires id in qs && h in qs[id].inFlight && h.Decoded? && h.nonce !in c.nonces
    requires id == c.id ==> h !in c.order
    ensures var qs' := Receive(p, qs, c.id, c.request, c.clocks, c.order, c.nonces).queues;
            id in qs' && h in qs'[id].inFlight && qs'[id].inFlight[h] == qs[id].inFlight[h]
  {
    hide LandAll, Pick, Launch, Kept, Doomed, DivertAll, Reversed, Answer;
    var q := Landed(qs[c.id], c.clocks, c.order);
    var config := qs[c.id].config;
    var picked := Selection(qs[c.id], c.request, c.clocks, c.order);
    var kept := Kept(config, picked.taken);
    var expiresAt := c.clocks.now + Timeout(config, c.request) * SECOND;
    LandAllFlights(qs[c.id].(lastAccess := c.clocks.access), c.order, c.clocks.now);
    if id == c.id {
      LaunchFlights(p, q.inFlight, id, kept, c.nonces, expiresAt, h);
    }
    var served := q.(available := picked.rest, inFlight := Launch(p, q.inFlight, c.id, kept, c.nonces, expiresAt));
    DivertAllFlights(qs[c.id := served], TargetOf(config), Reversed(Doomed(config, picked.taken)),
                     c.clocks.stamps, c.clocks.now);
  }

  // ---------------------------------------------------------------- exclusive visibility

  /** The deliveries an event adds. */
  ghost function NewDeliveries(s: Store, s': Store): seq<Delivery>
    requires s.deliveries <= s'.deliveries
  {
    s'.deliveries[|s.deliveries|..]
  }

  lemma {:induction false} DeliveredTickets(p: Params, ledger: seq<Record>, id: string, kept: seq<Stored>, nonces: seq<nat>)
    requires |kept| <= |nonces|
    ensures forall d :: d in Deliveries(p, ledger, id, kept, nonces) ==> d.queue == id && Has(kept, d.ticket)
  {
    if kept != [] {
      DeliveredTickets(p, ledger, id, kept[1..], nonces);
      forall t: nat | Has(kept[1..], t)
        ensures Has(kept, t)
      {
        var i :| 0 <= i < |kept| - 1 && kept[1..][i].ticket == t;
        assert kept[i + 1].ticket == t;
      }
      assert Has(kept, kept[0].ticket);
    }
  }

  /** The moment an event judges deadlines by; only receives and sweeps do. */
  ghost predicate NotYetExpired(e: Event, deadline: nat) {
    && (e.ReceiveMessages? ==> e.call.clocks.now < deadline)
    && (e.SweepQueue? ==> e.now < deadline)
  }

  /** Exclusive visibility over every run: as long as a message is in flight and its current
      deadline has not passed, no event returns that copy to anybody, and a receive or sweep
      leaves its handle in flight with the same deadline. */
  lemma InFlightIsExclusive(p: Params, es: seq<Event>, e: Event, id: string, h: Handle)
    requires Run(p, EMPTY, es) && Enabled(After(p, EMPTY, es), e)
    requires var s := After(p, EMPTY, es);
             id in s.queues && h in s.queues[id].inFlight && NotYetExpired(e, s.queues[id].inFlight[h].expiresAt)
    ensures var s := After(p, EMPTY, es);
            var s' := Apply(p, s, e);
            && s.deliveries <= s'.deliveries
            && (forall d :: d in NewDeliveries(s, s') ==> d.ticket != s.queues[id].inFlight[h].ticket)
            && (e.ReceiveMessages? || e.SweepQueue? ==>
                  id in s'.queues && h in s'.queues[id].inFlight && s'.queues[id].inFlight[h] == s.queues[id].inFlight[h])
  {
    hide Run, After;
    StartRests();
    RunKeeps(p, EMPTY, es);
    var s := After(p, EMPTY, es);
    hide Inv, DrainS, LandAllS, ReceiveS, PushS, Evolves, Change;
    if e.ReceiveMessages? {
      if e.call.id in s.queues { ReceiveExcludes(p, s, e.call, id, h); }
    } else {
      OnlyReceivesDeliver(p, s, e);
      if e.SweepQueue? && e.id in s.queues {
        SweepSpares(p, s, e.id, e.order, e.now, id, h);
      }
    }
  }

  lemma OnlyReceivesDeliver(p: Params, s: Store, e: Event)
    requires Enabled(s, e) && !e.ReceiveMessages?
    ensures Apply(p, s, e).deliveries == s.deliveries
  {
    hide QueueOk, QueuesOk, LimboOk, AllFound, Census, DrainS, LandAllS, ParseHandle;
    match e
    case RemoveQueue(x) => if x in s.queues { DrainEffect(s, x, QueueRemoved); }
    case PurgeQueue(x) => if x in s.queues { DrainEffect(s, x, Purged); }
    case SweepQueue(x, order, now) => if x in s.queues { LandAllEffect(s, x, order, now); }
    case _ =>
  }

  lemma SweepSpares(p: Params, s: Store, x: string, order: seq<Handle>, now: nat, id: string, h: Handle)
    requires Resting(s) && x in s.queues && ExpiryOrder(s.queues[x], order, now)
    requires id in s.queues && h in s.queues[id].inFlight && now < s.queues[id].inFlight[h].expiresAt
    ensures var s' := LandAllS(s, x, order, now);
            id in s'.queues && h in s'.queues[id].inFlight && s'.queues[id].inFlight[h] == s.queues[id].inFlight[h]
  {
    hide QueueOk, QueuesOk, LimboOk, AllFound, Census, LandAllS;
    LandAllEffect(s, x, order, now);
    LandAllFlights(s.queues[x], order, now);
  }

  lemma ReceiveExcludes(p: Params, s: Store, c: Call, id: string, h: Handle)
    requires Callable(s, c) && ExpiryOrder(s.queues[c.id], c.order, c.clocks.now)
    requires id in s.queues && h in s.queues[id].inFlight && c.clocks.now < s.queues[id].inFlight[h].expiresAt
    ensures var s' := ReceiveS(p, s, c);
            && s.deliveries <= s'.deliveries
            && (forall d :: d in NewDeliveries(s, s') ==> d.ticket != s.queues[id].inFlight[h].ticket)
            && id in s'.queues && h in s'.queues[id].inFlight && s'.queues[id].inFlight[h] == s.queues[id].inFlight[h]
  {
    ReceiveEffect(p, s, c);
    hide QueueOk, QueuesOk, LimboOk, AllFound, Census, ReceiveS, Receive, Deliveries;
    var t := s.queues[id].inFlight[h].ticket;
    FlyingEntry(s, id, h);
    ReceiveFlights(p, s.queues, c, id, h);
    assert ReceivedRecord(s, c, t, ReceiveS(p, s, c).ledger[t]);
    assert !Has(Returned(s, c), t);
    DeliveredTickets(p, Selected(s, c).ledger, c.id, Returned(s, c), c.nonces);
    assert NewDeliveries(s, ReceiveS(p, s, c)) == Deliveries(p, Selected(s, c).ledger, c.id, Returned(s, c), c.nonces);
  }

  // ---------------------------------------------------------------- handles

  ghost predicate InFlightSomewhere(s: Store, h: Handle) {
    exists id :: id in s.queues && h in s.queues[id].inFlight
  }

  /** A handle whose nonce is used up and that is in flight nowhere: it was deleted, it expired,
      or its queue was purged or removed. */
  ghost predicate Spent(s: Store, h: Handle) {
    h.Decoded? && h.nonce in s.nonces && !InFlightSomewhere(s, h)
  }

  /** A spent handle stays spent, whatever happens next. */
  lemma SpentForever(p: Params, s: Store, es: seq<Event>, h: Handle)
    requires Resting(s) && Run(p, s, es) && Spent(s, h)
    ensures Spent(After(p, s, es), h)
    ensures forall id :: HandleFault(p, After(p, s, es).queues, id, h).Some?
  {
    hide Run, After;
    RunKeeps(p, s, es);
    var s' := After(p, s, es);
    hide QueueOk, QueuesOk, LimboOk, Census;
    if InFlightSomewhere(s', h) {
      var id :| id in s'.queues && h in s'.queues[id].inFlight;
      FlightOrigin(s, s', id, h);
    }
  }

  lemma FlightOrigin(s: Store, s': Store, id: string, h: Handle)
    requires Resting(s) && Resting(s') && Evolves(s, s')
    requires id in s'.queues && h in s'.queues[id].inFlight
    ensures InFlightSomewhere(s, h) || h.nonce !in s.nonces
  {
    hide QueueOk, QueuesOk, LimboOk, Census;
    FlyingEntry(s', id, h);
    var t := s'.queues[id].inFlight[h].ticket;
    assert s'.ledger[t].place == Flying(id, h);
    if t < |s.ledger| && s.ledger[t].place == Flying(id, h) {
      assert Found(s, t);
    }
  }

  /** The events that end the flight of a handle: a deletion with it, its expiry found by a sweep
      or a receive, and a purge or the removal of its queue. */
  ghost predicate EndsFlight(p: Params, s: Store, e: Event, id: string, h: Handle)
    requires id in s.queues && h in s.queues[id].inFlight
  {
    match e
    case DeleteMessage(x, g) => x == id && g == h && HandleFault(p, s.queues, id, h).None?
    case PurgeQueue(x) => x == id
    case RemoveQueue(x) => x == id
    case SweepQueue(x, _, now) => x == id && s.queues[id].inFlight[h].expiresAt <= now
    case ReceiveMessages(c, _) => c.id == id && s.queues[id].inFlight[h].expiresAt <= c.clocks.now
    case _ => false
  }

  lemma FlightSurvives(p: Params, s: Store, e: Event, id: string, h: Handle)
    requires Enabled(s, e) && !e.ReceiveMessages? && !e.SweepQueue? && id in s.queues && h in s.queues[id].inFlight
    ensures var s' := Apply(p, s, e);
            id in s'.queues && h in s'.queues[id].inFlight <==> !EndsFlight(p, s, e, id, h)
  {
    hide Inv, DrainS, HandleFault, SendOne;
    match e {
      case RemoveQueue(x) => if x in s.queues { DrainEffect(s, x, QueueRemoved); }
      case PurgeQueue(x) => if x in s.queues { DrainEffect(s, x, Purged); }
      case Push(x, m, clocks) => if x in s.queues { SendOneShape(p, s.queues[x], m, clocks, |s.ledger|); }
      case DeleteMessage(x, g) => assert HandleFault(p, s.queues, x, g).None? ==> x in s.queues by { FaultFacts(p, s.queues, x, g); }
      case _ =>
    }
  }

  lemma FaultFacts(p: Params, qs: Queues, id: string, h: Handle)
    ensures HandleFault(p, qs, id, h).None? ==> id in qs && h in qs[id].inFlight
  {
  }

  lemma SweptFlight(s: Store, x: string, order: seq<Handle>, now: nat, id: string, h: Handle)
    requires Resting(s) && x in s.queues && ExpiryOrder(s.queues[x], order, now)
    requires id in s.queues && h in s.queues[id].inFlight
    ensures var s' := LandAllS(s, x, order, now);
            id in s'.queues && (h in s'.queues[id].inFlight <==> !(x == id && s.queues[id].inFlight[h].expiresAt <= now))
  {
    hide QueueOk, QueuesOk, LimboOk, AllFound, Census, LandAllS;
    LandAllEffect(s, x, order, now);
    LandAllFlights(s.queues[x], order, now);
  }

  /** A launch brings no handle with a nonce that is not among its own. */
  lemma {:induction false} LaunchNonces(p: Params, m: map<Handle, InFlight>, id: string, kept: seq<Stored>,
                                        nonces: seq<nat>, expiresAt: nat, h: Handle)
    requires |kept| <= |nonces| && h !in m && h.Decoded? && h.nonce !in nonces
    ensures h !in Launch(p, m, id, kept, nonces, expiresAt)
  {
    if kept != [] {
      LaunchNonces(p, m, id, kept[1..], nonces, expiresAt, h);
      assert nonces[|kept| - 1] in nonces;
    }
  }

  lemma ReceivedExpired(p: Params, qs: Queues, c: Call, h: Handle)
    requires c.id in qs && ExpiryOrder(qs[c.id], c.order, c.clocks.now) && Landable(qs[c.id], c.order)
    requires RECEIVE_LIMIT <= |c.nonces| && RECEIVE_LIMIT <= |c.clocks.stamps|
    requires h in qs[c.id].inFlight && h.Decoded? && h.nonce !in c.nonces && qs[c.id].inFlight[h].expiresAt <= c.clocks.now
    ensures var qs' := Receive(p, qs, c.id, c.request, c.clocks, c.order, c.nonces).queues;
            c.id in qs' && h !in qs'[c.id].inFlight
  {
    hide LandAll, Pick, Launch, Kept, Doomed, DivertAll, Reversed, Answer;
    var q := qs[c.id];
    var served := Served(p, q, c.id, c.request, c.clocks, c.order, c.nonces);
    DivertAllFlights(qs[c.id := served], TargetOf(q.config), MovedBy(q, c.request, c.clocks, c.order), c.clocks.stamps, c.clocks.now);
    LandAllFlights(q.(lastAccess := c.clocks.access), c.order, c.clocks.now);
    LaunchNonces(p, Landed(q, c.clocks, c.order).inFlight, c.id, ReturnedBy(q, c.request, c.clocks, c.order), c.nonces,
                 c.clocks.now + Timeout(q.config, c.request) * SECOND, h);
  }

  lemma ReceivedFlight(p: Params, s: Store, c: Call, id: string, h: Handle)
    requires Callable(s, c) && ExpiryOrder(s.queues[c.id], c.order, c.clocks.now)
    requires id in s.queues && h in s.queues[id].inFlight && h.Decoded? && h.nonce in s.nonces
    ensures var s' := ReceiveS(p, s, c);
            id in s'.queues && (h in s'.queues[id].inFlight <==> !(c.id == id && s.queues[id].inFlight[h].expiresAt <= c.clocks.now))
  {
    hide Inv, ReceiveS, Receive, Deliveries, Selected, Returned, Moved, ReceivedAll;
    ReceiveEffect(p, s, c);
    assert h.nonce !in c.nonces;
    if c.id == id && s.queues[id].inFlight[h].expiresAt <= c.clocks.now {
      ReceivedExpired(p, s.queues, c, h);
    } else {
      ReceiveFlights(p, s.queues, c, id, h);
    }
  }

  /** A handle in flight stays in flight until one of those events, and is spent from then on. */
  lemma FlightEndsOrStays(p: Params, s: Store, e: Event, id: string, h: Handle)
    requires Enabled(s, e) && id in s.queues && h in s.queues[id].inFlight
    ensures var s' := Apply(p, s, e);
            if EndsFlight(p, s, e, id, h) then Spent(s', h) else id in s'.queues && h in s'.queues[id].inFlight
  {
    hide Inv, ReceiveS, LandAllS, Evolves, HandleFault;
    StepKeeps(p, s, e);
    FlightFacts(s, id, h);
    if e.ReceiveMessages? {
      if e.call.id in s.queues {
        ReceiveReady(s, e.call, e.end);
        ReceivedFlight(p, s, e.call, id, h);
      }
    } else if e.SweepQueue? {
      if e.id in s.queues {
        SweptFlight(s, e.id, e.order, e.now, id, h);
      }
    } else {
      FlightSurvives(p, s, e, id, h);
    }
    hide Apply, EndsFlight;
    GoneIsSpent(s, Apply(p, s, e), id, h);
  }

  lemma FlightFacts(s: Store, id: string, h: Handle)
    requires Inv(s) && id in s.queues && h in s.queues[id].inFlight
    ensures h.Decoded? && h.queueId == id && h.nonce in s.nonces
  {
    hide QueueOk, LimboOk, AllFound, Census;
    FlyingEntry(s, id, h);
  }

  lemma GoneIsSpent(s: Store, s': Store, id: string, h: Handle)
    requires Resting(s) && Resting(s') && Evolves(s, s') && id in s.queues && h in s.queues[id].inFlight
    ensures (id in s'.queues && h in s'.queues[id].inFlight) || Spent(s', h)
  {
    hide Inv;
    FlightFacts(s, id, h);
    if x :| x in s'.queues && h in s'.queues[x].inFlight {
      FlightFacts(s', x, h);
    }
  }

  /** Changing the visibility of a handle in flight decides alone when that handle expires, counted
      from the change, and only in the queue that issued it: every other handle of every queue
      expires when it would have, and nothing is moved or delivered. */
  lemma ChangeMovesItsOwn(p: Params, s: Store, id: string, h: Handle, timeout: u32, now: nat)
    requires Enabled(s, ChangeVisibility(id, h, timeout, now))
    ensures var s' := Apply(p, s, ChangeVisibility(id, h, timeout, now));
            && s'.ledger == s.ledger && s'.deliveries == s.deliveries && s'.queues.Keys == s.queues.Keys
            && (forall x :: x in s.queues ==> s'.queues[x].available == s.queues[x].available)
            && if HandleFault(p, s.queues, id, h).None?
               then
                 && h.Decoded? && h.queueId == id
                 && (exists t :: 0 <= t < |s.ledger| && s.ledger[t].place == Flying(id, h))
                 && forall x, g, u :: x in s.queues ==>
                      (g in Expired(s'.queues[x], u) <==>
                         if g == h then x == id && now + timeout * SECOND <= u else g in Expired(s.queues[x], u))
               else s'.queues == s.queues
  {
    hide QueueOk, QueuesOk, LimboOk, AllFound, Census;
    if HandleFault(p, s.queues, id, h).None? {
      FlyingEntry(s, id, h);
      assert Found(s, s.queues[id].inFlight[h].ticket);
      forall x | x in s.queues && h in s.queues[x].inFlight
        ensures x == id
      {
        FlyingEntry(s, x, h);
      }
    }
  }

  /** A handle deletes exactly the copy it was issued for, and only from the queue that issued
      it; in every other case nothing at all changes. */
  lemma DeleteTakesItsOwn(p: Params, s: Store, id: string, h: Handle)
    requires Enabled(s, DeleteMessage(id, h))
    ensures var s' := Apply(p, s, DeleteMessage(id, h));
            if HandleFault(p, s.queues, id, h).None?
            then && h.queueId == id && Spent(s', h)
                 && exists t :: 0 <= t < |s.ledger| && s.ledger[t].place == Flying(id, h)
                      && s'.ledger == s.ledger[t := s.ledger[t].(place := Gone(Deleted))]
            else s' == s
  {
    hide QueueOk, QueuesOk, LimboOk, AllFound, Census;
    if HandleFault(p, s.queues, id, h).None? {
      FlyingEntry(s, id, h);
      var s' := Apply(p, s, DeleteMessage(id, h));
      forall x | x in s'.queues
        ensures h !in s'.queues[x].inFlight
      {
        if x != id && h in s.queues[x].inFlight {
          FlyingEntry(s, x, h);
        }
      }
    }
  }
}

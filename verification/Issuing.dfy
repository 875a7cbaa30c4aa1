/** Where the handles come from: every handle that delete or change-visibility accepts was handed
    out by a receive from that very queue, with that very message. */
module Issuing {
  import opened Types
  import opened Sequences
  import opened QueueModel
  import opened History
  import opened Receiving
  import opened Runs
  import opened Ordering
  import opened Visibility

  /** Some receive from the queue returned copy t with the handle. */
  ghost predicate Issued(deliveries: seq<Delivery>, id: string, h: Handle, t: nat) {
    exists i :: 0 <= i < |deliveries| && deliveries[i].queue == id && deliveries[i].handle == h && deliveries[i].ticket == t
  }

  /** The handle carries a correct signature over the name of the queue. */
  predicate Genuine(p: Params, id: string, h: Handle) {
    ParseHandle(p, h).Some? && ParseHandle(p, h).value.queueId == id
  }

  ghost predicate AllIssued(p: Params, s: Store) {
    forall id, h :: id in s.queues && h in s.queues[id].inFlight ==>
      Genuine(p, id, h) && Issued(s.deliveries, id, h, s.queues[id].inFlight[h].ticket)
  }

  /** Nothing is in flight that was not before. */
  ghost predicate OldFlights(qs: Queues, qs': Queues) {
    forall id, h :: id in qs' && h in qs'[id].inFlight ==>
      id in qs && h in qs[id].inFlight && qs'[id].inFlight[h].ticket == qs[id].inFlight[h].ticket
  }

  lemma QuietFlights(p: Params, s: Store, e: Event)
    requires Enabled(s, e) && !e.ReceiveMessages?
    ensures OldFlights(s.queues, Apply(p, s, e).queues)
  {
    hide Inv, DrainS, LandAllS, ParseHandle, SendOne;
    match e {
      case RemoveQueue(x) => if x in s.queues { DrainEffect(s, x, QueueRemoved); }
      case PurgeQueue(x) => if x in s.queues { DrainEffect(s, x, Purged); }
      case SweepQueue(x, order, now) =>
        if x in s.queues {
          SweptFlights(s, x, order, now);
        }
      case Push(x, m, clocks) => if x in s.queues { SendOneShape(p, s.queues[x], m, clocks, |s.ledger|); }
      case _ =>
    }
  }

  lemma SweptFlights(s: Store, x: string, order: seq<Handle>, now: nat)
    requires Inv(s) && x in s.queues && ExpiryOrder(s.queues[x], order, now)
    ensures OldFlights(s.queues, LandAllS(s, x, order, now).queues)
  {
    hide Inv, LandAllS, LandedAll;
    LandAllEffect(s, x, order, now);
    LandAllFlights(s.queues[x], order, now);
  }

  // ---------------------------------------------------------------- a receive issues what it launches

  lemma TicketedIsGenuine(p: Params, id: string, m: Message, nonce: nat)
    ensures Genuine(p, id, Ticketed(p, id, m, nonce))
  {
  }

  lemma {:induction false} LaunchIssues(p: Params, m: map<Handle, InFlight>, ledger: seq<Record>, id: string,
                                        kept: seq<Stored>, nonces: seq<nat>, expiresAt: nat, h: Handle)
    requires |kept| <= |nonces| && h in Launch(p, m, id, kept, nonces, expiresAt)
    ensures var f := Launch(p, m, id, kept, nonces, expiresAt)[h];
            || (h in m && f == m[h])
            || (Genuine(p, id, h) && Issued(Deliveries(p, ledger, id, kept, nonces), id, h, f.ticket))
  {
    hide Genuine, ParseHandle;
    if kept != [] {
      var first := Ticketed(p, id, kept[0].message, nonces[|kept| - 1]);
      var d, rest := Deliveries(p, ledger, id, kept, nonces), Deliveries(p, ledger, id, kept[1..], nonces);
      if h == first {
        TicketedIsGenuine(p, id, kept[0].message, nonces[|kept| - 1]);
        assert d[0].queue == id && d[0].handle == h && d[0].ticket == kept[0].ticket;
      } else {
        LaunchIssues(p, m, ledger, id, kept[1..], nonces, expiresAt, h);
        assert forall i :: 0 <= i < |rest| ==> d[i + 1] == rest[i];
      }
    }
  }

  /** What is in flight after a receive was so before, or was launched by it. */
  lemma ReceivedFlights(p: Params, qs: Queues, c: Call, ledger: seq<Record>, id: string, h: Handle)
    requires c.id in qs && Landable(qs[c.id], c.order)
    requires RECEIVE_LIMIT <= |c.nonces| && RECEIVE_LIMIT <= |c.clocks.stamps|
    requires var qs' := Receive(p, qs, c.id, c.request, c.clocks, c.order, c.nonces).queues;
             id in qs' && h in qs'[id].inFlight
    ensures var f := Receive(p, qs, c.id, c.request, c.clocks, c.order, c.nonces).queues[id].inFlight[h];
            || (id in qs && h in qs[id].inFlight && f.ticket == qs[id].inFlight[h].ticket)
            || (id == c.id && Genuine(p, id, h)
                && Issued(Deliveries(p, ledger, id, ReturnedBy(qs[id], c.request, c.clocks, c.order), c.nonces), id, h, f.ticket))
  {
    hide LandAll, Pick, Launch, Kept, Doomed, DivertAll, Reversed, Answer, Genuine, Deliveries, Issued;
    var q := qs[c.id];
    var kept := ReturnedBy(q, c.request, c.clocks, c.order);
    var expiresAt := c.clocks.now + Timeout(q.config, c.request) * SECOND;
    var served := Served(p, q, c.id, c.request, c.clocks, c.order, c.nonces);
    DivertAllFlights(qs[c.id := served], TargetOf(q.config), MovedBy(q, c.request, c.clocks, c.order), c.clocks.stamps, c.clocks.now);
    LandAllFlights(q.(lastAccess := c.clocks.access), c.order, c.clocks.now);
    if id == c.id {
      LaunchIssues(p, Landed(q, c.clocks, c.order).inFlight, ledger, id, kept, c.nonces, expiresAt, h);
    }
  }

  lemma IssuedLater(d: seq<Delivery>, more: seq<Delivery>, id: string, h: Handle, t: nat)
    requires Issued(d, id, h, t) || Issued(more, id, h, t)
    ensures Issued(d + more, id, h, t)
  {
    var all := d + more;
    if i :| 0 <= i < |d| && d[i].queue == id && d[i].handle == h && d[i].ticket == t {
      assert all[i] == d[i];
    } else {
      var i :| 0 <= i < |more| && more[i].queue == id && more[i].handle == h && more[i].ticket == t;
      assert all[|d| + i] == more[i];
    }
  }

  lemma ReceiveIssues(p: Params, s: Store, c: Call)
    requires Callable(s, c) && AllIssued(p, s)
    ensures AllIssued(p, ReceiveS(p, s, c))
  {
    hide Inv, Receive, ReceiveS, Supplied, Unused, Landable, Deliveries, Issued, Genuine, Returned, Selected;
    SuppliedEnough(c);
    CallLandable(s, c);
    ReceiveFields(p, s, c);
    var s' := ReceiveS(p, s, c);
    var more := Deliveries(p, Selected(s, c).ledger, c.id, Returned(s, c), c.nonces);
    forall id, h | id in s'.queues && h in s'.queues[id].inFlight
      ensures Genuine(p, id, h) && Issued(s'.deliveries, id, h, s'.queues[id].inFlight[h].ticket)
    {
      ReceivedFlights(p, s.queues, c, Selected(s, c).ledger, id, h);
      IssuedLater(s.deliveries, more, id, h, s'.queues[id].inFlight[h].ticket);
    }
  }

  lemma SuppliedEnough(c: Call)
    requires Supplied(c.nonces, c.clocks)
    ensures RECEIVE_LIMIT <= |c.nonces| && RECEIVE_LIMIT <= |c.clocks.stamps|
  {
  }

  lemma CallLandable(s: Store, c: Call)
    requires Callable(s, c)
    ensures Landable(s.queues[c.id], c.order)
    ensures Returned(s, c) == ReturnedBy(s.queues[c.id], c.request, c.clocks, c.order)
  {
  }

  // ---------------------------------------------------------------- over runs

  lemma StepIssues(p: Params, s: Store, e: Event)
    requires Enabled(s, e) && AllIssued(p, s)
    ensures AllIssued(p, Apply(p, s, e))
  {
    if e.ReceiveMessages? {
      hide Inv, Genuine, Issued, ReceiveS;
      if e.call.id in s.queues {
        ReceiveReady(s, e.call, e.end);
        ReceiveIssues(p, s, e.call);
      }
    } else {
      hide Apply, Enabled, Genuine, Issued;
      QuietFlights(p, s, e);
      OnlyReceivesDeliver(p, s, e);
    }
  }

  lemma {:induction false} RunIssues(p: Params, s: Store, es: seq<Event>)
    requires Resting(s) && Run(p, s, es) && AllIssued(p, s)
    ensures AllIssued(p, After(p, s, es))
    decreases |es|
  {
    hide Resting, AllIssued, Apply;
    if es != [] {
      StepKeeps(p, s, es[0]);
      StepIssues(p, s, es[0]);
      RunIssues(p, Apply(p, s, es[0]), es[1..]);
    }
  }

  lemma StartIssues(p: Params)
    ensures AllIssued(p, EMPTY)
  {
  }

  /** In every run, delete and change-visibility accept a handle for a queue exactly when it is in
      flight there, and then an earlier receive from that queue returned the message with it. */
  lemma AcceptedMeansIssued(p: Params, es: seq<Event>, id: string, h: Handle)
    requires Run(p, EMPTY, es)
    ensures var s := After(p, EMPTY, es);
            && (HandleFault(p, s.queues, id, h).None? <==> id in s.queues && h in s.queues[id].inFlight)
            && (HandleFault(p, s.queues, id, h).None? ==>
                  var t := s.queues[id].inFlight[h].ticket;
                  Issued(s.deliveries, id, h, t) && t < |s.ledger| && s.ledger[t].place == Flying(id, h))
  {
    hide Run, After, Issued, Inv, ParseHandle;
    StartRests();
    StartIssues(p);
    RunKeeps(p, EMPTY, es);
    RunIssues(p, EMPTY, es);
    var s := After(p, EMPTY, es);
    if id in s.queues && h in s.queues[id].inFlight {
      FlightRecord(s, id, h);
      assert Genuine(p, id, h);
    }
  }

  lemma FlightRecord(s: Store, id: string, h: Handle)
    requires Inv(s) && id in s.queues && h in s.queues[id].inFlight
    ensures var t := s.queues[id].inFlight[h].ticket; t < |s.ledger| && s.ledger[t].place == Flying(id, h)
  {
    hide QueueOk, LimboOk, AllFound, Census;
    FlyingEntry(s, id, h);
  }
}

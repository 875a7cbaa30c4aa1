/** Runs of the in-memory backend. Each event is what one operation does while it holds the
    lock. A send is three of them: the capacity check (Capacity.dfy), perhaps an eviction, and
    one push for every message; other operations may come in between. */
module Runs {
  import opened Types
  import opened Sequences
  import opened QueueModel
  import opened History
  import opened Receiving

  datatype Event =
    | Create(config: QueueConfig, now: nat)
    | Update(config: QueueConfig)
    | RemoveQueue(id: string)
    | Push(id: string, message: Message, clocks: Reads)
    | Evict(id: string)
    | ReceiveMessages(call: Call, end: nat)
    | SweepQueue(id: string, order: seq<Handle>, now: nat)
    | DeleteMessage(id: string, handle: Handle)
    | ChangeVisibility(id: string, handle: Handle, timeout: u32, now: nat)
    | PurgeQueue(id: string)

  /** Between two operations nothing is in anybody's hands. */
  ghost predicate Resting(s: Store) {
    Inv(s) && s.limbo == {} && s.batch == [] && s.accepts.Keys == s.queues.Keys
  }

  ghost predicate OrderedReceive(r: ReceiveReads, from: nat, end: nat) {
    && from <= r.access <= r.now <= end
    && forall i :: 0 <= i < |r.stamps| ==> r.now <= r.stamps[i] <= end
  }

  /** The event may happen next: its clock readings are not behind the clock, its nonces are
      fresh, and its expiry list is a list of exactly the expired handles. */
  ghost predicate Enabled(s: Store, e: Event) {
    && Resting(s)
    && match e
       case Create(_, now) => s.clock <= now
       case Push(_, _, clocks) => OrderedReads(clocks, s.clock)
       case Evict(id) => id in s.queues && s.queues[id].available != []
       case ReceiveMessages(c, end) =>
         && OrderedReceive(c.clocks, s.clock, end)
         && Supplied(c.nonces, c.clocks) && Unused(s, c.nonces, |c.nonces|)
         && (c.id in s.queues ==> ExpiryOrder(s.queues[c.id], c.order, c.clocks.now))
       case SweepQueue(id, order, now) =>
         s.clock <= now && (id in s.queues ==> ExpiryOrder(s.queues[id], order, now))
       case ChangeVisibility(_, _, _, now) => s.clock <= now
       case _ => true
  }

  ghost function PushS(p: Params, s: Store, id: string, m: Message, r: Reads): Store
    requires Resting(s) && id in s.queues
  {
    var q := s.queues[id];
    var result := SendOne(p, q, m, r, |s.ledger|);
    var sent := if result.outcome.Sent? then Enter(s, id, result.queue, result.outcome.message)
                else s.(queues := s.queues[id := result.queue]);
    if result.outcome.Sent? && q.config.queueType.SqsFifo?
    then sent.(accepts := s.accepts[id := s.accepts[id] + [Accept(DedupId(p, q.config, m).value, r.accept)]])
    else sent
  }

  ghost function Apply(p: Params, s: Store, e: Event): Store
    requires Enabled(s, e)
  {
    hide Inv;
    match e
    case Create(config, now) =>
      if config.id in s.queues then s.(clock := now)
      else s.(queues := s.queues[config.id := NewQueue(config, now)],
              accepts := s.accepts[config.id := []], clock := now)
    case Update(config) =>
      if config.id in s.queues
      then s.(queues := s.queues[config.id := s.queues[config.id].(config := config)]) else s
    case RemoveQueue(id) =>
      if id in s.queues
      then
        var drained := DrainS(s, id, QueueRemoved);
        drained.(queues := drained.queues - {id}, accepts := drained.accepts - {id})
      else s
    case Push(id, m, clocks) =>
      (if id in s.queues then PushS(p, s, id, m, clocks) else s).(clock := clocks.stamp)
    case Evict(id) => DiscardFront(s, id, Evicted)
    case ReceiveMessages(c, end) =>
      (if c.id in s.queues then ReceiveS(p, s, c) else s).(clock := end)
    case SweepQueue(id, order, now) =>
      (if id in s.queues then LandAllS(s, id, order, now) else s).(clock := now)
    case DeleteMessage(id, h) =>
      if HandleFault(p, s.queues, id, h).None? then DiscardFlying(s, id, h, Deleted) else s
    case ChangeVisibility(id, h, timeout, now) =>
      s.(queues := Change(p, s.queues, id, h, timeout, now), clock := now)
    case PurgeQueue(id) => if id in s.queues then DrainS(s, id, Purged) else s
  }

  lemma ReceiveReady(s: Store, c: Call, end: nat)
    requires Enabled(s, ReceiveMessages(c, end)) && c.id in s.queues
    ensures Callable(s, c)
  {
  }

  // ---------------------------------------------------------------- what never changes back

  /** What any stretch of a run leaves as it was: messages as stored, what is gone, used
      nonces and past deliveries; and a handle in flight is either old or has a new nonce. */
  ghost predicate Evolves(s: Store, s': Store) {
    && |s.ledger| <= |s'.ledger|
    && (forall t :: 0 <= t < |s.ledger| ==>
          s'.ledger[t].message == s.ledger[t].message && s'.ledger[t].home == s.ledger[t].home)
    && (forall t :: 0 <= t < |s.ledger| && s.ledger[t].place.Gone? ==> s'.ledger[t].place == s.ledger[t].place)
    && (forall t :: 0 <= t < |s'.ledger| && s'.ledger[t].place.Flying? ==>
          || (t < |s.ledger| && s.ledger[t].place == s'.ledger[t].place)
          || (s'.ledger[t].place.handle.Decoded? && s'.ledger[t].place.handle.nonce !in s.nonces))
    && s.nonces <= s'.nonces
    && s.deliveries <= s'.deliveries
    && s.clock <= s'.clock
  }

  lemma EvolvesTransitive(a: Store, b: Store, c: Store)
    requires Evolves(a, b) && Evolves(b, c)
    ensures Evolves(a, c)
  {
    forall t | 0 <= t < |c.ledger| && c.ledger[t].place.Flying?
      ensures || (t < |a.ledger| && a.ledger[t].place == c.ledger[t].place)
              || (c.ledger[t].place.handle.Decoded? && c.ledger[t].place.handle.nonce !in a.nonces)
    {
      if t < |b.ledger| && b.ledger[t].place == c.ledger[t].place {
        assert b.ledger[t].place.Flying?;
      }
    }
  }

  // ---------------------------------------------------------------- each event

  lemma SendOneShape(p: Params, q: Queue, m: Message, r: Reads, ticket: nat)
    ensures var result := SendOne(p, q, m, r, ticket);
            if result.outcome.Sent?
            then && result.queue.available == q.available
                      + [Stored(ticket, result.outcome.message, r.stamp + Delay(q.config, m) * SECOND)]
                 && result.queue.inFlight == q.inFlight
                 && result.outcome.message == m.(sequence := result.outcome.message.sequence)
            else SameHoldings(q, result.queue)
    ensures SendOne(p, q, m, r, ticket).queue.config == q.config
  {
  }

  lemma PushSteps(p: Params, s: Store, id: string, m: Message, r: Reads)
    requires Resting(s) && id in s.queues && s.clock <= r.stamp
    ensures var s' := PushS(p, s, id, m, r).(clock := r.stamp);
            Resting(s') && Evolves(s, s')
  {
    hide QueueOk, QueuesOk, LimboOk, AllFound, SendOne;
    var q := s.queues[id];
    var result := SendOne(p, q, m, r, |s.ledger|);
    SendOneShape(p, q, m, r, |s.ledger|);
    if result.outcome.Sent? {
      var e := Stored(|s.ledger|, result.outcome.message, r.stamp + Delay(q.config, m) * SECOND);
      EnterKeeps(s, id, result.queue, e);
      SideFields(Enter(s, id, result.queue, result.outcome.message), PushS(p, s, id, m, r).(clock := r.stamp));
    } else {
      RefitKeeps(s, id, result.queue);
      SideFields(s.(queues := s.queues[id := result.queue]), PushS(p, s, id, m, r).(clock := r.stamp));
    }
  }

  /** The invariant reads neither the clock nor the send and delivery logs. */
  lemma SideFields(s: Store, s': Store)
    requires Inv(s)
    requires s'.queues == s.queues && s'.ledger == s.ledger && s'.limbo == s.limbo && s'.nonces == s.nonces
    ensures Inv(s')
  {
    hide QueueOk, LimboOk;
    FoundSide(s, s');
  }

  lemma FoundSide(s: Store, s': Store)
    requires AllFound(s)
    requires s'.queues == s.queues && s'.ledger == s.ledger && s'.limbo == s.limbo
    ensures AllFound(s')
  {
    forall t: nat | t < |s'.ledger|
      ensures Found(s', t)
    {
      assert Found(s, t);
    }
  }

  lemma CreateSteps(s: Store, config: QueueConfig, now: nat)
    requires Resting(s) && config.id !in s.queues && s.clock <= now
    ensures var s' := s.(queues := s.queues[config.id := NewQueue(config, now)],
                         accepts := s.accepts[config.id := []], clock := now);
            Resting(s') && Evolves(s, s')
  {
    hide QueueOk, QueuesOk, LimboOk, AllFound;
    var s1 := s.(queues := s.queues[config.id := NewQueue(config, now)]);
    CreateKeeps(s, config.id, NewQueue(config, now));
    SideFields(s1, s1.(accepts := s.accepts[config.id := []], clock := now));
  }

  lemma RemoveSteps(s: Store, id: string)
    requires Resting(s) && id in s.queues
    ensures var drained := DrainS(s, id, QueueRemoved);
            var s' := drained.(queues := drained.queues - {id}, accepts := drained.accepts - {id});
            Resting(s') && Evolves(s, s')
  {
    hide QueueOk, QueuesOk, LimboOk, AllFound, Census, DrainedAll, Evolves, DrainS;
    DrainEffect(s, id, QueueRemoved);
    var drained := DrainS(s, id, QueueRemoved);
    RemoveKeeps(drained, id);
    var s1 := drained.(queues := drained.queues - {id});
    var s2 := s1.(accepts := drained.accepts - {id});
    SideFields(s1, s2);
    DrainEvolves(s, drained, s2, id, QueueRemoved);
  }

  lemma DrainEvolves(s: Store, drained: Store, s': Store, id: string, fate: Fate)
    requires DrainedAll(s, drained, id, fate) && s'.ledger == drained.ledger
    requires s.nonces <= s'.nonces && s.deliveries <= s'.deliveries && s.clock <= s'.clock
    ensures Evolves(s, s')
  {
  }

  lemma PurgeSteps(s: Store, id: string, fate: Fate)
    requires Resting(s) && id in s.queues
    ensures var s' := DrainS(s, id, fate);
            Resting(s') && Evolves(s, s')
  {
    hide QueueOk, QueuesOk, LimboOk, AllFound, Census, DrainedAll, Evolves, DrainS;
    DrainEffect(s, id, fate);
    DrainEvolves(s, DrainS(s, id, fate), DrainS(s, id, fate), id, fate);
  }

  lemma DiscardSteps(s: Store, id: string)
    requires Resting(s) && id in s.queues
    ensures s.queues[id].available != [] ==>
              Resting(DiscardFront(s, id, Evicted)) && Evolves(s, DiscardFront(s, id, Evicted))
    ensures forall h :: h in s.queues[id].inFlight ==>
              Resting(DiscardFlying(s, id, h, Deleted)) && Evolves(s, DiscardFlying(s, id, h, Deleted))
  {
    hide QueueOk, QueuesOk, LimboOk, AllFound, Census;
    if s.queues[id].available != [] {
      DiscardFrontKeeps(s, id, Evicted);
      AvailableEntry(s, id, 0);
    }
    forall h | h in s.queues[id].inFlight
      ensures Resting(DiscardFlying(s, id, h, Deleted)) && Evolves(s, DiscardFlying(s, id, h, Deleted))
    {
      DiscardFlyingKeeps(s, id, h, Deleted);
      FlyingEntry(s, id, h);
    }
  }

  lemma SweepSteps(s: Store, id: string, order: seq<Handle>, now: nat)
    requires Resting(s) && id in s.queues && Landable(s.queues[id], order) && s.clock <= now
    ensures var s' := LandAllS(s, id, order, now).(clock := now);
            Resting(s') && Evolves(s, s')
  {
    hide QueueOk, QueuesOk, LimboOk, AllFound, Census;
    LandAllEffect(s, id, order, now);
    var s1 := LandAllS(s, id, order, now);
    hide LandAllS;
    SideFields(s1, s1.(clock := now));
    forall t | 0 <= t < |s.ledger|
      ensures s1.ledger[t].message == s.ledger[t].message && s1.ledger[t].home == s.ledger[t].home
      ensures s1.ledger[t].place == s.ledger[t].place || (s.ledger[t].place.Flying? && s1.ledger[t].place.Available?)
    {
      assert LandedRecord(s.ledger[t], s1.ledger[t], id, order);
    }
  }

  lemma {:induction false} DivertAllKeys(qs: Queues, target: string, moves: seq<Stored>, stamps: seq<nat>, now: nat)
    requires |moves| <= |stamps|
    ensures DivertAll(qs, target, moves, stamps, now).Keys == qs.Keys
    decreases |moves|
  {
    if moves != [] {
      DivertAllKeys(Divert(qs, target, moves[0], stamps[0], now), target, moves[1..], stamps[1..], now);
    }
  }

  lemma ReceiveKeys(p: Params, s: Store, c: Call)
    requires Callable(s, c)
    ensures Receive(p, s.queues, c.id, c.request, c.clocks, c.order, c.nonces).queues.Keys == s.queues.Keys
  {
    hide Inv, LandAll, Pick, Launch, Kept, Doomed, DivertAll, Reversed, Answer;
    var q := Landed(s.queues[c.id], c.clocks, c.order);
    var config := s.queues[c.id].config;
    var picked := Selection(s.queues[c.id], c.request, c.clocks, c.order);
    var served := q.(available := picked.rest,
                     inFlight := Launch(p, q.inFlight, c.id, Kept(config, picked.taken), c.nonces,
                                        c.clocks.now + Timeout(config, c.request) * SECOND));
    DivertAllKeys(s.queues[c.id := served], TargetOf(config), Reversed(Doomed(config, picked.taken)),
                  c.clocks.stamps, c.clocks.now);
  }

  lemma ReceivedPlaces(s: Store, s': Store, c: Call, t: nat)
    requires Callable(s, c) && ReceivedAll(s, s', c) && t < |s.ledger|
    ensures s'.ledger[t].message == s.ledger[t].message && s'.ledger[t].home == s.ledger[t].home
    ensures s.ledger[t].place.Gone? ==> s'.ledger[t].place == s.ledger[t].place
    ensures s'.ledger[t].place.Flying? ==>
              || s.ledger[t].place == s'.ledger[t].place
              || (s'.ledger[t].place.handle.Decoded? && s'.ledger[t].place.handle.nonce !in s.nonces)
  {
    hide Callable, Returned, Moved;
    assert ReceivedRecord(s, c, t, s'.ledger[t]);
  }

  lemma ReceiveSteps(p: Params, s: Store, c: Call, end: nat)
    requires Resting(s) && Callable(s, c) && s.clock <= end
    ensures var s' := ReceiveS(p, s, c).(clock := end);
            Resting(s') && Evolves(s, s')
  {
    ReceiveEffect(p, s, c);
    ReceiveKeys(p, s, c);
    hide QueueOk, QueuesOk, LimboOk, AllFound, Census, ReceiveS, Receive, Deliveries, ReceivedAll, Evolves,
         Landable, Supplied, Unused, Returned;
    var s1 := ReceiveS(p, s, c);
    SideFields(s1, s1.(clock := end));
    ReceiveEvolves(s, s1.(clock := end), c);
  }

  lemma ReceiveEvolves(s: Store, s': Store, c: Call)
    requires Callable(s, c) && ReceivedAll(s, s', c)
    requires s.nonces <= s'.nonces && s.deliveries <= s'.deliveries && s.clock <= s'.clock
    ensures Evolves(s, s')
  {
    ReceivedLength(s, s', c);
    hide Callable, ReceivedAll;
    forall t: nat | t < |s.ledger|
      ensures s'.ledger[t].message == s.ledger[t].message && s'.ledger[t].home == s.ledger[t].home
      ensures s.ledger[t].place.Gone? ==> s'.ledger[t].place == s.ledger[t].place
      ensures s'.ledger[t].place.Flying? ==>
                || s.ledger[t].place == s'.ledger[t].place
                || (s'.ledger[t].place.handle.Decoded? && s'.ledger[t].place.handle.nonce !in s.nonces)
    {
      ReceivedPlaces(s, s', c, t);
    }
  }

  lemma ReceivedLength(s: Store, s': Store, c: Call)
    requires Callable(s, c) && ReceivedAll(s, s', c)
    ensures |s'.ledger| == |s.ledger|
  {
  }

  /** One step of a run keeps the invariant and changes nothing back. */
  lemma StepKeeps(p: Params, s: Store, e: Event)
    requires Enabled(s, e)
    ensures Resting(Apply(p, s, e)) && Evolves(s, Apply(p, s, e))
  {
    hide QueueOk, QueuesOk, LimboOk, AllFound, Census, Evolves, DrainS, LandAllS, ReceiveS, PushS,
         DiscardFront, DiscardFlying, ParseHandle;
    assert Evolves(s, s) by { EvolvesSame(s, s); }
    match e
    case Create(config, now) =>
      if config.id in s.queues {
        SideFields(s, s.(clock := now));
        EvolvesSame(s, s.(clock := now));
      } else {
        CreateSteps(s, config, now);
      }
    case Update(config) =>
      if config.id in s.queues {
        RefitKeeps(s, config.id, s.queues[config.id].(config := config));
        EvolvesSame(s, Apply(p, s, e));
      }
    case RemoveQueue(id) =>
      if id in s.queues { RemoveSteps(s, id); }
    case Push(id, m, clocks) =>
      if id in s.queues {
        PushSteps(p, s, id, m, clocks);
      } else {
        SideFields(s, s.(clock := clocks.stamp));
        EvolvesSame(s, s.(clock := clocks.stamp));
      }
    case Evict(id) => DiscardSteps(s, id);
    case ReceiveMessages(c, end) =>
      if c.id in s.queues {
        ReceiveSteps(p, s, c, end);
      } else {
        SideFields(s, s.(clock := end));
        EvolvesSame(s, s.(clock := end));
      }
    case SweepQueue(id, order, now) =>
      if id in s.queues {
        SweepSteps(s, id, order, now);
      } else {
        SideFields(s, s.(clock := now));
        EvolvesSame(s, s.(clock := now));
      }
    case DeleteMessage(id, h) =>
      if HandleFault(p, s.queues, id, h).None? { DiscardSteps(s, id); }
    case ChangeVisibility(id, h, timeout, now) =>
      ChangeSteps(p, s, id, h, timeout, now);
    case PurgeQueue(id) =>
      if id in s.queues { PurgeSteps(s, id, Purged); }
  }

  lemma EvolvesSame(s: Store, s': Store)
    requires s'.ledger == s.ledger && s'.nonces == s.nonces && s'.deliveries == s.deliveries
    requires s.clock <= s'.clock
    ensures Evolves(s, s')
  {
  }

  lemma ChangeSteps(p: Params, s: Store, id: string, h: Handle, timeout: u32, now: nat)
    requires Resting(s) && s.clock <= now
    ensures var s' := s.(queues := Change(p, s.queues, id, h, timeout, now), clock := now);
            Resting(s') && Evolves(s, s')
  {
    hide QueueOk, QueuesOk, LimboOk, AllFound, Census, Evolves;
    var s' := s.(queues := Change(p, s.queues, id, h, timeout, now), clock := now);
    if HandleFault(p, s.queues, id, h).None? {
      RefitKeeps(s, id, s'.queues[id]);
      SideFields(s.(queues := s'.queues), s');
    } else {
      SideFields(s, s');
    }
    EvolvesSame(s, s');
  }

  // ---------------------------------------------------------------- runs

  ghost predicate Run(p: Params, s: Store, es: seq<Event>)
    decreases |es|
  {
    es == [] || (Enabled(s, es[0]) && Run(p, Apply(p, s, es[0]), es[1..]))
  }

  ghost function After(p: Params, s: Store, es: seq<Event>): Store
    requires Run(p, s, es)
    decreases |es|
  {
    if es == [] then s else After(p, Apply(p, s, es[0]), es[1..])
  }

  lemma StartRests()
    ensures Resting(EMPTY)
  {
  }

  /** Every state a run reaches satisfies the invariant, and the past stays as it was. */
  lemma {:induction false} RunKeeps(p: Params, s: Store, es: seq<Event>)
    requires Resting(s) && Run(p, s, es)
    ensures Resting(After(p, s, es)) && Evolves(s, After(p, s, es))
    decreases |es|
  {
    hide Resting, Evolves, Enabled, Apply;
    if es == [] {
      EvolvesSame(s, s);
    } else {
      assert Enabled(s, es[0]);
      StepKeeps(p, s, es[0]);
      var s1 := Apply(p, s, es[0]);
      RunKeeps(p, s1, es[1..]);
      EvolvesTransitive(s, s1, After(p, s1, es[1..]));
    }
  }
}

/** Why the order of first deliveries needs one delay: with any two different delays in one
    queue there is a run in which a later message is delivered before an earlier one. */
module Overtaking {
  import opened Types
  import opened Sequences
  import opened QueueModel
  import opened History
  import opened Receiving
  import opened Runs
  import opened Ordering

  function Config(id: string, kind: QueueType): QueueConfig {
    QueueConfig(id, kind, 30, 0, None, false)
  }

  /** A message with its own deduplication id, which only a FIFO queue reads. */
  function Delayed(key: string, seconds: u32): Message {
    Message("m", "", map[], "", 0, 0, None, Some(key), None, Some(seconds))
  }

  /** The queue with these messages waiting, and nothing in flight that expires by `now`. */
  ghost predicate Standing(s: Store, id: string, config: QueueConfig, waiting: seq<Stored>, now: nat) {
    && Resting(s) && id in s.queues
    && s.queues[id].config == config && config.dlq.None? && s.queues[id].available == waiting
    && s.clock <= now
    && forall h :: h in s.queues[id].inFlight ==> now < s.queues[id].inFlight[h].expiresAt
  }

  // ---------------------------------------------------------------- one step

  lemma Open(p: Params, config: QueueConfig)
    requires config.dlq.None?
    ensures Enabled(EMPTY, Create(config, 0))
    ensures var s := Apply(p, EMPTY, Create(config, 0));
            && s.ledger == [] && s.deliveries == [] && s.nonces == {} && s.clock == 0
            && (forall now :: Standing(s, config.id, config, [], now)) && config.id in s.queues
            && s.queues[config.id].inFlight == map[] && s.queues[config.id].dedupCache == map[]
  {
    hide Inv;
    StartRests();
    StepKeeps(p, EMPTY, Create(config, 0));
  }

  function At(now: nat): Reads {
    Reads(now, now, now, now, now)
  }

  /** A send that no deduplication id stands in the way of. */
  lemma SendNew(p: Params, q: Queue, m: Message, now: nat, ticket: nat)
    requires m.dedupId.Some? && m.delay.Some? && m.dedupId.value !in q.dedupCache
    ensures var result := SendOne(p, q, m, At(now), ticket);
            && result.outcome.Sent?
            && result.queue.config == q.config && result.queue.inFlight == q.inFlight
            && result.queue.available == q.available + [Stored(ticket, result.outcome.message, now + m.delay.value * SECOND)]
            && result.queue.dedupCache.Keys <= q.dedupCache.Keys + {m.dedupId.value}
            && result.outcome.message == m.(sequence := result.outcome.message.sequence)
  {
  }

  lemma PushOne(p: Params, s: Store, id: string, config: QueueConfig, waiting: seq<Stored>, m: Message, now: nat)
    returns (e: Stored)
    requires Standing(s, id, config, waiting, now)
    requires m.dedupId.Some? && m.delay.Some? && m.dedupId.value !in s.queues[id].dedupCache
    ensures e.ticket == |s.ledger| && e.visibleAt == s.clock + m.delay.value * SECOND
    ensures var v := Push(id, m, At(s.clock));
            && Enabled(s, v)
            && var s' := Apply(p, s, v);
               && Standing(s', id, config, waiting + [e], now) && id in s'.queues
               && |s'.ledger| == |s.ledger| + 1 && s.ledger <= s'.ledger && s'.ledger[|s.ledger|].served == 0
               && s'.deliveries == s.deliveries && s'.nonces == s.nonces && s'.clock == s.clock
               && s'.queues[id].inFlight == s.queues[id].inFlight
               && s'.queues[id].dedupCache.Keys <= s.queues[id].dedupCache.Keys + {m.dedupId.value}
  {
    hide Inv, SendOne, Evolves;
    var v := Push(id, m, At(s.clock));
    assert Enabled(s, v);
    StepKeeps(p, s, v);
    SendNew(p, s.queues[id], m, s.clock, |s.ledger|);
    e := Stored(|s.ledger|, SendOne(p, s.queues[id], m, At(s.clock), |s.ledger|).outcome.message, s.clock + m.delay.value * SECOND);
  }

  /** A receive at `now` of one message, kept for a second. */
  function CallAt(id: string, now: nat, from: nat): Call {
    Call(id, Request(1, Some(1)), ReceiveReads(now, now, seq(RECEIVE_LIMIT, _ => now)), [], seq(RECEIVE_LIMIT, i => from + i))
  }

  lemma CallSupplied(id: string, now: nat, from: nat)
    ensures Supplied(CallAt(id, now, from).nonces, CallAt(id, now, from).clocks)
    ensures forall n :: n in CallAt(id, now, from).nonces ==> from <= n < from + RECEIVE_LIMIT
  {
  }

  lemma ReceiveEnabled(s: Store, id: string, config: QueueConfig, waiting: seq<Stored>, now: nat, from: nat)
    requires Standing(s, id, config, waiting, now) && forall n :: n in s.nonces ==> n < from
    ensures Enabled(s, ReceiveMessages(CallAt(id, now, from), now)) && Callable(s, CallAt(id, now, from))
  {
    hide Inv, Supplied;
    CallSupplied(id, now, from);
    var c := CallAt(id, now, from);
    assert forall h :: h !in Expired(s.queues[id], now);
    assert ExpiryOrder(s.queues[id], [], now);
    assert Unused(s, c.nonces, |c.nonces|) by {
      assert forall i :: 0 <= i < |c.nonces| ==> c.nonces[i] in c.nonces;
    }
  }

  lemma SelectsOne(q: Queue, id: string, now: nat, from: nat, e: Stored, rest: seq<Stored>)
    requires q.config.dlq.None? && Pick(q.available, now, 1) == Picked([e], rest)
    ensures var c := CallAt(id, now, from);
            && Landable(q, c.order)
            && Landed(q, c.clocks, c.order) == q.(lastAccess := now)
            && Selection(q, c.request, c.clocks, c.order) == Picked([e], rest)
            && ReturnedBy(q, c.request, c.clocks, c.order) == [e]
            && MovedBy(q, c.request, c.clocks, c.order) == []
  {
    hide Pick;
    assert Kept(q.config, [e]) == [e] && Doomed(q.config, [e]) == [];
    assert Reversed<Stored>([]) == [];
  }

  lemma LaunchesOne(p: Params, id: string, m: map<Handle, InFlight>, e: Stored, now: nat, from: nat, expiresAt: nat)
    ensures Launch(p, m, id, [e], CallAt(id, now, from).nonces, expiresAt)
         == m[Ticketed(p, id, e.message, from) := InFlight(e.ticket, Bump(e.message), expiresAt)]
  {
    assert [e][1..] == [];
  }

  /** What the receive does to the queue when it selects e and leaves `rest`. */
  lemma ServesOne(p: Params, qs: Queues, id: string, config: QueueConfig, now: nat, from: nat, e: Stored, rest: seq<Stored>)
    requires id in qs && qs[id].config == config && config.dlq.None? && Pick(qs[id].available, now, 1) == Picked([e], rest)
    ensures var c := CallAt(id, now, from);
            && Landable(qs[id], c.order) && |c.nonces| == |c.clocks.stamps| == RECEIVE_LIMIT
            && ReturnedBy(qs[id], c.request, c.clocks, c.order) == [e]
            && MovedBy(qs[id], c.request, c.clocks, c.order) == []
            && var qs' := Receive(p, qs, id, c.request, c.clocks, c.order, c.nonces).queues;
               && id in qs' && qs'[id].config == config && qs'[id].available == rest
               && qs'[id].inFlight == qs[id].inFlight[Ticketed(p, id, e.message, from)
                                                        := InFlight(e.ticket, Bump(e.message), now + SECOND)]
  {
    hide Pick, Landed, Selection, ReturnedBy, MovedBy, Launch, Answer, DivertAll;
    var c := CallAt(id, now, from);
    SelectsOne(qs[id], id, now, from, e, rest);
    LaunchesOne(p, id, qs[id].inFlight, e, now, from, now + SECOND);
    NoMoves(qs[id := Served(p, qs[id], id, c.request, c.clocks, c.order, c.nonces)], TargetOf(config),
            MovedBy(qs[id], c.request, c.clocks, c.order), c.clocks.stamps, now);
  }

  lemma ReceiveOne(p: Params, s: Store, id: string, config: QueueConfig, waiting: seq<Stored>, now: nat, from: nat, e: Stored, rest: seq<Stored>, later: nat)
    requires Standing(s, id, config, waiting, now) && (forall n :: n in s.nonces ==> n < from)
    requires Pick(waiting, now, 1) == Picked([e], rest)
    requires now <= later < now + SECOND
    requires forall h :: h in s.queues[id].inFlight ==> later < s.queues[id].inFlight[h].expiresAt
    ensures var v := ReceiveMessages(CallAt(id, now, from), now);
            && Enabled(s, v)
            && var s' := Apply(p, s, v);
               && Standing(s', id, config, rest, later) && (forall n :: n in s'.nonces ==> n < from + RECEIVE_LIMIT)
               && OneDelivered(s, s', id, e.ticket)
  {
    hide Inv, Receive, ReceiveS, Callable, Supplied, Unused, CallAt, Pick, Evolves, OneDelivered, Returned, Moved, Enabled, Apply;
    var c, v := CallAt(id, now, from), ReceiveMessages(CallAt(id, now, from), now);
    ReceiveEnabled(s, id, config, waiting, now, from);
    StepKeeps(p, s, v);
    CallIs(id, now, from);
    CallSupplied(id, now, from);
    ReceiveApplied(p, s, c, now);
    ServesOne(p, s.queues, id, config, now, from, e, rest);
    SelectedOne(s, c, e);
    ReceivedOne(p, s, c, e);
    SameDeliveries(s, ReceiveS(p, s, c), Apply(p, s, v), id, e.ticket);
  }

  lemma ReceiveApplied(p: Params, s: Store, c: Call, end: nat)
    requires Enabled(s, ReceiveMessages(c, end)) && c.id in s.queues
    ensures Callable(s, c) && Apply(p, s, ReceiveMessages(c, end)) == ReceiveS(p, s, c).(clock := end)
  {
    hide Inv, ReceiveS, Supplied, Unused;
    ReceiveReady(s, c, end);
  }

  /** Exactly one more delivery, of ticket t from the queue, and no other copy's returns change. */
  ghost predicate OneDelivered(s: Store, s': Store, id: string, t: nat) {
    && |s'.ledger| == |s.ledger| && t < |s.ledger|
    && (forall u :: 0 <= u < |s.ledger| && u != t ==> s'.ledger[u].served == s.ledger[u].served)
    && |s'.deliveries| == |s.deliveries| + 1 && s.deliveries <= s'.deliveries
    && var d := s'.deliveries[|s.deliveries|];
       d.queue == id && d.ticket == t && (d.first <==> s.ledger[t].served == 0)
  }

  lemma SameDeliveries(s: Store, a: Store, b: Store, id: string, t: nat)
    requires OneDelivered(s, a, id, t) && b.ledger == a.ledger && b.deliveries == a.deliveries
    ensures OneDelivered(s, b, id, t)
  {
  }

  lemma SelectedOne(s: Store, c: Call, e: Stored)
    requires Callable(s, c)
    requires ReturnedBy(s.queues[c.id], c.request, c.clocks, c.order) == [e]
    requires MovedBy(s.queues[c.id], c.request, c.clocks, c.order) == []
    ensures Returned(s, c) == [e] && Moved(s, c) == []
  {
  }

  lemma CallIs(id: string, now: nat, from: nat)
    ensures var c := CallAt(id, now, from); c.id == id && c.order == [] && c.clocks.now == now && |c.nonces| == RECEIVE_LIMIT
  {
  }

  lemma ReceivedOne(p: Params, s: Store, c: Call, e: Stored)
    requires Callable(s, c) && Returned(s, c) == [e] && Moved(s, c) == []
    ensures var s' := ReceiveS(p, s, c);
            && OneDelivered(s, s', c.id, e.ticket)
            && s'.queues == Receive(p, s.queues, c.id, c.request, c.clocks, c.order, c.nonces).queues
            && (forall n :: n in s'.nonces ==> n in s.nonces || n in c.nonces)
  {
    hide Inv, Receive, ReceiveS, Landable, Supplied, Unused, Returned, Moved, Selected, Has, ReceivedRecord;
    ReceiveFields(p, s, c);
    SelectedServed(s, c);
    ReturnedTicket(s, c, e);
    UsedNonces(p, s, c);
    var s' := ReceiveS(p, s, c);
    forall u | 0 <= u < |s.ledger| && u != e.ticket
      ensures s'.ledger[u].served == s.ledger[u].served
    {
      OtherServed(p, s, c, e, u);
    }
  }

  lemma ReturnedTicket(s: Store, c: Call, e: Stored)
    requires Callable(s, c) && Returned(s, c) == [e]
    ensures e.ticket < |s.ledger|
  {
    hide Inv, Returned, Selected, Landable, Supplied, Unused;
    ReturnedHeld(s, c);
    assert Returned(s, c)[0] in Returned(s, c);
    HeldTickets(Selected(s, c), Returned(s, c));
    SelectedServed(s, c);
  }

  lemma UsedNonces(p: Params, s: Store, c: Call)
    requires Callable(s, c)
    ensures forall n :: n in ReceiveS(p, s, c).nonces ==> n in s.nonces || n in c.nonces
  {
    hide Inv, Receive, ReceiveS, Landable, Supplied, Unused, Returned, Moved, Selected, ReceivedAll;
    ReceiveEffect(p, s, c);
  }

  lemma OtherServed(p: Params, s: Store, c: Call, e: Stored, u: nat)
    requires Callable(s, c) && Returned(s, c) == [e] && Moved(s, c) == [] && u < |s.ledger| && u != e.ticket
    ensures |ReceiveS(p, s, c).ledger| == |s.ledger| && ReceiveS(p, s, c).ledger[u].served == s.ledger[u].served
  {
    hide Inv, ReceiveS, Landable, Supplied, Unused, Returned, Moved;
    ReceivedPoint(p, s, c, u);
    assert !Has([e], u) && !Has([], u);
  }

  // ---------------------------------------------------------------- the run

  /** The queue, the slow message, the fast one, and two receives of one message each. */
  function SwappedRun(id: string, kind: QueueType, slow: u32, fast: u32): seq<Event>
    requires fast < slow
  {
    [Create(Config(id, kind), 0), Push(id, Delayed("slow", slow), At(0)), Push(id, Delayed("fast", fast), At(0)),
     ReceiveMessages(CallAt(id, slow * SECOND - 1, 0), slow * SECOND - 1),
     ReceiveMessages(CallAt(id, slow * SECOND, RECEIVE_LIMIT), slow * SECOND)]
  }

  /** Five events, one after the other. */
  lemma RunFive(p: Params, s0: Store, e: seq<Event>, s1: Store, s2: Store, s3: Store, s4: Store)
    requires |e| == 5
    requires Enabled(s0, e[0]) && s1 == Apply(p, s0, e[0]) && Enabled(s1, e[1]) && s2 == Apply(p, s1, e[1])
    requires Enabled(s2, e[2]) && s3 == Apply(p, s2, e[2]) && Enabled(s3, e[3]) && s4 == Apply(p, s3, e[3])
    requires Enabled(s4, e[4])
    ensures Run(p, s0, e) && After(p, s0, e) == Apply(p, s4, e[4])
  {
    hide Enabled, Apply;
    LastOne(p, s4, e[4..]);
    assert e[3..][1..] == e[4..] && e[2..][1..] == e[3..] && e[1..][1..] == e[2..];
    assert Run(p, s3, e[3..]) && After(p, s3, e[3..]) == Apply(p, s4, e[4]);
    assert Run(p, s2, e[2..]) && After(p, s2, e[2..]) == Apply(p, s4, e[4]);
    assert Run(p, s1, e[1..]) && After(p, s1, e[1..]) == Apply(p, s4, e[4]);
  }

  lemma LastOne(p: Params, s: Store, e: seq<Event>)
    requires |e| == 1 && Enabled(s, e[0])
    ensures Run(p, s, e) && After(p, s, e) == Apply(p, s, e[0])
  {
    hide Enabled, Apply;
    assert e[1..] == [];
  }

  lemma SwappedOrder(s3: Store, s4: Store, s5: Store, id: string)
    requires s3.deliveries == [] && |s3.ledger| == 2 && s3.ledger[0].served == s3.ledger[1].served == 0
    requires OneDelivered(s3, s4, id, 1) && OneDelivered(s4, s5, id, 0)
    ensures !FirstsSoFar(s5.deliveries, id)
  {
    var d := s5.deliveries;
    assert |d| == 2 && d[0] == s4.deliveries[0];
    assert d[0].ticket == 1 && d[0].first && d[1].ticket == 0 && d[1].first;
  }

  /** With two delays in one queue, of any type, the later message is delivered first. */
  lemma MixedDelaysSwap(p: Params, id: string, kind: QueueType, slow: u32, fast: u32)
    requires fast < slow
    ensures Run(p, EMPTY, SwappedRun(id, kind, slow, fast))
    ensures !FirstsSoFar(After(p, EMPTY, SwappedRun(id, kind, slow, fast)).deliveries, id)
  {
    hide Enabled, Apply, Standing, CallAt, Delayed, At, Run, After, OneDelivered, FirstsSoFar, Pick;
    var es, config := SwappedRun(id, kind, slow, fast), Config(id, kind);
    var now := slow * SECOND;
    IsDelayed("slow", slow);
    IsDelayed("fast", fast);
    Open(p, config);
    var s1 := Apply(p, EMPTY, es[0]);
    var a := PushOne(p, s1, id, config, [], Delayed("slow", slow), now - 1);
    var s2 := Apply(p, s1, es[1]);
    assert [] + [a] == [a];
    assert "fast" !in s2.queues[id].dedupCache;
    var b := PushOne(p, s2, id, config, [a], Delayed("fast", fast), now - 1);
    var s3 := Apply(p, s2, es[2]);
    assert [a] + [b] == [a, b];
    TwoReceives(p, s3, id, config, a, b, now);
    var s4 := Apply(p, s3, es[3]);
    SwappedOrder(s3, s4, Apply(p, s4, es[4]), id);
    RunFive(p, EMPTY, es, s1, s2, s3, s4);
  }

  lemma TwoReceives(p: Params, s: Store, id: string, config: QueueConfig, a: Stored, b: Stored, now: nat)
    requires now > 0 && Standing(s, id, config, [a, b], now - 1) && s.nonces == {}
    requires b.visibleAt <= now - 1 < a.visibleAt == now && s.queues[id].inFlight == map[]
    ensures var v := ReceiveMessages(CallAt(id, now - 1, 0), now - 1);
            && Enabled(s, v)
            && var s' := Apply(p, s, v);
               && OneDelivered(s, s', id, b.ticket)
               && var w := ReceiveMessages(CallAt(id, now, RECEIVE_LIMIT), now);
                  Enabled(s', w) && OneDelivered(s', Apply(p, s', w), id, a.ticket)
  {
    hide Enabled, Apply, CallAt, OneDelivered, Pick, Inv;
    MixedDelaysOvertake(a, b, now - 1, 1);
    ReceiveOne(p, s, id, config, [a, b], now - 1, 0, b, [a], now);
    var s' := Apply(p, s, ReceiveMessages(CallAt(id, now - 1, 0), now - 1));
    PickOne(a, now);
    ReceiveOne(p, s', id, config, [a], now, RECEIVE_LIMIT, a, [], now);
  }

  lemma PickOne(a: Stored, now: nat)
    requires a.visibleAt <= now
    ensures Pick([a], now, 1) == Picked([a], [])
  {
    assert [a][1..] == [];
  }

  lemma IsDelayed(key: string, seconds: u32)
    ensures Delayed(key, seconds).delay == Some(seconds) && Delayed(key, seconds).dedupId == Some(key)
  {
  }

  // ---------------------------------------------------------------- the exact condition on delays

  /** A send to the queue has one of the delays, and no queue is configured to dead-letter into it. */
  ghost predicate Allowed(s: Store, e: Event, id: string, delays: set<u32>) {
    && (e.Push? && e.id == id && id in s.queues ==> Delay(s.queues[id].config, e.message) in delays)
    && ((e.Create? || e.Update?) && e.config.dlq.Some? ==> e.config.dlq.value.target != id)
  }

  ghost predicate AllowedRun(p: Params, s: Store, es: seq<Event>, id: string, delays: set<u32>)
    requires Run(p, s, es)
    decreases |es|
  {
    es != [] ==> Allowed(s, es[0], id, delays) && AllowedRun(p, Apply(p, s, es[0]), es[1..], id, delays)
  }

  /** With these delays every run delivers first in the order of sending. */
  ghost predicate KeepsOrder(p: Params, id: string, delays: set<u32>) {
    forall es :: Run(p, EMPTY, es) && AllowedRun(p, EMPTY, es, id, delays) ==> FirstsSoFar(After(p, EMPTY, es).deliveries, id)
  }

  lemma {:induction false} OneDelayIsSteady(p: Params, s: Store, es: seq<Event>, id: string, delays: set<u32>, delay: u32)
    requires Run(p, s, es) && AllowedRun(p, s, es, id, delays) && forall d :: d in delays ==> d == delay
    ensures SteadyRun(p, s, es, id, delay)
    decreases |es|
  {
    hide Enabled, Apply, Delay;
    if es != [] {
      OneDelayIsSteady(p, Apply(p, s, es[0]), es[1..], id, delays, delay);
    }
  }

  /** Allowed whatever the store is. */
  predicate AlwaysAllowed(e: Event, delays: set<u32>) {
    && (e.Push? ==> e.message.delay.Some? && e.message.delay.value in delays)
    && (e.Create? ==> e.config.dlq.None?) && !e.Update?
  }

  lemma {:induction false} AlwaysAllowedRun(p: Params, s: Store, es: seq<Event>, id: string, delays: set<u32>)
    requires Run(p, s, es) && forall i :: 0 <= i < |es| ==> AlwaysAllowed(es[i], delays)
    ensures AllowedRun(p, s, es, id, delays)
    decreases |es|
  {
    hide Enabled, Apply;
    if es != [] {
      assert forall i :: 0 <= i < |es| - 1 ==> es[1..][i] == es[i + 1];
      assert AlwaysAllowed(es[0], delays);
      AlwaysAllowedRun(p, Apply(p, s, es[0]), es[1..], id, delays);
    }
  }

  lemma SwappedRunAllowed(id: string, kind: QueueType, slow: u32, fast: u32, delays: set<u32>)
    requires fast < slow && fast in delays && slow in delays
    ensures forall i :: 0 <= i < |SwappedRun(id, kind, slow, fast)| ==> AlwaysAllowed(SwappedRun(id, kind, slow, fast)[i], delays)
  {
    hide CallAt, At;
  }

  /** First deliveries come in the order of sending, in every run without dead-lettering into the
      queue, exactly when no two delays are allowed. */
  lemma OrderKeptIff(p: Params, id: string, delays: set<u32>)
    ensures KeepsOrder(p, id, delays) <==> forall a, b :: a in delays && b in delays ==> a == b
  {
    hide Run, After, AllowedRun, SteadyRun, FirstsSoFar, SwappedRun, AlwaysAllowed;
    if a, b :| a in delays && b in delays && a != b {
      var slow, fast := if a < b then b else a, if a < b then a else b;
      var es := SwappedRun(id, SqsStandard, slow, fast);
      MixedDelaysSwap(p, id, SqsStandard, slow, fast);
      SwappedRunAllowed(id, SqsStandard, slow, fast, delays);
      AlwaysAllowedRun(p, EMPTY, es, id, delays);
    } else {
      var delay: u32 := 0;
      if d :| d in delays {
        delay := d;
      }
      forall es | Run(p, EMPTY, es) && AllowedRun(p, EMPTY, es, id, delays)
        ensures FirstsSoFar(After(p, EMPTY, es).deliveries, id)
      {
        OneDelayIsSteady(p, EMPTY, es, id, delays, delay);
        FirstDeliveriesInOrder(p, es, id, delay);
      }
    }
  }
}

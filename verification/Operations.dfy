/** The operations on values, which the classes perform in place, are the events of the runs: what
    is proved of runs holds of them. */
module Operations {
  import opened Types
  import opened QueueModel
  import opened History
  import opened Receiving
  import opened Runs
  import opened Ordering
  import opened Capacity

  // ---------------------------------------------------------------- single operations

  /** The queues after an event, by the operation of the same name; `ticket` is the next one. */
  ghost function Done(p: Params, qs: Queues, ticket: nat, e: Event): Queues
    requires e.Evict? ==> e.id in qs && qs[e.id].available != []
    requires e.ReceiveMessages? && e.call.id in qs ==>
               && Landable(qs[e.call.id], e.call.order)
               && RECEIVE_LIMIT <= |e.call.nonces| && RECEIVE_LIMIT <= |e.call.clocks.stamps|
    requires e.SweepQueue? && e.id in qs ==> Landable(qs[e.id], e.order)
  {
    match e
    case Create(config, now) => if config.id in qs then qs else qs[config.id := NewQueue(config, now)]
    case Update(config) => if config.id in qs then qs[config.id := qs[config.id].(config := config)] else qs
    case RemoveQueue(id) => qs - {id}
    case Push(id, m, clocks) => if id in qs then qs[id := SendOne(p, qs[id], m, clocks, ticket).queue] else qs
    case Evict(id) => EvictFront(qs, id)
    case ReceiveMessages(c, _) =>
      if c.id in qs then Receive(p, qs, c.id, c.request, c.clocks, c.order, c.nonces).queues else qs
    case SweepQueue(id, order, now) => if id in qs then qs[id := Sweep(qs[id], order, now)] else qs
    case DeleteMessage(id, h) => Delete(p, qs, id, h)
    case ChangeVisibility(id, h, timeout, now) => Change(p, qs, id, h, timeout, now)
    case PurgeQueue(id) => if id in qs then qs[id := Purge(qs[id])] else qs
  }

  lemma Doable(s: Store, e: Event)
    requires Enabled(s, e)
    ensures e.Evict? ==> e.id in s.queues && s.queues[e.id].available != []
    ensures e.ReceiveMessages? && e.call.id in s.queues ==>
              && Landable(s.queues[e.call.id], e.call.order)
              && RECEIVE_LIMIT <= |e.call.nonces| && RECEIVE_LIMIT <= |e.call.clocks.stamps|
    ensures e.SweepQueue? && e.id in s.queues ==> Landable(s.queues[e.id], e.order)
  {
    hide Inv;
    if e.ReceiveMessages? && e.call.id in s.queues {
      ReceiveReady(s, e.call, e.end);
    }
  }

  lemma EmptyingEvents(p: Params, s: Store, e: Event)
    requires Enabled(s, e) && (e.RemoveQueue? || e.PurgeQueue?)
    ensures Apply(p, s, e).queues == Done(p, s.queues, |s.ledger|, e)
  {
    hide Inv, DrainS;
    if e.id in s.queues {
      DrainEffect(s, e.id, if e.PurgeQueue? then Purged else QueueRemoved);
      assert s.queues[e.id := Purge(s.queues[e.id])] - {e.id} == s.queues - {e.id};
    } else {
      assert s.queues - {e.id} == s.queues;
    }
  }

  lemma LandingEvents(p: Params, s: Store, e: Event)
    requires Enabled(s, e) && (e.SweepQueue? || e.ReceiveMessages?)
    ensures e.ReceiveMessages? && e.call.id in s.queues ==>
              && Landable(s.queues[e.call.id], e.call.order)
              && RECEIVE_LIMIT <= |e.call.nonces| && RECEIVE_LIMIT <= |e.call.clocks.stamps|
    ensures e.SweepQueue? && e.id in s.queues ==> Landable(s.queues[e.id], e.order)
    ensures Apply(p, s, e).queues == Done(p, s.queues, |s.ledger|, e)
  {
    Doable(s, e);
    hide Inv, LandAllS, ReceiveS, Receive, Callable, Sweep;
    if e.SweepQueue? {
      if e.id in s.queues {
        SweptQueues(s, e.id, e.order, e.now);
      }
    } else if e.call.id in s.queues {
      ReceiveReady(s, e.call, e.end);
      ReceiveFields(p, s, e.call);
    }
  }

  lemma OtherEvents(p: Params, s: Store, e: Event)
    requires Enabled(s, e) && !e.RemoveQueue? && !e.PurgeQueue? && !e.SweepQueue? && !e.ReceiveMessages?
    ensures Apply(p, s, e).queues == Done(p, s.queues, |s.ledger|, e)
  {
    hide Inv, SendOne, ParseHandle;
  }

  /** Every event of a run leaves the queues as the operation does that the class performs. */
  lemma EventsAreOperations(p: Params, s: Store, e: Event)
    requires Enabled(s, e)
    ensures e.Evict? ==> e.id in s.queues && s.queues[e.id].available != []
    ensures e.ReceiveMessages? && e.call.id in s.queues ==>
              && Landable(s.queues[e.call.id], e.call.order)
              && RECEIVE_LIMIT <= |e.call.nonces| && RECEIVE_LIMIT <= |e.call.clocks.stamps|
    ensures e.SweepQueue? && e.id in s.queues ==> Landable(s.queues[e.id], e.order)
    ensures Apply(p, s, e).queues == Done(p, s.queues, |s.ledger|, e)
  {
    Doable(s, e);
    hide Inv, Apply, Done, Enabled;
    if e.RemoveQueue? || e.PurgeQueue? {
      EmptyingEvents(p, s, e);
    } else if e.SweepQueue? || e.ReceiveMessages? {
      LandingEvents(p, s, e);
    } else {
      OtherEvents(p, s, e);
    }
  }

  lemma SweptQueues(s: Store, id: string, order: seq<Handle>, now: nat)
    requires Inv(s) && id in s.queues && ExpiryOrder(s.queues[id], order, now)
    ensures Landable(s.queues[id], order)
    ensures LandAllS(s, id, order, now).queues == s.queues[id := Sweep(s.queues[id], order, now)]
  {
    hide Inv, LandAllS, LandedAll;
    LandAllEffect(s, id, order, now);
  }

  /** The total is the number of available messages and of those in flight, queue by queue. */
  lemma TotalByFields(qs: Queues, id: string)
    requires id in qs
    ensures Total(map[]) == 0 && Total(qs) == |qs[id].available| + |qs[id].inFlight| + Total(qs - {id})
  {
    hide Total;
    TotalRemove(qs, id);
    NoneTotal();
  }

  lemma NoneTotal()
    ensures Total(map[]) == 0
  {
  }

  /** A handle that was signed for the queue. */
  predicate Genuine(p: Params, id: string, h: Handle) {
    h.Decoded? && h.queueId == id && h.signature == Bytes(p.mac(id, h.messageId, h.nonce))
  }

  /** Which fault is reported for which handle: a handle that is not genuine is invalid even when
      there is no such queue, and a genuine one is invalid when it is not in flight. */
  lemma FaultsAreExact(p: Params, qs: Queues, id: string, h: Handle)
    ensures HandleFault(p, qs, id, h)
         == if !Genuine(p, id, h) then Some(InvalidReceiptHandle)
            else if id !in qs then Some(QueueNotFound)
            else if h in qs[id].inFlight then None
            else Some(InvalidReceiptHandle)
  {
  }

  // ---------------------------------------------------------------- a send as events

  /** The clock readings of a batch, one after the other. */
  ghost predicate Chained(rs: seq<Reads>, from: nat) {
    rs == [] || (OrderedReads(rs[0], from) && Chained(rs[1..], rs[0].stamp))
  }

  function Pushes(id: string, ms: seq<Message>, rs: seq<Reads>, n: nat): (r: seq<Event>)
    requires n <= |ms| == |rs|
    ensures |r| == n
  {
    seq(n, i requires 0 <= i < n => Push(id, ms[i], rs[i]))
  }

  /** How many messages of a batch are looked at: all, or those up to the refused one. */
  function LookedAt(result: BatchResult): nat {
    |result.sent| + if result.refused then 1 else 0
  }

  lemma {:induction false} LooksAtSome(p: Params, q: Queue, ms: seq<Message>, rs: seq<Reads>, ticket: nat)
    requires |rs| == |ms|
    ensures LookedAt(SendBatch(p, q, ms, rs, ticket)) <= |ms|
    ensures !SendBatch(p, q, ms, rs, ticket).refused ==> LookedAt(SendBatch(p, q, ms, rs, ticket)) == |ms|
    decreases |ms|
  {
    hide SendOne;
    if ms != [] {
      var one := SendOne(p, q, ms[0], rs[0], ticket);
      if !one.outcome.Refused? {
        LooksAtSome(p, one.queue, ms[1..], rs[1..], ticket + if one.outcome.Sent? then 1 else 0);
      }
    }
  }

  lemma PushOneEvent(p: Params, s: Store, id: string, m: Message, r: Reads)
    requires Resting(s) && id in s.queues && OrderedReads(r, s.clock)
    ensures Enabled(s, Push(id, m, r))
    ensures var s', one := Apply(p, s, Push(id, m, r)), SendOne(p, s.queues[id], m, r, |s.ledger|);
            && Resting(s') && s'.queues == s.queues[id := one.queue] && s'.clock == r.stamp
            && |s'.ledger| == |s.ledger| + if one.outcome.Sent? then 1 else 0
  {
    hide Inv, SendOne, Evolves;
    StepKeeps(p, s, Push(id, m, r));
  }

  lemma PushesMore(id: string, ms: seq<Message>, rs: seq<Reads>, n: nat)
    requires 0 < n <= |ms| == |rs|
    ensures Pushes(id, ms, rs, n) == [Push(id, ms[0], rs[0])] + Pushes(id, ms[1..], rs[1..], n - 1)
  {
  }

  lemma RunMore(p: Params, s: Store, e: Event, es: seq<Event>)
    requires Enabled(s, e) && Run(p, Apply(p, s, e), es)
    ensures Run(p, s, [e] + es) && After(p, s, [e] + es) == After(p, Apply(p, s, e), es)
  {
    hide Enabled, Apply;
    assert ([e] + es)[1..] == es;
  }

  lemma RunNothing(p: Params, s: Store)
    ensures Run(p, s, []) && After(p, s, []) == s
  {
  }

  /** A batch is one push after another, up to the first refusal. */
  lemma {:induction false} BatchIsPushes(p: Params, s: Store, id: string, ms: seq<Message>, rs: seq<Reads>)
    requires Resting(s) && id in s.queues && |rs| == |ms| && Chained(rs, s.clock)
    ensures var result := SendBatch(p, s.queues[id], ms, rs, |s.ledger|);
            var n := LookedAt(result);
            && n <= |ms| && Run(p, s, Pushes(id, ms, rs, n))
            && After(p, s, Pushes(id, ms, rs, n)).queues == s.queues[id := result.queue]
    decreases |ms|
  {
    hide Resting, SendOne, SendBatch, Enabled, Apply, Run, After, Pushes;
    var result := SendBatch(p, s.queues[id], ms, rs, |s.ledger|);
    if ms == [] {
      SendBatchEnd(p, s.queues[id], ms, rs, |s.ledger|);
      RunNothing(p, s);
      assert Pushes(id, ms, rs, 0) == [];
    } else {
      PushOneEvent(p, s, id, ms[0], rs[0]);
      SendBatchStep(p, s.queues[id], ms, rs, |s.ledger|);
      LooksAtSome(p, s.queues[id], ms, rs, |s.ledger|);
      PushesMore(id, ms, rs, LookedAt(result));
      var s1 := Apply(p, s, Push(id, ms[0], rs[0]));
      if SendOne(p, s.queues[id], ms[0], rs[0], |s.ledger|).outcome.Refused? {
        RunNothing(p, s1);
        assert Pushes(id, ms[1..], rs[1..], 0) == [];
        RunMore(p, s, Push(id, ms[0], rs[0]), []);
      } else {
        BatchIsPushes(p, s1, id, ms[1..], rs[1..]);
        RunMore(p, s, Push(id, ms[0], rs[0]), Pushes(id, ms[1..], rs[1..], LookedAt(result) - 1));
      }
    }
  }

  /** The events of a whole send: perhaps an eviction, then the pushes. */
  function SendEvents(id: string, ms: seq<Message>, rs: seq<Reads>, victim: Option<string>, reply: SendReply): seq<Event>
    requires |rs| == |ms|
  {
    var evicted := match victim case Some(v) => [Evict(v)] case None => [];
    var n := match reply
             case Accepted(sent) => |sent|
             case MissingDedupId(sent) => |sent| + 1
             case _ => 0;
    if n <= |ms| then evicted + Pushes(id, ms, rs, n) else evicted
  }

  lemma EvictEvent(p: Params, s: Store, v: string)
    requires Resting(s) && v in s.queues && s.queues[v].available != []
    ensures Enabled(s, Evict(v))
    ensures var s' := Apply(p, s, Evict(v));
            && Resting(s') && s'.queues == EvictFront(s.queues, v) && s'.clock == s.clock && |s'.ledger| == |s.ledger|
  {
    hide Inv, Evolves;
    StepKeeps(p, s, Evict(v));
  }

  /** A send without its eviction. */
  lemma SendAfterEviction(p: Params, s: Store, id: string, ms: seq<Message>, rs: seq<Reads>, reply: SendReply, after: Queues)
    requires Resting(s) && |rs| == |ms| && Chained(rs, s.clock)
    requires if reply == StorageFull || id !in s.queues then after == s.queues && (reply == StorageFull || reply == NoSuchQueue)
             else
               var result := SendBatch(p, s.queues[id], ms, rs, |s.ledger|);
               && after == s.queues[id := result.queue]
               && reply == if result.refused then MissingDedupId(result.sent) else Accepted(result.sent)
    ensures var es := SendEvents(id, ms, rs, None, reply);
            Run(p, s, es) && After(p, s, es).queues == after
  {
    hide Resting, SendBatch, Run, After, Pushes, Chained;
    if reply == StorageFull || id !in s.queues {
      RunNothing(p, s);
      assert Pushes(id, ms, rs, 0) == [];
      assert SendEvents(id, ms, rs, None, reply) == [];
    } else {
      BatchIsPushes(p, s, id, ms, rs);
      var n := LookedAt(SendBatch(p, s.queues[id], ms, rs, |s.ledger|));
      assert [] + Pushes(id, ms, rs, n) == Pushes(id, ms, rs, n);
    }
  }

  /** A whole send, as the class performs it, is a run of the events of an eviction, if there is one,
      and of the pushes. */
  lemma SendIsRun(p: Params, s: Store, id: string, ms: seq<Message>, rs: seq<Reads>, victim: Option<string>,
                  reply: SendReply, after: Queues)
    requires Resting(s) && |rs| == |ms| && Chained(rs, s.clock)
    requires SendStep(p, s.queues, id, ms, rs, |s.ledger|, victim, reply, after)
    ensures var es := SendEvents(id, ms, rs, victim, reply);
            Run(p, s, es) && After(p, s, es).queues == after
  {
    hide Resting, SendBatch, Run, After, Pushes, Chained, Enabled, Apply, Total;
    match victim {
      case None => SendAfterEviction(p, s, id, ms, rs, reply, after);
      case Some(v) =>
        EvictEvent(p, s, v);
        var s1 := Apply(p, s, Evict(v));
        SendAfterEviction(p, s1, id, ms, rs, reply, after);
        RunMore(p, s, Evict(v), SendEvents(id, ms, rs, None, reply));
        assert SendEvents(id, ms, rs, victim, reply)
            == [Evict(v)] + SendEvents(id, ms, rs, None, reply);
    }
  }

  // ---------------------------------------------------------------- a send as actions of a sender

  /** The pushes of one sender. */
  function PushActions(i: nat, es: seq<Event>): (r: seq<Action>)
    ensures |r| == |es|
  {
    seq(|es|, k requires 0 <= k < |es| => PushOne(i, es[k]))
  }

  ghost predicate OnlyPushes(es: seq<Event>) {
    forall k :: 0 <= k < |es| ==> es[k].Push?
  }

  lemma {:induction false} PushesAreActions(p: Params, s: Pool, i: nat, es: seq<Event>, left: nat, batch: nat)
    requires Resting(s.store) && Run(p, s.store, es) && OnlyPushes(es)
    requires i < |s.phases| && s.phases[i] == Passed(left) && |es| <= left
    ensures PoolRun(p, s, PushActions(i, es), batch)
    ensures PoolAfter(p, s, PushActions(i, es), batch) == Pool(After(p, s.store, es), s.phases[i := Passed(left - |es|)])
    decreases |es|
  {
    hide Resting, Enabled, Apply;
    if es != [] {
      StepKeeps(p, s.store, es[0]);
      var s1 := Pool(Apply(p, s.store, es[0]), s.phases[i := Passed(left - 1)]);
      assert forall k :: 0 <= k < |es[1..]| ==> es[1..][k] == es[k + 1];
      PushesAreActions(p, s1, i, es[1..], left - 1, batch);
      assert PushActions(i, es)[1..] == PushActions(i, es[1..]);
    } else {
      assert s.phases[i := Passed(left)] == s.phases;
    }
  }

  /** The actions of a sender that makes the whole send: check, evict when it must, push, finish. */
  ghost function SendActions(p: Params, before: Queues, i: nat, id: string, ms: seq<Message>, rs: seq<Reads>,
                             victim: Option<string>, reply: SendReply): seq<Action>
    requires |rs| == |ms|
  {
    if reply == StorageFull then [Check(i, |ms|)]
    else
      [Check(i, |ms|)]
      + (if Total(before) < p.maxMessages then []
         else match victim case Some(v) => [EvictOne(i, v)] case None => [EvictNone(i)])
      + PushActions(i, SendEvents(id, ms, rs, None, reply)) + [Finish(i)]
  }

  lemma OneAction(p: Params, s: Pool, a: Action, batch: nat)
    requires Possible(p, s, a, batch)
    ensures PoolRun(p, s, [a], batch) && PoolAfter(p, s, [a], batch) == Act(p, s, a, batch)
  {
    hide Possible, Act;
    assert [a][1..] == [];
  }

  lemma SendEventsPush(id: string, ms: seq<Message>, rs: seq<Reads>, reply: SendReply)
    requires |rs| == |ms|
    ensures var es := SendEvents(id, ms, rs, None, reply);
            |es| <= |ms| && OnlyPushes(es)
  {
  }

  /** The pushes and the end of a send, once its sender may push. */
  lemma PassedSend(p: Params, s: Pool, i: nat, id: string, ms: seq<Message>, rs: seq<Reads>, reply: SendReply,
                   after: Queues, batch: nat)
    requires Resting(s.store) && |rs| == |ms| && Chained(rs, s.store.clock) && reply != StorageFull
    requires i < |s.phases| && s.phases[i] == Passed(|ms|)
    requires if id !in s.store.queues then after == s.store.queues && reply == NoSuchQueue
             else
               var result := SendBatch(p, s.store.queues[id], ms, rs, |s.store.ledger|);
               && after == s.store.queues[id := result.queue]
               && reply == if result.refused then MissingDedupId(result.sent) else Accepted(result.sent)
    ensures var acts := PushActions(i, SendEvents(id, ms, rs, None, reply)) + [Finish(i)];
            && PoolRun(p, s, acts, batch) && PoolAfter(p, s, acts, batch).store.queues == after
            && PoolAfter(p, s, acts, batch).phases == s.phases[i := Idle]
  {
    hide SendBatch, SendEvents, Run, After, Chained, Inv, PoolRun, PoolAfter, PushActions;
    var es := SendEvents(id, ms, rs, None, reply);
    SendAfterEviction(p, s.store, id, ms, rs, reply, after);
    SendEventsPush(id, ms, rs, reply);
    PushesAreActions(p, s, i, es, |ms|, batch);
    RunKeeps(p, s.store, es);
    var s1 := PoolAfter(p, s, PushActions(i, es), batch);
    OneAction(p, s1, Finish(i), batch);
    PoolJoin(p, s, PushActions(i, es), [Finish(i)], batch);
  }

  /** A whole send, as the class performs it, is a run of the actions of one sender: what is proved
      of any number of senders in any interleaving holds of it. */
  lemma SendIsActions(p: Params, s: Pool, i: nat, id: string, ms: seq<Message>, rs: seq<Reads>, victim: Option<string>,
                      reply: SendReply, after: Queues, batch: nat)
    requires Resting(s.store) && i < |s.phases| && s.phases[i].Idle? && |rs| == |ms| <= batch && Chained(rs, s.store.clock)
    requires SendStep(p, s.store.queues, id, ms, rs, |s.store.ledger|, victim, reply, after)
    ensures var acts := SendActions(p, s.store.queues, i, id, ms, rs, victim, reply);
            PoolRun(p, s, acts, batch) && PoolAfter(p, s, acts, batch).store.queues == after
            && PoolAfter(p, s, acts, batch).phases == s.phases
  {
    hide Inv, SendBatch, SendEvents, Chained, Total, PoolRun, PoolAfter, PushActions, Apply;
    var check := Check(i, |ms|);
    OneAction(p, s, check, batch);
    var s1 := Act(p, s, check, batch);
    if reply != StorageFull {
      var pushes := PushActions(i, SendEvents(id, ms, rs, None, reply)) + [Finish(i)];
      if Total(s.store.queues) < p.maxMessages {
        PassedSend(p, s1, i, id, ms, rs, reply, after, batch);
        PoolJoin(p, s, [check], pushes, batch);
        assert [check] + [] + PushActions(i, SendEvents(id, ms, rs, None, reply)) + [Finish(i)]
            == [check] + pushes;
        assert s.phases[i := Passed(|ms|)][i := Idle] == s.phases;
      } else {
        var out := match victim case Some(v) => EvictOne(i, v) case None => EvictNone(i);
        Evicting(p, s1, i, |ms|, victim, batch);
        OneAction(p, s1, out, batch);
        var s2 := Act(p, s1, out, batch);
        SendEventsPush(id, ms, rs, reply);
        PassedSend(p, s2, i, id, ms, rs, reply, after, batch);
        PoolJoin(p, s1, [out], pushes, batch);
        PoolJoin(p, s, [check], [out] + pushes, batch);
        assert [check] + [out] + PushActions(i, SendEvents(id, ms, rs, None, reply)) + [Finish(i)]
            == [check] + ([out] + pushes);
        assert s.phases[i := MustEvict(|ms|)][i := Passed(|ms|)][i := Idle] == s.phases;
      }
    }
  }

  lemma Evicting(p: Params, s: Pool, i: nat, n: nat, victim: Option<string>, batch: nat)
    requires Resting(s.store) && i < |s.phases| && s.phases[i] == MustEvict(n)
    requires match victim case Some(v) => Victim(p.policy, s.store.queues, v) case None => NothingAvailable(s.store.queues)
    ensures var out := match victim case Some(v) => EvictOne(i, v) case None => EvictNone(i);
            && Possible(p, s, out, batch)
            && var s' := Act(p, s, out, batch);
               && Resting(s'.store) && s'.phases == s.phases[i := Passed(n)] && s'.store.clock == s.store.clock
               && |s'.store.ledger| == |s.store.ledger|
               && s'.store.queues == match victim case Some(v) => EvictFront(s.store.queues, v) case None => s.store.queues
  {
    hide Inv;
    match victim {
      case Some(v) => EvictEvent(p, s.store, v);
      case None =>
    }
  }

  // ---------------------------------------------------------------- what a send removes

  /** The queue whose first message goes first: under Lru the one not accessed for the longest time,
      under Fifo the one whose first message was sent first, among those with something available. */
  ghost predicate GoesFirst(policy: EvictionPolicy, qs: Queues, v: string) {
    && v in qs && qs[v].available != []
    && forall x :: x in qs && qs[x].available != [] ==>
         && (policy.Lru? ==> qs[v].lastAccess <= qs[x].lastAccess)
         && (policy.Fifo? ==> qs[v].available[0].message.sentAt <= qs[x].available[0].message.sentAt)
  }

  /** The deque of a queue before the messages sent are added. */
  function Base(qs: Queues, x: string, victim: Option<string>): seq<Stored>
    requires x in qs
  {
    if victim == Some(x) && qs[x].available != [] then qs[x].available[1..] else qs[x].available
  }

  /** Every queue but `id` has its base and is otherwise as before; `id` has at most n messages more,
      behind it. */
  ghost predicate Sending(before: Queues, after: Queues, id: string, victim: Option<string>, n: nat) {
    && after.Keys == before.Keys
    && forall x :: x in before ==>
         && after[x].inFlight == before[x].inFlight && after[x].config == before[x].config
         && if x == id
            then Base(before, x, victim) <= after[x].available && |after[x].available| <= |Base(before, x, victim)| + n
            else after[x] == before[x].(available := Base(before, x, victim))
  }

  lemma {:induction false} BatchAppends(p: Params, q: Queue, ms: seq<Message>, rs: seq<Reads>, ticket: nat)
    requires |rs| == |ms|
    ensures var q' := SendBatch(p, q, ms, rs, ticket).queue;
            && q.available <= q'.available && |q'.available| <= |q.available| + |ms|
            && q'.inFlight == q.inFlight && q'.config == q.config
    decreases |ms|
  {
    if ms != [] {
      var one := SendOne(p, q, ms[0], rs[0], ticket);
      if !one.outcome.Refused? {
        BatchAppends(p, one.queue, ms[1..], rs[1..], ticket + if one.outcome.Sent? then 1 else 0);
      }
    }
  }

  lemma VictimGoesFirst(policy: EvictionPolicy, qs: Queues, v: string)
    requires Victim(policy, qs, v)
    ensures GoesFirst(policy, qs, v)
  {
  }

  ghost function Evicted(qs: Queues, victim: Option<string>): Queues
    requires victim.Some? ==> victim.value in qs && qs[victim.value].available != []
  {
    if victim.Some? then EvictFront(qs, victim.value) else qs
  }

  lemma EvictedTotal(qs: Queues, v: string)
    requires v in qs && qs[v].available != []
    ensures Total(Evicted(qs, Some(v))) == Total(qs) - 1
  {
    hide Total;
    TotalUpdate(qs, v, Evicted(qs, Some(v))[v]);
  }

  lemma NothingSent(before: Queues, id: string, victim: Option<string>, n: nat)
    requires victim.Some? ==> victim.value in before && before[victim.value].available != []
    ensures Sending(before, Evicted(before, victim), id, victim, n)
  {
  }

  lemma BatchSent(p: Params, before: Queues, id: string, ms: seq<Message>, rs: seq<Reads>, ticket: nat, victim: Option<string>)
    requires |rs| == |ms| && id in before
    requires victim.Some? ==> victim.value in before && before[victim.value].available != []
    ensures var qs := Evicted(before, victim);
            var after := qs[id := SendBatch(p, qs[id], ms, rs, ticket).queue];
            Sending(before, after, id, victim, |ms|) && Total(after) <= Total(qs) + |ms|
  {
    hide SendBatch, Total;
    var qs := Evicted(before, victim);
    BatchAppends(p, qs[id], ms, rs, ticket);
    TotalUpdate(qs, id, SendBatch(p, qs[id], ms, rs, ticket).queue);
  }

  /** What a send leaves of what was there. A full store under RejectNew is left alone; a full store
      under another policy loses exactly the first available message of one queue that goes first,
      also when the queue does not exist or a message is refused; in every other case nothing is
      lost. And a single send to a full store that evicts leaves no more than there was. */
  lemma FullSendEvictsOne(p: Params, before: Queues, id: string, ms: seq<Message>, rs: seq<Reads>, ticket: nat,
                          victim: Option<string>, reply: SendReply, after: Queues)
    requires |rs| == |ms| && SendStep(p, before, id, ms, rs, ticket, victim, reply, after)
    ensures var full := Total(before) >= p.maxMessages;
            var something := exists x :: x in before && before[x].available != [];
            if full && p.policy.RejectNew? then reply == StorageFull && after == before
            else
              && reply != StorageFull
              && if full && something
                 then && victim.Some? && GoesFirst(p.policy, before, victim.value)
                      && Sending(before, after, id, victim, |ms|)
                      && Total(after) <= Total(before) - 1 + |ms|
                 else Sending(before, after, id, None, |ms|)
  {
    hide SendBatch, Total, Sending, GoesFirst, Victim;
    if reply != StorageFull {
      if victim.Some? {
        assert victim.value in before && before[victim.value].available != [] by { VictimExists(p.policy, before, victim.value); }
        VictimGoesFirst(p.policy, before, victim.value);
        EvictedTotal(before, victim.value);
      }
      var qs := Evicted(before, victim);
      assert id in qs <==> id in before;
      if id in qs {
        BatchSent(p, before, id, ms, rs, ticket, victim);
      } else {
        NothingSent(before, id, victim, |ms|);
      }
    }
  }

  lemma VictimExists(policy: EvictionPolicy, qs: Queues, v: string)
    requires Victim(policy, qs, v)
    ensures v in qs && qs[v].available != []
  {
  }
}

/** Publishing to a topic: a batch send to every subscription in turn, stopping at the first that
    fails, and one delivery task for every message and push subscription. */
module Fanout {
  import opened Types
  import opened QueueModel
  import opened PushQueue
  import opened Backend

  /** The copies one subscription gets. */
  function Copies(messages: seq<Message>, subscription: Subscription): (r: seq<Message>)
    ensures |r| == |messages|
  {
    seq(|messages|, k requires 0 <= k < |messages| => messages[k].(queueId := subscription.id))
  }

  function Ids(messages: seq<Message>): seq<string> {
    seq(|messages|, k requires 0 <= k < |messages| => messages[k].id)
  }

  lemma CopiesKeepIds(messages: seq<Message>, subscriptions: seq<Subscription>)
    ensures forall i :: 0 <= i < |subscriptions| ==> Ids(Copies(messages, subscriptions[i])) == Ids(messages)
  {
  }

  /** The clock readings of one batch send and the ticket of its first copy. */
  datatype Attempt = Attempt(clocks: seq<Reads>, ticket: nat)

  datatype Step = Step(victim: Option<string>, reply: SendReply)

  ghost predicate Attemptable(messages: seq<Message>, subscriptions: seq<Subscription>, attempts: seq<Attempt>) {
    |attempts| == |subscriptions| && forall i :: 0 <= i < |attempts| ==> |attempts[i].clocks| == |messages|
  }

  /** The sends made, with the queues before the first and after each. */
  ghost predicate Sends(p: Params, subscriptions: seq<Subscription>, messages: seq<Message>, attempts: seq<Attempt>,
                        steps: seq<Step>, trace: seq<Queues>)
    requires Attemptable(messages, subscriptions, attempts)
  {
    && |trace| == |steps| + 1 && |steps| <= |subscriptions|
    && (forall i :: 0 <= i < |steps| ==>
          SendStep(p, trace[i], subscriptions[i].id, Copies(messages, subscriptions[i]), attempts[i].clocks,
                   attempts[i].ticket, steps[i].victim, steps[i].reply, trace[i + 1]))
  }

  ghost predicate AllAccepted(steps: seq<Step>) {
    forall i :: 0 <= i < |steps| ==> steps[i].reply.Accepted?
  }

  /** The sends go through the subscriptions and stop at the first that is not accepted. */
  ghost predicate FanOut(p: Params, subscriptions: seq<Subscription>, messages: seq<Message>, attempts: seq<Attempt>,
                         steps: seq<Step>, trace: seq<Queues>)
    requires Attemptable(messages, subscriptions, attempts)
  {
    && Sends(p, subscriptions, messages, attempts, steps, trace)
    && (|steps| < |subscriptions| ==> steps != [])
    && (steps != [] ==> AllAccepted(steps[..|steps| - 1]))
    && (|steps| < |subscriptions| ==> !steps[|steps| - 1].reply.Accepted?)
  }

  ghost predicate Succeeded(subscriptions: seq<Subscription>, steps: seq<Step>) {
    |steps| == |subscriptions| && AllAccepted(steps)
  }

  // ---------------------------------------------------------------- delivery tasks

  function PairsOf(subscription: Subscription, messages: seq<Message>): (r: seq<(Subscription, Message)>)
    ensures |r| == |messages|
  {
    seq(|messages|, k requires 0 <= k < |messages| => (subscription, messages[k]))
  }

  /** The pairs to deliver: for each push subscription, every message in order. */
  function Deliveries(subscriptions: seq<Subscription>, messages: seq<Message>): seq<(Subscription, Message)> {
    if subscriptions == [] then []
    else
      (if subscriptions[0].push.Some? then PairsOf(subscriptions[0], messages) else [])
      + Deliveries(subscriptions[1..], messages)
  }

  function PushOnes(subscriptions: seq<Subscription>): seq<Subscription> {
    if subscriptions == [] then []
    else (if subscriptions[0].push.Some? then [subscriptions[0]] else []) + PushOnes(subscriptions[1..])
  }

  function Tasks(deliveries: seq<(Subscription, Message)>, ticket: nat, dues: seq<nat>): seq<Task>
    requires |deliveries| <= |dues|
  {
    seq(|deliveries|, k requires 0 <= k < |deliveries| =>
      Task(ticket + k, deliveries[k].1, deliveries[k].0, 0, dues[k]))
  }

  lemma {:induction false} DeliveryCount(subscriptions: seq<Subscription>, messages: seq<Message>)
    ensures |Deliveries(subscriptions, messages)| == |PushOnes(subscriptions)| * |messages|
  {
    if subscriptions != [] {
      DeliveryCount(subscriptions[1..], messages);
      var n := |PushOnes(subscriptions[1..])|;
      assert (n + 1) * |messages| == n * |messages| + |messages|;
    }
  }

  /** Every message goes to every push subscription, and nothing else does. */
  lemma {:induction false} DeliveryAt(subscriptions: seq<Subscription>, messages: seq<Message>, j: nat, i: nat)
    requires j < |PushOnes(subscriptions)| && i < |messages|
    ensures 0 <= j * |messages| + i < |Deliveries(subscriptions, messages)|
    ensures Deliveries(subscriptions, messages)[j * |messages| + i] == (PushOnes(subscriptions)[j], messages[i])
  {
    var rest, n := subscriptions[1..], |messages|;
    if subscriptions[0].push.None? {
      DeliveryAt(rest, messages, j, i);
    } else if j > 0 {
      DeliveryAt(rest, messages, j - 1, i);
      assert j * n == (j - 1) * n + n;
    }
  }

  // ---------------------------------------------------------------- a batch to a plain queue

  /** What a queue that is not FIFO stores for a batch. */
  function StoredAll(config: QueueConfig, ms: seq<Message>, rs: seq<Reads>, ticket: nat): (r: seq<Stored>)
    requires |rs| == |ms|
    ensures |r| == |ms|
  {
    seq(|ms|, k requires 0 <= k < |ms| => Stored(ticket + k, ms[k], rs[k].stamp + Delay(config, ms[k]) * SECOND))
  }

  function Filled(q: Queue, ms: seq<Message>, rs: seq<Reads>, ticket: nat): Queue
    requires |rs| == |ms|
  {
    q.(available := q.available + StoredAll(q.config, ms, rs, ticket),
       lastAccess := if rs == [] then q.lastAccess else rs[|rs| - 1].access)
  }

  function First(config: QueueConfig, m: Message, r: Reads, ticket: nat): Stored {
    Stored(ticket, m, r.stamp + Delay(config, m) * SECOND)
  }

  lemma PlainOne(p: Params, q: Queue, m: Message, r: Reads, ticket: nat)
    requires !q.config.queueType.SqsFifo?
    ensures SendOne(p, q, m, r, ticket)
         == SendResult(q.(available := q.available + [First(q.config, m, r, ticket)], lastAccess := r.access), Sent(m))
  {
  }

  lemma StoredMore(config: QueueConfig, a: seq<Stored>, ms: seq<Message>, rs: seq<Reads>, ticket: nat)
    requires |rs| == |ms| > 0
    ensures a + [First(config, ms[0], rs[0], ticket)] + StoredAll(config, ms[1..], rs[1..], ticket + 1)
         == a + StoredAll(config, ms, rs, ticket)
  {
    assert StoredAll(config, ms, rs, ticket)
        == [First(config, ms[0], rs[0], ticket)] + StoredAll(config, ms[1..], rs[1..], ticket + 1);
  }

  lemma {:induction false} PlainBatch(p: Params, q: Queue, ms: seq<Message>, rs: seq<Reads>, ticket: nat)
    requires |rs| == |ms| && !q.config.queueType.SqsFifo?
    ensures var result := SendBatch(p, q, ms, rs, ticket);
            result.queue == Filled(q, ms, rs, ticket) && result.sent == ms && !result.refused
    decreases |ms|
  {
    hide SendOne, SendBatch, First, StoredAll;
    if ms == [] {
      SendBatchEnd(p, q, ms, rs, ticket);
      assert q.available + StoredAll(q.config, ms, rs, ticket) == q.available;
    } else {
      PlainOne(p, q, ms[0], rs[0], ticket);
      SendBatchStep(p, q, ms, rs, ticket);
      PlainBatch(p, SendOne(p, q, ms[0], rs[0], ticket).queue, ms[1..], rs[1..], ticket + 1);
      StoredMore(q.config, q.available, ms, rs, ticket);
      assert ms == [ms[0]] + ms[1..];
    }
  }

  /** Below the limit a send evicts nothing; it fails exactly when the queue does not exist. */
  lemma PlainSend(p: Params, before: Queues, id: string, ms: seq<Message>, rs: seq<Reads>, ticket: nat,
                  step: Step, after: Queues)
    requires |rs| == |ms| && SendStep(p, before, id, ms, rs, ticket, step.victim, step.reply, after)
    requires Total(before) < p.maxMessages && (id in before ==> !before[id].config.queueType.SqsFifo?)
    ensures if id in before then after == before[id := Filled(before[id], ms, rs, ticket)] && step.reply == Accepted(ms)
            else after == before && step.reply == NoSuchQueue
    ensures Total(after) <= Total(before) + |ms|
  {
    hide SendBatch, Total, StoredAll;
    if id in before {
      PlainBatch(p, before[id], ms, rs, ticket);
      TotalUpdate(before, id, Filled(before[id], ms, rs, ticket));
    }
  }

  // ---------------------------------------------------------------- the whole fan-out

  /** What each of the first n subscriptions has, the others being as before. */
  ghost predicate Spread(before: Queues, after: Queues, subscriptions: seq<Subscription>, messages: seq<Message>,
                         attempts: seq<Attempt>, n: nat)
    requires Attemptable(messages, subscriptions, attempts) && n <= |subscriptions|
  {
    && after.Keys == before.Keys
    && (forall i :: 0 <= i < n ==> subscriptions[i].id in before)
    && (forall i :: 0 <= i < n ==>
          after[subscriptions[i].id]
             == Filled(before[subscriptions[i].id], Copies(messages, subscriptions[i]), attempts[i].clocks, attempts[i].ticket))
    && (forall id :: id in before && (forall i :: 0 <= i < n ==> subscriptions[i].id != id) ==> after[id] == before[id])
  }

  ghost predicate HaveQueues(subscriptions: seq<Subscription>, qs: Queues) {
    forall i :: 0 <= i < |subscriptions| ==> subscriptions[i].id in qs
  }

  ghost predicate DistinctIds(subscriptions: seq<Subscription>) {
    forall i, j :: 0 <= i < j < |subscriptions| ==> subscriptions[i].id != subscriptions[j].id
  }

  /** Room for every send to start below the limit, and no FIFO queue among the subscriptions. */
  ghost predicate Roomy(p: Params, before: Queues, subscriptions: seq<Subscription>, messages: seq<Message>) {
    && (forall i :: 0 <= i < |subscriptions| ==> Total(before) + i * |messages| < p.maxMessages)
    && (forall i :: 0 <= i < |subscriptions| && subscriptions[i].id in before ==>
          !before[subscriptions[i].id].config.queueType.SqsFifo?)
  }

  lemma SpreadMore(before: Queues, mid: Queues, subscriptions: seq<Subscription>, messages: seq<Message>,
                   attempts: seq<Attempt>, k: nat)
    requires Attemptable(messages, subscriptions, attempts) && k < |subscriptions| && DistinctIds(subscriptions)
    requires Spread(before, mid, subscriptions, messages, attempts, k) && subscriptions[k].id in before
    ensures Spread(before, mid[subscriptions[k].id := Filled(before[subscriptions[k].id], Copies(messages, subscriptions[k]),
                                                             attempts[k].clocks, attempts[k].ticket)],
                   subscriptions, messages, attempts, k + 1)
  {
    hide Filled, Copies;
  }

  lemma {:induction false} PrefixSpread(p: Params, subscriptions: seq<Subscription>, messages: seq<Message>,
                                        attempts: seq<Attempt>, steps: seq<Step>, trace: seq<Queues>, n: nat)
    requires Attemptable(messages, subscriptions, attempts)
    requires FanOut(p, subscriptions, messages, attempts, steps, trace) && |trace| == |steps| + 1 && |steps| <= |subscriptions|
    requires DistinctIds(subscriptions) && Roomy(p, trace[0], subscriptions, messages)
    requires n <= |steps| && AllAccepted(steps[..n])
    ensures Spread(trace[0], trace[n], subscriptions, messages, attempts, n)
    ensures Total(trace[n]) <= Total(trace[0]) + n * |messages|
    ensures forall i :: 0 <= i < n ==> steps[i].reply == Accepted(Copies(messages, subscriptions[i]))
  {
    hide SendStep, Filled, Total, Copies, FanOut, Spread, Roomy, DistinctIds;
    if n == 0 {
      SpreadNone(trace[0], subscriptions, messages, attempts);
    } else {
      var k := n - 1;
      assert forall i :: 0 <= i < k ==> steps[..n][i] == steps[..k][i] == steps[i];
      PrefixSpread(p, subscriptions, messages, attempts, steps, trace, k);
      assert steps[..n][k] == steps[k];
      assert n * |messages| == k * |messages| + |messages|;
      StepFrom(p, subscriptions, messages, attempts, steps, trace, k);
      SpreadMore(trace[0], trace[k], subscriptions, messages, attempts, k);
    }
  }

  lemma SpreadNone(before: Queues, subscriptions: seq<Subscription>, messages: seq<Message>, attempts: seq<Attempt>)
    requires Attemptable(messages, subscriptions, attempts)
    ensures Spread(before, before, subscriptions, messages, attempts, 0)
  {
  }

  /** One send, made from queues that are spread so far. */
  lemma StepFrom(p: Params, subscriptions: seq<Subscription>, messages: seq<Message>,
                 attempts: seq<Attempt>, steps: seq<Step>, trace: seq<Queues>, k: nat)
    requires Attemptable(messages, subscriptions, attempts)
    requires FanOut(p, subscriptions, messages, attempts, steps, trace)
    requires DistinctIds(subscriptions) && Roomy(p, trace[0], subscriptions, messages)
    requires k < |steps| && Spread(trace[0], trace[k], subscriptions, messages, attempts, k)
    requires Total(trace[k]) <= Total(trace[0]) + k * |messages|
    ensures var id, ms := subscriptions[k].id, Copies(messages, subscriptions[k]);
            if id in trace[0]
            then && trace[k + 1] == trace[k][id := Filled(trace[0][id], ms, attempts[k].clocks, attempts[k].ticket)]
                 && steps[k].reply == Accepted(ms)
            else trace[k + 1] == trace[k] && steps[k].reply == NoSuchQueue
    ensures Total(trace[k + 1]) <= Total(trace[k]) + |messages|
  {
    hide SendStep, Filled, Total;
    var id := subscriptions[k].id;
    assert id in trace[0] <==> id in trace[k];
    assert id in trace[0] ==> trace[k][id] == trace[0][id];
    assert SendStep(p, trace[k], id, Copies(messages, subscriptions[k]), attempts[k].clocks, attempts[k].ticket,
                    steps[k].victim, steps[k].reply, trace[k + 1]);
    PlainSend(p, trace[k], id, Copies(messages, subscriptions[k]), attempts[k].clocks, attempts[k].ticket,
              steps[k], trace[k + 1]);
  }

  /** Below capacity: when every subscription has its queue, each queue has its old messages
      followed by copies of all the published ones in order, and no other queue changes. When one
      is missing, exactly the subscriptions before it have copies. */
  lemma FanOutSpreads(p: Params, subscriptions: seq<Subscription>, messages: seq<Message>,
                      attempts: seq<Attempt>, steps: seq<Step>, trace: seq<Queues>)
    requires Attemptable(messages, subscriptions, attempts)
    requires FanOut(p, subscriptions, messages, attempts, steps, trace)
    requires DistinctIds(subscriptions) && Roomy(p, trace[0], subscriptions, messages)
    ensures Succeeded(subscriptions, steps) <==> HaveQueues(subscriptions, trace[0])
    ensures if Succeeded(subscriptions, steps)
            then Spread(trace[0], trace[|steps|], subscriptions, messages, attempts, |steps|)
            else && |steps| > 0 && subscriptions[|steps| - 1].id !in trace[0]
                 && Spread(trace[0], trace[|steps|], subscriptions, messages, attempts, |steps| - 1)
    ensures forall i :: 0 <= i < |steps| && steps[i].reply.Accepted? ==>
              steps[i].reply.messages == Copies(messages, subscriptions[i])
              && Ids(steps[i].reply.messages) == Ids(messages)
  {
    hide SendStep, Filled, Total, Copies, Ids;
    CopiesKeepIds(messages, subscriptions);
    var n := |steps|;
    assert steps[..n] == steps;
    if Succeeded(subscriptions, steps) {
      PrefixSpread(p, subscriptions, messages, attempts, steps, trace, n);
    } else {
      PrefixSpread(p, subscriptions, messages, attempts, steps, trace, n - 1);
      StepFrom(p, subscriptions, messages, attempts, steps, trace, n - 1);
    }
  }

  /** The new entries of a subscription, one by one: the published message with all that came with
      it, under the id of the subscription, due after its own delay or the queue's. */
  lemma SpreadByFields(before: Queues, after: Queues, subscriptions: seq<Subscription>, messages: seq<Message>,
                       attempts: seq<Attempt>, n: nat, i: nat, k: nat)
    requires Attemptable(messages, subscriptions, attempts) && i < n <= |subscriptions| && k < |messages|
    requires Spread(before, after, subscriptions, messages, attempts, n)
    ensures var id := subscriptions[i].id;
            && id in before && id in after && |after[id].available| == |before[id].available| + |messages|
            && var e, m, delay := after[id].available[|before[id].available| + k], messages[k], before[id].config.delaySeconds;
               && e.message.id == m.id && e.message.body == m.body && e.message.attributes == m.attributes
               && e.message.queueId == id && e.message.sentAt == m.sentAt && e.message.receiveCount == m.receiveCount
               && e.message.groupId == m.groupId && e.message.dedupId == m.dedupId && e.message.sequence == m.sequence
               && e.message.delay == m.delay
               && e.visibleAt == attempts[i].clocks[k].stamp + (if m.delay.Some? then m.delay.value else delay) * SECOND
  {
    var id := subscriptions[i].id;
    assert after[id] == Filled(before[id], Copies(messages, subscriptions[i]), attempts[i].clocks, attempts[i].ticket);
  }

  /** The task of each delivery starts at attempt 0 and is for this message and subscription. */
  lemma TaskAt(subscriptions: seq<Subscription>, messages: seq<Message>, ticket: nat, dues: seq<nat>, j: nat, i: nat)
    requires |Deliveries(subscriptions, messages)| <= |dues|
    requires j < |PushOnes(subscriptions)| && i < |messages|
    ensures var at := j * |messages| + i;
            0 <= at < |Deliveries(subscriptions, messages)|
            && var task := Tasks(Deliveries(subscriptions, messages), ticket, dues)[at];
               && task.message == messages[i] && task.subscription == PushOnes(subscriptions)[j]
               && task.attempt == 0 && task.due == dues[at]
  {
    hide Deliveries, PushOnes;
    DeliveryAt(subscriptions, messages, j, i);
  }

  // ---------------------------------------------------------------- the loops of the source

  datatype PublishReply = NoSuchTopic | Failed | Published(ids: seq<string>)

  /** The subscriptions come in the order of a hash map, which may be any; the messages are
      already converted. */
  method Publish(backend: InMemoryBackend, queue: DeliveryQueue, topic: string, subscriptions: seq<Subscription>,
                 messages: seq<Message>, attempts: seq<Attempt>, dues: seq<nat>, firstTask: nat)
    returns (reply: PublishReply, steps: seq<Step>, ghost trace: seq<Queues>)
    requires backend.Valid() && queue.Valid() && Attemptable(messages, subscriptions, attempts)
    requires |Deliveries(subscriptions, messages)| <= |dues|
    modifies backend.queues.Values, queue
    ensures queue.Valid()
    ensures if topic !in old(backend.View()) then reply == NoSuchTopic && backend.View() == old(backend.View())
            else && FanOut(backend.params, subscriptions, messages, attempts, steps, trace)
                 && trace[0] == old(backend.View()) && trace[|steps|] == backend.View()
                 && reply == if Succeeded(subscriptions, steps) then Published(Ids(messages)) else Failed
    ensures topic in old(backend.View()) && DistinctIds(subscriptions)
            && Roomy(backend.params, old(backend.View()), subscriptions, messages) ==>
              if HaveQueues(subscriptions, old(backend.View()))
              then && reply == Published(Ids(messages))
                   && Spread(old(backend.View()), backend.View(), subscriptions, messages, attempts, |subscriptions|)
              else && reply == Failed && 0 < |steps| <= |subscriptions|
                   && subscriptions[|steps| - 1].id !in old(backend.View())
                   && Spread(old(backend.View()), backend.View(), subscriptions, messages, attempts, |steps| - 1)
    ensures queue.Bag() == old(queue.Bag())
              + if reply.Published? then multiset(Tasks(Deliveries(subscriptions, messages), firstTask, dues)) else multiset{}
  {
    hide Sends, AllAccepted, Deliveries, Tasks, Ids, Roomy, DistinctIds, Spread, HaveQueues;
    steps, trace := [], [backend.View()];
    if topic !in backend.queues {
      return NoSuchTopic, steps, trace;
    }
    if subscriptions == [] {
      NoSends(backend.params, messages, attempts, trace[0]);
      NoDeliveries(messages, firstTask, dues);
      SpreadNone(trace[0], subscriptions, messages, attempts);
      NoQueuesNeeded(trace[0]);
      return Published(Ids(messages)), steps, trace;
    }
    var ids;
    ids, steps, trace := SendToAll(backend, subscriptions, messages, attempts);
    WhenRoomy(backend.params, subscriptions, messages, attempts, steps, trace);
    if ids.None? {
      return Failed, steps, trace;
    }
    reply := Published(ids.value);
    EnqueuePushSubscriptions(queue, subscriptions, messages, dues, firstTask);
  }

  /** FanOutSpreads for callers that do not know whether there is room. */
  lemma WhenRoomy(p: Params, subscriptions: seq<Subscription>, messages: seq<Message>,
                  attempts: seq<Attempt>, steps: seq<Step>, trace: seq<Queues>)
    requires Attemptable(messages, subscriptions, attempts)
    requires FanOut(p, subscriptions, messages, attempts, steps, trace)
    ensures |steps| <= |subscriptions|
    ensures DistinctIds(subscriptions) && Roomy(p, trace[0], subscriptions, messages) ==>
              && (Succeeded(subscriptions, steps) <==> HaveQueues(subscriptions, trace[0]))
              && if Succeeded(subscriptions, steps)
                 then Spread(trace[0], trace[|steps|], subscriptions, messages, attempts, |steps|)
                 else && |steps| > 0 && subscriptions[|steps| - 1].id !in trace[0]
                      && Spread(trace[0], trace[|steps|], subscriptions, messages, attempts, |steps| - 1)
  {
    hide DistinctIds, Roomy, Spread, Succeeded, SendStep;
    if DistinctIds(subscriptions) && Roomy(p, trace[0], subscriptions, messages) {
      FanOutSpreads(p, subscriptions, messages, attempts, steps, trace);
    }
  }

  /** An accepted batch answers with the ids it was given, whatever the type of the queue. */
  lemma {:induction false} SentIds(p: Params, q: Queue, ms: seq<Message>, rs: seq<Reads>, ticket: nat)
    requires |rs| == |ms| && !SendBatch(p, q, ms, rs, ticket).refused
    ensures Ids(SendBatch(p, q, ms, rs, ticket).sent) == Ids(ms)
    decreases |ms|
  {
    hide SendOne, SendBatch;
    if ms == [] {
      SendBatchEnd(p, q, ms, rs, ticket);
    } else {
      var one := SendOne(p, q, ms[0], rs[0], ticket);
      SendBatchStep(p, q, ms, rs, ticket);
      OneId(p, q, ms[0], rs[0], ticket);
      SentIds(p, one.queue, ms[1..], rs[1..], ticket + if one.outcome.Sent? then 1 else 0);
      var sent := SendBatch(p, q, ms, rs, ticket).sent;
      assert Ids(sent) == [sent[0].id] + Ids(sent[1..]);
      assert Ids(ms) == [ms[0].id] + Ids(ms[1..]);
    }
  }

  lemma OneId(p: Params, q: Queue, m: Message, r: Reads, ticket: nat)
    ensures var outcome := SendOne(p, q, m, r, ticket).outcome; !outcome.Refused? ==> outcome.message.id == m.id
  {
  }

  lemma AcceptedIds(p: Params, before: Queues, id: string, ms: seq<Message>, rs: seq<Reads>, ticket: nat,
                    step: Step, after: Queues)
    requires |rs| == |ms| && SendStep(p, before, id, ms, rs, ticket, step.victim, step.reply, after)
    ensures step.reply.Accepted? ==> Ids(step.reply.messages) == Ids(ms)
  {
    hide SendBatch, EvictStep, AfterEviction, Ids;
    if step.reply.Accepted? {
      SentIds(p, AfterEviction(p, before, false, step.victim)[id], ms, rs, ticket);
    }
  }

  lemma NoQueuesNeeded(qs: Queues)
    ensures HaveQueues([], qs)
  {
  }

  lemma NoSends(p: Params, messages: seq<Message>, attempts: seq<Attempt>, qs: Queues)
    requires Attemptable(messages, [], attempts)
    ensures Sends(p, [], messages, attempts, [], [qs]) && AllAccepted([])
  {
  }

  lemma SendsMore(p: Params, subscriptions: seq<Subscription>, messages: seq<Message>, attempts: seq<Attempt>,
                  steps: seq<Step>, trace: seq<Queues>, step: Step, after: Queues)
    requires Attemptable(messages, subscriptions, attempts)
    requires Sends(p, subscriptions, messages, attempts, steps, trace) && |steps| < |subscriptions|
    requires var i := |steps|;
             SendStep(p, trace[i], subscriptions[i].id, Copies(messages, subscriptions[i]), attempts[i].clocks,
                      attempts[i].ticket, step.victim, step.reply, after)
    ensures Sends(p, subscriptions, messages, attempts, steps + [step], trace + [after])
  {
    hide SendStep;
  }

  /** The sends; the ids returned are those of the first subscription. */
  method SendToAll(backend: InMemoryBackend, subscriptions: seq<Subscription>, messages: seq<Message>, attempts: seq<Attempt>)
    returns (ids: Option<seq<string>>, steps: seq<Step>, ghost trace: seq<Queues>)
    requires backend.Valid() && Attemptable(messages, subscriptions, attempts) && subscriptions != []
    modifies backend.queues.Values
    ensures FanOut(backend.params, subscriptions, messages, attempts, steps, trace)
    ensures trace[0] == old(backend.View()) && trace[|steps|] == backend.View()
    ensures ids.Some? <==> Succeeded(subscriptions, steps)
    ensures ids.Some? ==> ids.value == Ids(messages)
  {
    hide SendStep, Copies, Ids;
    CopiesKeepIds(messages, subscriptions);
    steps, trace := [], [backend.View()];
    var found: seq<string> := [];
    for i := 0 to |subscriptions|
      invariant backend.Valid() && backend.queues == old(backend.queues)
      invariant |steps| == i && Sends(backend.params, subscriptions, messages, attempts, steps, trace)
      invariant trace[0] == old(backend.View()) && trace[i] == backend.View() && AllAccepted(steps)
      invariant if i == 0 then found == [] else found == Ids(messages)
    {
      var answer, victim := backend.SendMessages(subscriptions[i].id, Copies(messages, subscriptions[i]),
                                                 attempts[i].clocks, attempts[i].ticket);
      SendsMore(backend.params, subscriptions, messages, attempts, steps, trace, Step(victim, answer), backend.View());
      AcceptedIds(backend.params, trace[i], subscriptions[i].id, Copies(messages, subscriptions[i]), attempts[i].clocks,
                  attempts[i].ticket, Step(victim, answer), backend.View());
      ghost var before := steps;
      steps, trace := steps + [Step(victim, answer)], trace + [backend.View()];
      assert steps[..i] == before;
      if !answer.Accepted? {
        return None, steps, trace;
      }
      if found == [] {
        found := Ids(answer.messages);
      }
    }
    ids := Some(found);
  }

  lemma NoDeliveries(messages: seq<Message>, ticket: nat, dues: seq<nat>)
    ensures Deliveries([], messages) == [] && Tasks([], ticket, dues) == []
  {
  }

  lemma TasksJoin(a: seq<(Subscription, Message)>, b: seq<(Subscription, Message)>, ticket: nat, dues: seq<nat>)
    requires |a| + |b| <= |dues|
    ensures multiset(Tasks(a + b, ticket, dues))
         == multiset(Tasks(a, ticket, dues)) + multiset(Tasks(b, ticket + |a|, dues[|a|..]))
  {
    assert Tasks(a + b, ticket, dues) == Tasks(a, ticket, dues) + Tasks(b, ticket + |a|, dues[|a|..]);
  }

  lemma OneTask(d: (Subscription, Message), ticket: nat, dues: seq<nat>)
    requires dues != []
    ensures multiset(Tasks([d], ticket, dues)) == multiset{Task(ticket, d.1, d.0, 0, dues[0])}
  {
    assert Tasks([d], ticket, dues) == [Task(ticket, d.1, d.0, 0, dues[0])];
  }

  lemma PairsMore(subscription: Subscription, messages: seq<Message>, k: nat)
    requires k < |messages|
    ensures PairsOf(subscription, messages[..k + 1]) == PairsOf(subscription, messages[..k]) + [(subscription, messages[k])]
  {
  }

  method EnqueuePushSubscriptions(queue: DeliveryQueue, subscriptions: seq<Subscription>, messages: seq<Message>,
                                  dues: seq<nat>, firstTask: nat)
    requires queue.Valid() && |Deliveries(subscriptions, messages)| <= |dues|
    modifies queue
    ensures queue.Valid()
    ensures queue.Bag() == old(queue.Bag()) + multiset(Tasks(Deliveries(subscriptions, messages), firstTask, dues))
  {
    hide PairsOf, Tasks;
    ghost var done: seq<(Subscription, Message)> := [];
    var count := 0;
    NoDeliveries(messages, firstTask, dues);
    for i := 0 to |subscriptions|
      invariant queue.Valid() && done + Deliveries(subscriptions[i..], messages) == Deliveries(subscriptions, messages)
      invariant count == |done| && queue.Bag() == old(queue.Bag()) + multiset(Tasks(done, firstTask, dues))
    {
      assert subscriptions[i..][1..] == subscriptions[i + 1..];
      if subscriptions[i].push.Some? {
        EnqueueFor(queue, subscriptions[i], messages, dues[count..], firstTask + count);
        TasksJoin(done, PairsOf(subscriptions[i], messages), firstTask, dues);
        done := done + PairsOf(subscriptions[i], messages);
        count := count + |messages|;
      }
    }
    assert done == Deliveries(subscriptions, messages);
  }

  method EnqueueFor(queue: DeliveryQueue, subscription: Subscription, messages: seq<Message>, dues: seq<nat>, firstTask: nat)
    requires queue.Valid() && |messages| <= |dues|
    modifies queue
    ensures queue.Valid()
    ensures queue.Bag() == old(queue.Bag()) + multiset(Tasks(PairsOf(subscription, messages), firstTask, dues))
  {
    hide PairsOf, Tasks;
    NoTasks(firstTask, dues);
    for k := 0 to |messages|
      invariant queue.Valid()
      invariant queue.Bag() == old(queue.Bag()) + multiset(Tasks(PairsOf(subscription, messages[..k]), firstTask, dues))
    {
      queue.Enqueue(Task(firstTask + k, messages[k], subscription, 0, dues[k]));
      PairsMore(subscription, messages, k);
      TasksJoin(PairsOf(subscription, messages[..k]), [(subscription, messages[k])], firstTask, dues);
      OneTask((subscription, messages[k]), firstTask + k, dues[k..]);
    }
    assert messages[..|messages|] == messages;
  }

  lemma NoTasks(ticket: nat, dues: seq<nat>)
    ensures Tasks([], ticket, dues) == []
  {
  }
}

/** What one worker does with a task it has fetched, on the delivery queue and the backend. The
    outcome of the HTTP request is a parameter. */
module PushWorker {
  import opened Types
  import opened QueueModel
  import opened PushQueue
  import opened PushPool
  import opened Backend

  /** What the worker is told from outside: whether the endpoint accepted the post, the clock when
      it did not, and the identity and clock readings of a dead letter. */
  datatype Surroundings = Surroundings(
    delivered: bool, now: nat, letterId: string, sentAt: nat, clocks: Reads, ticket: nat)

  /** The result `Waiting` stands for a retry that has been enqueued. */
  method HandleDeliveryTask(task: Task, queue: DeliveryQueue, backend: InMemoryBackend, o: Surroundings)
    returns (fate: Fate, victim: Option<string>, reply: Option<SendReply>)
    requires queue.Valid() && backend.Valid()
    modifies queue, backend.queues.Values
    ensures queue.Valid()
    ensures var retry := Retry(task, o.now);
            if task.subscription.push.None? then fate == Dropped(NoPushConfig)
            else if o.delivered then fate == Delivered
            else if retry.Some? then fate == Waiting
            else if task.subscription.deadLetterTopic.None? then fate == Dropped(NoDeadLetterTopic)
            else if reply.Some? && reply.value.Accepted? then fate == DeadLettered
            else fate == Dropped(DeadLetterRefused)
    ensures queue.Bag() == if fate.Waiting? then old(queue.Bag()) + multiset{Retry(task, o.now).value}
                           else old(queue.Bag())
    ensures reply.Some? <==> fate.DeadLettered? || fate == Dropped(DeadLetterRefused)
    ensures if reply.None? then backend.View() == old(backend.View())
            else
              var topic := task.subscription.deadLetterTopic.value;
              SendStep(backend.params, old(backend.View()), topic, [DeadLetter(task, topic, o.letterId, o.sentAt)],
                       [o.clocks], o.ticket, victim, reply.value, backend.View())
  {
    hide SendStep;
    victim, reply := None, None;
    if task.subscription.push.None? {
      return Dropped(NoPushConfig), None, None;
    }
    if o.delivered {
      return Delivered, None, None;
    }
    var retry := Retry(task, o.now);
    if retry.Some? {
      queue.Enqueue(retry.value);
      return Waiting, None, None;
    }
    if task.subscription.deadLetterTopic.None? {
      return Dropped(NoDeadLetterTopic), None, None;
    }
    var topic := task.subscription.deadLetterTopic.value;
    var answer;
    answer, victim := backend.SendMessages(topic, [DeadLetter(task, topic, o.letterId, o.sentAt)], [o.clocks], o.ticket);
    reply := Some(answer);
    fate := if answer.Accepted? then DeadLettered else Dropped(DeadLetterRefused);
  }
}

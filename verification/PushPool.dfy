/** Runs of the push worker pool: any number of workers sharing the delivery queue, any outcome
    of every HTTP request, any interleaving. A worker polls, posts and, when the post failed,
    settles the task; between these steps other workers and publishers may act. */
module PushPool {
  import opened Types
  import opened PushQueue
  import Backoff
  import Text

  // ---------------------------------------------------------------- one task

  function Policy(subscription: Subscription): RetryPolicy {
    if subscription.push.Some? && subscription.push.value.retryPolicy.Some?
    then subscription.push.value.retryPolicy.value
    else DEFAULT_RETRY
  }

  /** How many posts a delivery may cost. */
  function MaxPosts(subscription: Subscription): (n: nat)
    ensures 0 < n < U32_LIMIT
  {
    var n := Policy(subscription).maxAttempts;
    if n == 0 then 1 else n
  }

  /** The task to enqueue after a failed post, if any attempt is left. */
  function Retry(task: Task, now: nat): Option<Task> {
    var policy := Policy(task.subscription);
    var next := Increment(task.attempt);
    if next >= policy.maxAttempts then None
    else Some(task.(attempt := next, due := now + Backoff.Delay(policy, task.attempt) * SECOND))
  }

  /** What becomes of a task whose post failed, by the fields of its subscription: given up once the
      attempts allowed are used up, five when nothing is configured; else tried again after
      min(shortest * 2^attempt, longest) seconds. */
  lemma RetryByFields(task: Task, now: nat)
    requires task.subscription.push.Some? && task.attempt + 1 < U32_LIMIT
    ensures var config := task.subscription.push.value.retryPolicy;
            var attempts := match config case Some(given) => given.maxAttempts case None => 5;
            var shortest := match config case Some(given) => given.minBackoff case None => 10;
            var longest := match config case Some(given) => given.maxBackoff case None => 600;
            Retry(task, now)
            == if task.attempt + 1 >= attempts then None
               else Some(Task(task.ticket, task.message, task.subscription, task.attempt + 1,
                              now + Backoff.Min(shortest * Backoff.Power(task.attempt), longest) * SECOND))
  {
    hide Backoff.Delay, Backoff.Power;
    Backoff.DelayIsExact(Policy(task.subscription), task.attempt);
  }

  /** The message a task that is given up leaves on the dead-letter topic. */
  function DeadLetter(task: Task, topic: string, id: string, now: nat): Message {
    var text := (value: string) => Attribute("String", Some(value), None);
    Message(id, task.message.body,
            task.message.attributes
              ["original_subscription" := text(task.subscription.name)]
              ["failure_reason" := text("max_push_attempts_exceeded")]
              ["attempts" := text(Text.Decimal(task.attempt))],
            topic, now, 0, None, None, None, None)
  }

  // ---------------------------------------------------------------- the pool

  datatype Hand = Idle | Fetched(task: Task) | Failed(task: Task)

  datatype Loss = NoPushConfig | NoDeadLetterTopic | DeadLetterRefused

  datatype Fate = Waiting | Held(worker: nat, failed: bool) | Delivered | DeadLettered | Dropped(loss: Loss)

  /** The history of one delivery: how often it was posted, when the attempt before the current
      one failed, and how many seconds its retries were put off in all. */
  datatype Job = Job(first: Task, current: Task, posts: nat, failedAt: nat, waited: nat, fate: Fate)

  datatype Pool = Pool(waiting: multiset<Task>, hands: seq<Hand>, jobs: seq<Job>, clock: nat)

  datatype Event =
    | Enqueue(message: Message, subscription: Subscription, now: nat)
    | Poll(worker: nat, now: nat, result: Option<Task>)
    | Post(worker: nat, delivered: bool)
    | Settle(worker: nat, now: nat, accepted: bool)

  function Start(workers: nat): Pool {
    Pool(multiset{}, seq(workers, _ => Idle), [], 0)
  }

  ghost predicate Over(fate: Fate) {
    fate.Delivered? || fate.DeadLettered? || fate.Dropped?
  }

  /** Posts made beyond the attempt number the current task carries. */
  function Extra(fate: Fate): nat {
    match fate
    case Waiting => 0
    case Held(_, failed) => if failed then 1 else 0
    case Delivered => 1
    case DeadLettered => 1
    case Dropped(loss) => if loss.NoPushConfig? then 0 else 1
  }

  ghost predicate JobOk(j: Job, k: nat) {
    var policy := Policy(j.first.subscription);
    && j.first.ticket == k && j.first.attempt == 0
    && j.current == j.first.(attempt := j.current.attempt, due := j.current.due)
    && j.current.attempt < MaxPosts(j.first.subscription)
    && j.posts == j.current.attempt + Extra(j.fate)
    && j.waited == Backoff.Waited(policy, j.current.attempt)
    && (j.current.attempt > 0 ==>
          j.current.due == j.failedAt + Backoff.Delay(policy, j.current.attempt - 1) * SECOND)
    && (j.first.subscription.push.None? ==> j.posts == 0)
    && (j.fate == Dropped(NoPushConfig) ==> j.first.subscription.push.None?)
    && (j.fate.DeadLettered? || (j.fate.Dropped? && j.fate.loss != NoPushConfig) ==>
          j.posts == MaxPosts(j.first.subscription))
    && (j.fate.DeadLettered? ==> j.first.subscription.deadLetterTopic.Some?)
  }

  ghost predicate WaitingOk(s: Pool) {
    && (forall t :: t in s.waiting ==>
          s.waiting[t] == 1 && t.ticket < |s.jobs| && s.jobs[t.ticket].fate.Waiting? && s.jobs[t.ticket].current == t)
    && (forall k :: 0 <= k < |s.jobs| && s.jobs[k].fate.Waiting? ==>
          s.jobs[k].current in s.waiting && s.jobs[k].current.ticket == k)
  }

  ghost predicate HandsOk(s: Pool) {
    && (forall w :: 0 <= w < |s.hands| && !s.hands[w].Idle? ==>
          var t := s.hands[w].task;
          t.ticket < |s.jobs| && s.jobs[t.ticket].current == t
          && s.jobs[t.ticket].fate == Held(w, s.hands[w].Failed?))
    && (forall k :: 0 <= k < |s.jobs| && s.jobs[k].fate.Held? ==>
          var w := s.jobs[k].fate.worker;
          w < |s.hands| && !s.hands[w].Idle? && s.hands[w].task.ticket == k)
  }

  ghost predicate JobsOk(s: Pool) {
    forall k :: 0 <= k < |s.jobs| ==> JobOk(s.jobs[k], k)
  }

  ghost predicate PoolInv(s: Pool) {
    WaitingOk(s) && HandsOk(s) && JobsOk(s)
  }

  ghost predicate Enabled(s: Pool, e: Event) {
    && PoolInv(s)
    && match e
       case Enqueue(_, _, now) => s.clock <= now
       case Poll(w, now, result) =>
         && s.clock <= now && w < |s.hands| && s.hands[w].Idle?
         && Polled(s.waiting, now, result, if result.Some? then s.waiting - multiset{result.value} else s.waiting)
       case Post(w, _) => w < |s.hands| && s.hands[w].Fetched?
       case Settle(w, now, _) => s.clock <= now && w < |s.hands| && s.hands[w].Failed?
  }

  /** What becomes of a fetched task: a task without push configuration is skipped unposted. */
  function Posted(j: Job, w: nat, delivered: bool): Job {
    if j.first.subscription.push.None? then j.(fate := Dropped(NoPushConfig))
    else j.(posts := j.posts + 1, fate := if delivered then Delivered else Held(w, true))
  }

  function GivenUp(subscription: Subscription, accepted: bool): Fate {
    if subscription.deadLetterTopic.None? then Dropped(NoDeadLetterTopic)
    else if accepted then DeadLettered
    else Dropped(DeadLetterRefused)
  }

  function Settled(j: Job, now: nat, accepted: bool): Job {
    var retry := Retry(j.current, now);
    if retry.Some?
    then j.(current := retry.value, failedAt := now, fate := Waiting,
            waited := j.waited + Backoff.Delay(Policy(j.first.subscription), j.current.attempt))
    else j.(fate := GivenUp(j.first.subscription, accepted))
  }

  ghost function Apply(s: Pool, e: Event): Pool
    requires Enabled(s, e)
  {
    match e
    case Enqueue(m, subscription, now) =>
      var t := Task(|s.jobs|, m, subscription, 0, now);
      s.(waiting := s.waiting + multiset{t}, jobs := s.jobs + [Job(t, t, 0, 0, 0, Waiting)], clock := now)
    case Poll(w, now, result) =>
      if result.None? then s.(clock := now)
      else
        var t := result.value;
        s.(waiting := s.waiting - multiset{t}, hands := s.hands[w := Fetched(t)],
           jobs := s.jobs[t.ticket := s.jobs[t.ticket].(fate := Held(w, false))], clock := now)
    case Post(w, delivered) =>
      var t := s.hands[w].task;
      var j := Posted(s.jobs[t.ticket], w, delivered);
      s.(hands := s.hands[w := if j.fate.Held? then Failed(t) else Idle], jobs := s.jobs[t.ticket := j])
    case Settle(w, now, accepted) =>
      var t := s.hands[w].task;
      var j := Settled(s.jobs[t.ticket], now, accepted);
      s.(waiting := if j.fate.Waiting? then s.waiting + multiset{j.current} else s.waiting,
         hands := s.hands[w := Idle], jobs := s.jobs[t.ticket := j], clock := now)
  }

  // ---------------------------------------------------------------- every step keeps it

  lemma PostedOk(j: Job, k: nat, w: nat, delivered: bool)
    requires JobOk(j, k) && j.fate == Held(w, false)
    ensures JobOk(Posted(j, w, delivered), k)
  {
  }

  /** No attempt number ever wraps, and a retry is refused exactly when the posts are used up. */
  lemma SettledOk(j: Job, k: nat, now: nat, accepted: bool)
    requires JobOk(j, k) && j.fate.Held? && j.fate.failed
    ensures JobOk(Settled(j, now, accepted), k)
    ensures j.current.attempt + 1 < U32_LIMIT && j.posts == j.current.attempt + 1
    ensures Retry(j.current, now).Some? <==> j.posts < MaxPosts(j.first.subscription)
  {
    hide Backoff.Delay, Policy;
    assert Policy(j.current.subscription) == Policy(j.first.subscription);
    assert Backoff.Waited(Policy(j.first.subscription), j.current.attempt + 1)
        == j.waited + Backoff.Delay(Policy(j.first.subscription), j.current.attempt);
  }

  lemma TakeWaiting(s: Pool, s': Pool, t: Task, j: Job)
    requires WaitingOk(s) && t in s.waiting && !j.fate.Waiting?
    requires s'.waiting == s.waiting - multiset{t} && s'.jobs == s.jobs[t.ticket := j]
    ensures WaitingOk(s')
  {
  }

  lemma PutWaiting(s: Pool, s': Pool, j: Job)
    requires WaitingOk(s) && j.current.ticket < |s.jobs| && !s.jobs[j.current.ticket].fate.Waiting? && j.fate.Waiting?
    requires s'.waiting == s.waiting + multiset{j.current} && s'.jobs == s.jobs[j.current.ticket := j]
    ensures WaitingOk(s')
  {
  }

  lemma SameWaiting(s: Pool, s': Pool, k: nat, j: Job)
    requires WaitingOk(s) && k < |s.jobs| && !s.jobs[k].fate.Waiting? && !j.fate.Waiting?
    requires s'.waiting == s.waiting && s'.jobs == s.jobs[k := j]
    ensures WaitingOk(s')
  {
  }

  lemma ChangeHand(s: Pool, s': Pool, w: nat, hand: Hand, k: nat, j: Job)
    requires HandsOk(s) && w < |s.hands| && k < |s.jobs|
    requires if s.hands[w].Idle? then !s.jobs[k].fate.Held? else s.hands[w].task.ticket == k
    requires if hand.Idle? then !j.fate.Held?
             else hand.task.ticket == k && j.current == hand.task && j.fate == Held(w, hand.Failed?)
    requires s'.hands == s.hands[w := hand] && s'.jobs == s.jobs[k := j]
    ensures HandsOk(s')
  {
  }

  lemma ChangeJob(s: Pool, s': Pool, k: nat, j: Job)
    requires JobsOk(s) && k < |s.jobs| && JobOk(j, k) && s'.jobs == s.jobs[k := j]
    ensures JobsOk(s')
  {
  }

  lemma AddJob(s: Pool, s': Pool, j: Job)
    requires PoolInv(s) && j.fate.Waiting? && j.current.ticket == |s.jobs| && JobOk(j, |s.jobs|)
    requires s'.waiting == s.waiting + multiset{j.current} && s'.hands == s.hands && s'.jobs == s.jobs + [j]
    ensures PoolInv(s')
  {
    hide JobOk;
    assert forall k :: 0 <= k < |s.jobs| ==> s'.jobs[k] == s.jobs[k];
  }

  lemma EnqueueKeeps(s: Pool, e: Event)
    requires Enabled(s, e) && e.Enqueue?
    ensures PoolInv(Apply(s, e))
  {
    hide PoolInv;
    var t := Task(|s.jobs|, e.message, e.subscription, 0, e.now);
    AddJob(s, Apply(s, e), Job(t, t, 0, 0, 0, Waiting));
  }

  lemma PollKeeps(s: Pool, e: Event)
    requires Enabled(s, e) && e.Poll?
    ensures PoolInv(Apply(s, e))
  {
    if e.result.Some? {
      var t := e.result.value;
      assert t in s.waiting;
      TakeKeeps(s, Apply(s, e), e.worker, t);
    }
  }

  lemma TakeKeeps(s: Pool, s': Pool, w: nat, t: Task)
    requires PoolInv(s) && t in s.waiting && w < |s.hands| && s.hands[w].Idle?
    requires s' == s.(waiting := s.waiting - multiset{t}, hands := s.hands[w := Fetched(t)],
                      jobs := s.jobs[t.ticket := s.jobs[t.ticket].(fate := Held(w, false))], clock := s'.clock)
    ensures PoolInv(s')
  {
    hide HandsOk, JobsOk;
    var j := s.jobs[t.ticket].(fate := Held(w, false));
    TakenOk(s, t, w);
    TakeWaiting(s, s', t, j);
    ChangeHand(s, s', w, Fetched(t), t.ticket, j);
    ChangeJob(s, s', t.ticket, j);
  }

  lemma TakenOk(s: Pool, t: Task, w: nat)
    requires PoolInv(s) && t in s.waiting
    ensures JobOk(s.jobs[t.ticket].(fate := Held(w, false)), t.ticket)
  {
    assert JobOk(s.jobs[t.ticket], t.ticket);
  }

  lemma InHand(s: Pool, w: nat)
    requires PoolInv(s) && w < |s.hands| && !s.hands[w].Idle?
    ensures var t := s.hands[w].task;
            && t.ticket < |s.jobs| && s.jobs[t.ticket].current == t
            && s.jobs[t.ticket].fate == Held(w, s.hands[w].Failed?)
            && JobOk(s.jobs[t.ticket], t.ticket)
  {
  }

  lemma PostKeeps(s: Pool, e: Event)
    requires Enabled(s, e) && e.Post?
    ensures PoolInv(Apply(s, e))
  {
    hide WaitingOk, HandsOk, JobsOk, JobOk;
    InHand(s, e.worker);
    var s' := Apply(s, e);
    var t := s.hands[e.worker].task;
    var j := Posted(s.jobs[t.ticket], e.worker, e.delivered);
    PostedOk(s.jobs[t.ticket], t.ticket, e.worker, e.delivered);
    SameWaiting(s, s', t.ticket, j);
    ChangeHand(s, s', e.worker, s'.hands[e.worker], t.ticket, j);
    ChangeJob(s, s', t.ticket, j);
  }

  lemma SettleKeeps(s: Pool, e: Event)
    requires Enabled(s, e) && e.Settle?
    ensures PoolInv(Apply(s, e))
  {
    hide WaitingOk, HandsOk, JobsOk, JobOk, Backoff.Delay;
    InHand(s, e.worker);
    var s' := Apply(s, e);
    var t := s.hands[e.worker].task;
    var j := Settled(s.jobs[t.ticket], e.now, e.accepted);
    SettledOk(s.jobs[t.ticket], t.ticket, e.now, e.accepted);
    if j.fate.Waiting? {
      PutWaiting(s, s', j);
    } else {
      SameWaiting(s, s', t.ticket, j);
    }
    ChangeHand(s, s', e.worker, Idle, t.ticket, j);
    ChangeJob(s, s', t.ticket, j);
  }

  lemma StepKeeps(s: Pool, e: Event)
    requires Enabled(s, e)
    ensures PoolInv(Apply(s, e))
  {
    hide Apply, PoolInv;
    match e {
      case Enqueue(_, _, _) => EnqueueKeeps(s, e);
      case Poll(_, _, _) => PollKeeps(s, e);
      case Post(_, _) => PostKeeps(s, e);
      case Settle(_, _, _) => SettleKeeps(s, e);
    }
  }
}

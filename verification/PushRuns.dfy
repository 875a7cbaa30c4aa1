/** Whole runs of the push worker pool. */
module PushRuns {
  import opened Types
  import opened PushQueue
  import opened PushPool
  import opened Text
  import Backoff

  ghost predicate Possible(s: Pool, events: seq<Event>)
    decreases |events|
  {
    events != [] ==> Enabled(s, events[0]) && Possible(Apply(s, events[0]), events[1..])
  }

  ghost function After(s: Pool, events: seq<Event>): Pool
    requires Possible(s, events)
    decreases |events|
  {
    if events == [] then s else After(Apply(s, events[0]), events[1..])
  }

  lemma {:induction false} RunKeeps(s: Pool, events: seq<Event>)
    requires PoolInv(s) && Possible(s, events)
    ensures PoolInv(After(s, events))
    decreases |events|
  {
    if events != [] {
      StepKeeps(s, events[0]);
      RunKeeps(Apply(s, events[0]), events[1..]);
    }
  }

  // ---------------------------------------------------------------- where a task is

  ghost predicate Waits(s: Pool, k: nat) {
    exists t :: t in s.waiting && t.ticket == k
  }

  ghost predicate Holds(s: Pool, w: nat, k: nat) {
    w < |s.hands| && !s.hands[w].Idle? && s.hands[w].task.ticket == k
  }

  /** Every delivery ever enqueued is once in the queue, or in the hands of one worker, or over. */
  lemma EveryTaskInOnePlace(workers: nat, events: seq<Event>, k: nat)
    requires Possible(Start(workers), events) && k < |After(Start(workers), events).jobs|
    ensures var s := After(Start(workers), events);
            && (Over(s.jobs[k].fate) <==> !Waits(s, k) && forall w :: !Holds(s, w, k))
            && (Waits(s, k) ==> forall w :: !Holds(s, w, k))
            && (forall v, w :: Holds(s, v, k) && Holds(s, w, k) ==> v == w)
            && (forall t, u :: t in s.waiting && u in s.waiting && t.ticket == u.ticket ==> t == u)
            && (forall t :: t in s.waiting ==> s.waiting[t] == 1 && t.ticket < |s.jobs|)
  {
    hide Possible, After, PoolInv, Waits, Holds;
    StartOk(workers);
    RunKeeps(Start(workers), events);
    var s := After(Start(workers), events);
    PlaceOf(s, k);
    if s.jobs[k].fate.Held? {
      assert Holds(s, s.jobs[k].fate.worker, k);
    }
  }

  lemma StartOk(workers: nat)
    ensures PoolInv(Start(workers))
  {
  }

  lemma PlaceOf(s: Pool, k: nat)
    requires PoolInv(s) && k < |s.jobs|
    ensures Waits(s, k) <==> s.jobs[k].fate.Waiting?
    ensures forall w :: Holds(s, w, k) <==> s.jobs[k].fate.Held? && s.jobs[k].fate.worker == w
    ensures forall t, u :: t in s.waiting && u in s.waiting && t.ticket == u.ticket ==> t == u
    ensures forall t :: t in s.waiting ==> s.waiting[t] == 1 && t.ticket < |s.jobs|
  {
    hide JobsOk;
  }

  /** What is over stays over, and no delivery ever changes its message or subscription. */
  lemma {:induction false} OverForever(s: Pool, events: seq<Event>, k: nat)
    requires PoolInv(s) && Possible(s, events) && k < |s.jobs|
    ensures var s' := After(s, events);
            && |s.jobs| <= |s'.jobs| && s'.jobs[k].first == s.jobs[k].first
            && (Over(s.jobs[k].fate) ==> s'.jobs[k] == s.jobs[k])
            && (forall t :: t in s'.waiting && t.ticket == k ==>
                  t.message == s.jobs[k].first.message && t.subscription == s.jobs[k].first.subscription)
    decreases |events|
  {
    hide JobOk;
    if events != [] {
      StepKeeps(s, events[0]);
      StepLeavesOver(s, events[0], k);
      OverForever(Apply(s, events[0]), events[1..], k);
    } else {
      JobFacts(s, k);
    }
  }

  lemma StepLeavesOver(s: Pool, e: Event, k: nat)
    requires Enabled(s, e) && k < |s.jobs|
    ensures var s' := Apply(s, e);
            && |s.jobs| <= |s'.jobs| && s'.jobs[k].first == s.jobs[k].first
            && (Over(s.jobs[k].fate) ==> s'.jobs[k] == s.jobs[k])
  {
    hide JobOk, Retry, Polled;
    if e.Post? || e.Settle? {
      InHand(s, e.worker);
    }
    if e.Poll? && e.result.Some? {
      PolledIn(s.waiting, e.now, e.result.value);
    }
  }

  lemma PolledIn(bag: multiset<Task>, now: nat, t: Task)
    requires Polled(bag, now, Some(t), bag - multiset{t})
    ensures t in bag && t.due <= now
  {
  }

  lemma JobFacts(s: Pool, k: nat)
    requires PoolInv(s) && k < |s.jobs|
    ensures JobOk(s.jobs[k], k)
    ensures forall t :: t in s.waiting && t.ticket == k ==>
                  t.message == s.jobs[k].first.message && t.subscription == s.jobs[k].first.subscription
  {
  }

  lemma WaitingFacts(s: Pool, t: Task)
    requires PoolInv(s) && t in s.waiting
    ensures t.ticket < |s.jobs| && s.jobs[t.ticket].current == t
  {
  }

  // ---------------------------------------------------------------- how often and how late

  /** No delivery is posted more than max(1, max_attempts) times, exactly so many when it is given
      up; its retries are put off by no more than the two bounds; its attempt number never
      reaches the end of u32. */
  lemma PostsAreBounded(workers: nat, events: seq<Event>, k: nat)
    requires Possible(Start(workers), events) && k < |After(Start(workers), events).jobs|
    ensures var j := After(Start(workers), events).jobs[k];
            var policy, most := Policy(j.first.subscription), MaxPosts(j.first.subscription);
            && j.posts <= most
            && (j.fate.Delivered? ==> j.posts > 0)
            && (j.fate.DeadLettered? || (j.fate.Dropped? && j.fate.loss != NoPushConfig) ==> j.posts == most)
            && (j.fate == Dropped(NoPushConfig) ==> j.posts == 0)
            && j.current.attempt + 1 < U32_LIMIT
            && j.waited <= policy.minBackoff * (Backoff.Power(most - 1) - 1)
            && j.waited <= (most - 1) * policy.maxBackoff
  {
    hide Possible, After, PoolInv, Backoff.Power, Policy, MaxPosts;
    StartOk(workers);
    RunKeeps(Start(workers), events);
    var s := After(Start(workers), events);
    JobFacts(s, k);
    WaitedAtMost(s.jobs[k], k);
  }

  lemma WaitedAtMost(j: Job, k: nat)
    requires JobOk(j, k)
    ensures var policy, most := Policy(j.first.subscription), MaxPosts(j.first.subscription);
            && j.waited <= policy.minBackoff * (Backoff.Power(most - 1) - 1)
            && j.waited <= (most - 1) * policy.maxBackoff
  {
    hide Policy, MaxPosts, Backoff.Waited, Backoff.Power;
    var policy, most := Policy(j.first.subscription), MaxPosts(j.first.subscription);
    Backoff.WaitedBound(policy, j.current.attempt);
    Backoff.PowerGrows(j.current.attempt, most - 1);
    Backoff.ProductGrows(policy.minBackoff, Backoff.Power(j.current.attempt) - 1, Backoff.Power(most - 1) - 1);
    Backoff.ProductGrows(policy.maxBackoff, j.current.attempt, most - 1);
  }

  /** The same by the fields of the subscription, over every run: a delivery is posted at most as often
      as its policy allows, five times when it has none, and at least once; exactly so often when it is
      given up; and its k-th retry is due min(shortest * 2^(k-1), longest) seconds after the failure,
      10 and 600 being the bounds when it has none. */
  lemma PostsByFields(workers: nat, events: seq<Event>, k: nat)
    requires Possible(Start(workers), events) && k < |After(Start(workers), events).jobs|
    requires After(Start(workers), events).jobs[k].first.subscription.push.Some?
    ensures var j := After(Start(workers), events).jobs[k];
            var config := j.first.subscription.push.value.retryPolicy;
            var attempts := match config case Some(given) => given.maxAttempts case None => 5;
            var shortest := match config case Some(given) => given.minBackoff case None => 10;
            var longest := match config case Some(given) => given.maxBackoff case None => 600;
            var most := if attempts == 0 then 1 else attempts;
            && j.posts <= most
            && (j.fate.DeadLettered? || j.fate.Dropped? ==> j.posts == most)
            && (j.current.attempt > 0 ==>
                  j.current.due == j.failedAt
                                   + Backoff.Min(shortest * Backoff.Power(j.current.attempt - 1), longest) * SECOND)
  {
    hide Possible, After, PoolInv, Backoff.Power, Backoff.Delay, Backoff.Waited;
    StartOk(workers);
    RunKeeps(Start(workers), events);
    var s := After(Start(workers), events);
    JobFacts(s, k);
    var j := s.jobs[k];
    if j.current.attempt > 0 {
      Backoff.DelayIsExact(Policy(j.first.subscription), j.current.attempt - 1);
    }
  }

  /** A retry is never fetched before its backoff, counted from the failure, is over. */
  lemma RetryWaitsItsBackoff(workers: nat, events: seq<Event>, e: Event)
    requires Possible(Start(workers), events) && Enabled(After(Start(workers), events), e)
    requires e.Poll? && e.result.Some? && e.result.value.attempt > 0
    ensures var s, t := After(Start(workers), events), e.result.value;
            && t.ticket < |s.jobs|
            && e.now >= s.jobs[t.ticket].failedAt
                        + Backoff.Delay(Policy(t.subscription), t.attempt - 1) * SECOND
  {
    hide Backoff.Delay, Policy, Possible, After, PoolInv;
    StartOk(workers);
    RunKeeps(Start(workers), events);
    var s, t := After(Start(workers), events), e.result.value;
    PolledIn(s.waiting, e.now, t);
    WaitingFacts(s, t);
    JobFacts(s, t.ticket);
  }

  // ---------------------------------------------------------------- it ends

  /** Steps a worker can still take for a delivery, at most. */
  function Work(j: Job): int {
    if j.fate.Waiting? then 3 * (MaxPosts(j.first.subscription) - j.current.attempt)
    else if j.fate.Held? then 3 * (MaxPosts(j.first.subscription) - j.current.attempt) - (if j.fate.failed then 2 else 1)
    else 0
  }

  function WorkLeft(jobs: seq<Job>): int {
    if jobs == [] then 0 else WorkLeft(jobs[..|jobs| - 1]) + Work(jobs[|jobs| - 1])
  }

  /** Whether the event is a step of a worker with a task. */
  predicate Steps(e: Event) {
    e.Post? || e.Settle? || (e.Poll? && e.result.Some?)
  }

  function StepCount(events: seq<Event>): nat {
    if events == [] then 0 else (if Steps(events[0]) then 1 else 0) + StepCount(events[1..])
  }

  /** The posts that the enqueued deliveries may cost together. */
  function Granted(events: seq<Event>): nat {
    if events == [] then 0
    else (if events[0].Enqueue? then MaxPosts(events[0].subscription) else 0) + Granted(events[1..])
  }

  lemma {:induction false} WorkUpdate(jobs: seq<Job>, k: nat, j: Job)
    requires k < |jobs|
    ensures WorkLeft(jobs[k := j]) == WorkLeft(jobs) - Work(jobs[k]) + Work(j)
  {
    hide Work;
    var last := |jobs| - 1;
    if k == last {
      assert jobs[k := j][..last] == jobs[..last];
    } else {
      WorkUpdate(jobs[..last], k, j);
      assert jobs[k := j][..last] == jobs[..last][k := j];
    }
  }

  lemma {:induction false} WorkNonnegative(s: Pool, n: nat)
    requires PoolInv(s) && n <= |s.jobs|
    ensures WorkLeft(s.jobs[..n]) >= 0
  {
    if n > 0 {
      WorkNonnegative(s, n - 1);
      assert s.jobs[..n][..n - 1] == s.jobs[..n - 1];
      assert JobOk(s.jobs[n - 1], n - 1);
    }
  }

  lemma StepWork(s: Pool, e: Event)
    requires Enabled(s, e)
    ensures WorkLeft(Apply(s, e).jobs) <= WorkLeft(s.jobs)
              + (if e.Enqueue? then 3 * MaxPosts(e.subscription) else 0)
              - (if Steps(e) then 1 else 0)
  {
    hide WorkLeft, Polled, JobOk;
    match e {
      case Enqueue(m, subscription, now) => WorkAdded(s.jobs, Job(Task(|s.jobs|, m, subscription, 0, now), Task(|s.jobs|, m, subscription, 0, now), 0, 0, 0, Waiting));
      case Poll(w, now, result) =>
        if result.Some? {
          PolledIn(s.waiting, now, result.value);
          var k := result.value.ticket;
          WorkUpdate(s.jobs, k, s.jobs[k].(fate := Held(w, false)));
        }
      case Post(w, delivered) =>
        InHand(s, w);
        var k := s.hands[w].task.ticket;
        PostWork(s.jobs[k], k, w, delivered);
        WorkUpdate(s.jobs, k, Posted(s.jobs[k], w, delivered));
      case Settle(w, now, accepted) =>
        InHand(s, w);
        var k := s.hands[w].task.ticket;
        SettleWork(s.jobs[k], k, now, accepted);
        WorkUpdate(s.jobs, k, Settled(s.jobs[k], now, accepted));
    }
  }

  lemma WorkAdded(jobs: seq<Job>, j: Job)
    ensures WorkLeft(jobs + [j]) == WorkLeft(jobs) + Work(j)
  {
    assert (jobs + [j])[..|jobs|] == jobs;
  }

  lemma PostWork(j: Job, k: nat, w: nat, delivered: bool)
    requires JobOk(j, k) && j.fate == Held(w, false)
    ensures Work(Posted(j, w, delivered)) < Work(j)
  {
  }

  lemma SettleWork(j: Job, k: nat, now: nat, accepted: bool)
    requires JobOk(j, k) && j.fate.Held? && j.fate.failed
    ensures Work(Settled(j, now, accepted)) < Work(j)
  {
    hide Backoff.Delay, Policy, MaxPosts;
    SettledOk(j, k, now, accepted);
  }

  /** However the run goes on, the workers take at most three steps for every post granted. */
  lemma {:induction false} RunWork(s: Pool, events: seq<Event>)
    requires PoolInv(s) && Possible(s, events)
    ensures WorkLeft(After(s, events).jobs) + StepCount(events) <= WorkLeft(s.jobs) + 3 * Granted(events)
    decreases |events|
  {
    hide Apply, Enabled, PoolInv, WorkLeft, MaxPosts;
    if events != [] {
      StepKeeps(s, events[0]);
      StepWork(s, events[0]);
      RunWork(Apply(s, events[0]), events[1..]);
    }
  }

  lemma StepsAreBounded(workers: nat, events: seq<Event>)
    requires Possible(Start(workers), events)
    ensures StepCount(events) <= 3 * Granted(events)
  {
    hide Possible, After, PoolInv, Granted, StepCount;
    StartOk(workers);
    RunWork(Start(workers), events);
    RunKeeps(Start(workers), events);
    var s := After(Start(workers), events);
    WorkNonnegative(s, |s.jobs|);
    assert s.jobs[..|s.jobs|] == s.jobs;
  }

  lemma {:induction false} FindEarliest(bag: multiset<Task>) returns (first: Task)
    requires bag != multiset{}
    ensures Earliest(bag, first)
    decreases |bag|
  {
    var t :| t in bag;
    var rest := bag - multiset{t};
    if rest == multiset{} {
      assert bag == multiset{t};
      first := t;
    } else {
      var other := FindEarliest(rest);
      first := if t.due <= other.due then t else other;
      forall u | u in bag
        ensures first.due <= u.due
      {
        assert u == t || u in rest;
      }
    }
  }

  /** As long as a delivery is not over, some worker can take a step for a task, at the latest
      when the first waiting task is due. With RunWork: every delivery ends. */
  lemma NeverStuck(s: Pool, k: nat) returns (e: Event)
    requires PoolInv(s) && |s.hands| > 0 && k < |s.jobs| && !Over(s.jobs[k].fate)
    ensures Enabled(s, e) && Steps(e)
  {
    hide JobsOk;
    if w :| 0 <= w < |s.hands| && !s.hands[w].Idle? {
      e := if s.hands[w].Fetched? then Post(w, true) else Settle(w, s.clock, true);
    } else {
      assert s.jobs[k].current in s.waiting;
      var t := FindEarliest(s.waiting);
      e := Poll(0, if t.due <= s.clock then s.clock else t.due, Some(t));
    }
  }

  // ---------------------------------------------------------------- the dead letter

  const LETTER_KEYS: set<string> := {"original_subscription", "failure_reason", "attempts"}

  /** The dead letter has the body as published and its attributes, but for three keys that it
      overwrites: the name of the subscription, the reason, and a number of attempts that is one less
      than the posts made. It belongs to the topic and has never been received. */
  lemma DeadLetterUndercounts(workers: nat, events: seq<Event>, w: nat, topic: string, id: string, now: nat)
    requires Possible(Start(workers), events)
    requires var s := After(Start(workers), events);
             w < |s.hands| && s.hands[w].Failed? && Retry(s.hands[w].task, now).None?
    ensures var s := After(Start(workers), events);
            var t := s.hands[w].task;
            var letter := DeadLetter(t, topic, id, now);
            && t.ticket < |s.jobs|
            && var j := s.jobs[t.ticket];
               && j.posts == MaxPosts(j.first.subscription)
               && letter.id == id && letter.queueId == topic && letter.sentAt == now && letter.receiveCount == 0
               && letter.dedupId.None? && letter.delay.None?
               && letter.body == j.first.message.body
               && letter.attributes.Keys == j.first.message.attributes.Keys + LETTER_KEYS
               && letter.attributes["original_subscription"]
                  == Attribute("String", Some(j.first.subscription.name), None)
               && letter.attributes["failure_reason"] == Attribute("String", Some("max_push_attempts_exceeded"), None)
               && letter.attributes - LETTER_KEYS == j.first.message.attributes - LETTER_KEYS
               && letter.attributes["attempts"].stringValue == Some(Decimal(j.posts - 1))
               && letter.attributes["attempts"].stringValue != Some(Decimal(j.posts))
  {
    hide Backoff.Delay, Possible, After, Apply, DeadLetter, Retry, MaxPosts, PoolInv;
    StartOk(workers);
    RunKeeps(Start(workers), events);
    var s := After(Start(workers), events);
    InHand(s, w);
    var t := s.hands[w].task;
    var j := s.jobs[t.ticket];
    SettledOk(j, t.ticket, now, true);
    if Decimal(j.posts - 1) == Decimal(j.posts) {
      DecimalInjective(j.posts - 1, j.posts);
    }
    LetterAttributes(t, topic, id, now);
  }

  lemma LetterAttributes(t: Task, topic: string, id: string, now: nat)
    ensures var letter := DeadLetter(t, topic, id, now);
            && letter.id == id && letter.queueId == topic && letter.sentAt == now && letter.receiveCount == 0
            && letter.dedupId.None? && letter.delay.None?
            && letter.body == t.message.body
            && letter.attributes.Keys == t.message.attributes.Keys + LETTER_KEYS
            && letter.attributes["original_subscription"] == Attribute("String", Some(t.subscription.name), None)
            && letter.attributes["failure_reason"] == Attribute("String", Some("max_push_attempts_exceeded"), None)
            && letter.attributes - LETTER_KEYS == t.message.attributes - LETTER_KEYS
            && letter.attributes["attempts"].stringValue == Some(Decimal(t.attempt))
  {
  }
}

/** How full the store can get. The capacity check of a send and its pushes hold the lock at
    different times, so with several senders the limit can be overshot, by exactly so much. */
module Capacity {
  import opened Types
  import opened QueueModel
  import opened History
  import opened Receiving
  import opened Runs

  // ---------------------------------------------------------------- one event

  /** Only a push makes a new copy. */
  lemma LedgerLength(p: Params, s: Store, e: Event)
    requires Enabled(s, e)
    ensures |Apply(p, s, e).ledger| <= |s.ledger| + if e.Push? then 1 else 0
  {
    hide Inv, DrainS, LandAllS, ReceiveS, ParseHandle, ExpiryOrder, Callable;
    match e
    case RemoveQueue(x) => if x in s.queues { DrainEffect(s, x, QueueRemoved); }
    case PurgeQueue(x) => if x in s.queues { DrainEffect(s, x, Purged); }
    case SweepQueue(x, order, now) =>
      if x in s.queues { SweptLength(s, x, order, now); }
    case ReceiveMessages(c, end) =>
      if c.id in s.queues {
        ReceiveReady(s, c, end);
        ReceivedSize(p, s, c);
      }
    case _ =>
  }

  lemma SweptLength(s: Store, x: string, order: seq<Handle>, now: nat)
    requires Inv(s) && x in s.queues && ExpiryOrder(s.queues[x], order, now)
    ensures |LandAllS(s, x, order, now).ledger| == |s.ledger|
  {
    hide Inv, LandAllS;
    LandAllEffect(s, x, order, now);
  }

  lemma ReceivedSize(p: Params, s: Store, c: Call)
    requires Callable(s, c)
    ensures |ReceiveS(p, s, c).ledger| == |s.ledger|
  {
    hide Inv, Landable, Supplied, Unused, ReceiveS, Receive, ReceivedRecord;
    ReceiveEffect(p, s, c);
  }

  /** Nothing but a push makes the store fuller, and a push by at most one. */
  lemma TotalGrowth(p: Params, s: Store, e: Event)
    requires Enabled(s, e)
    ensures Total(Apply(p, s, e).queues) <= Total(s.queues) + if e.Push? then 1 else 0
  {
    hide Apply, Inv, Total, Evolves;
    StepKeeps(p, s, e);
    LedgerLength(p, s, e);
    LedgerTotal(s);
    LedgerTotal(Apply(p, s, e));
    GoneStays(s, Apply(p, s, e));
  }

  lemma LedgerTotal(s: Store)
    requires Resting(s)
    ensures |s.ledger| == Total(s.queues) + GoneCount(s.ledger)
  {
    hide QueuesOk, LimboOk, AllFound, Total, GoneCount;
  }

  lemma GoneStays(s: Store, s': Store)
    requires Evolves(s, s')
    ensures GoneCount(s.ledger) <= GoneCount(s'.ledger)
  {
    GoneGrows(s.ledger, s'.ledger);
  }

  // ---------------------------------------------------------------- several senders

  /** What a sender has left to do: nothing, so many pushes after it passed the check, or first
      an eviction. */
  datatype Phase = Idle | MustEvict(size: nat) | Passed(left: nat)

  datatype Pool = Pool(store: Store, phases: seq<Phase>)

  datatype Action =
    | Check(sender: nat, size: nat)
    | EvictOne(sender: nat, victim: string)
    | EvictNone(sender: nat)
    | PushOne(sender: nat, push: Event)
    | Finish(sender: nat)
    | Other(event: Event)

  /** An action of one sender, or any other operation; `batch` bounds the size of a send. */
  ghost predicate Possible(p: Params, s: Pool, a: Action, batch: nat) {
    && Resting(s.store)
    && (!a.Other? ==> a.sender < |s.phases|)
    && match a
       case Check(i, n) => s.phases[i].Idle? && n <= batch
       case EvictOne(i, victim) => s.phases[i].MustEvict? && Victim(p.policy, s.store.queues, victim)
       case EvictNone(i) => s.phases[i].MustEvict? && NothingAvailable(s.store.queues)
       case PushOne(i, e) => s.phases[i].Passed? && s.phases[i].left > 0 && e.Push? && Enabled(s.store, e)
       case Finish(i) => s.phases[i].Passed?
       case Other(e) => !e.Push? && !e.Evict? && Enabled(s.store, e)
  }

  ghost function Act(p: Params, s: Pool, a: Action, batch: nat): Pool
    requires Possible(p, s, a, batch)
  {
    hide Inv;
    match a
    case Check(i, n) =>
      if Total(s.store.queues) < p.maxMessages then s.(phases := s.phases[i := Passed(n)])
      else if p.policy.RejectNew? then s
      else s.(phases := s.phases[i := MustEvict(n)])
    case EvictOne(i, victim) =>
      Pool(Apply(p, s.store, Evict(victim)), s.phases[i := Passed(s.phases[i].size)])
    case EvictNone(i) => s.(phases := s.phases[i := Passed(s.phases[i].size)])
    case PushOne(i, e) => Pool(Apply(p, s.store, e), s.phases[i := Passed(s.phases[i].left - 1)])
    case Finish(i) => s.(phases := s.phases[i := Idle])
    case Other(e) => s.(store := Apply(p, s.store, e))
  }

  ghost predicate PoolRun(p: Params, s: Pool, acts: seq<Action>, batch: nat)
    decreases |acts|
  {
    acts == [] || (Possible(p, s, acts[0], batch) && PoolRun(p, Act(p, s, acts[0], batch), acts[1..], batch))
  }

  ghost function PoolAfter(p: Params, s: Pool, acts: seq<Action>, batch: nat): Pool
    requires PoolRun(p, s, acts, batch)
    decreases |acts|
  {
    if acts == [] then s else PoolAfter(p, Act(p, s, acts[0], batch), acts[1..], batch)
  }

  /** Pushes still to come from senders past the check. */
  function Owed(phases: seq<Phase>): nat {
    if phases == [] then 0
    else Owed(phases[1..]) + if phases[0].Passed? then phases[0].left else 0
  }

  lemma {:induction false} OwedUpdate(phases: seq<Phase>, i: nat, x: Phase)
    requires i < |phases|
    ensures Owed(phases[i := x]) + (if phases[i].Passed? then phases[i].left else 0)
         == Owed(phases) + if x.Passed? then x.left else 0
  {
    if i == 0 {
      assert phases[i := x][1..] == phases[1..];
    } else {
      OwedUpdate(phases[1..], i - 1, x);
      assert phases[i := x][1..] == phases[1..][i - 1 := x];
    }
  }

  lemma {:induction false} OwedBound(phases: seq<Phase>, batch: nat)
    requires forall i :: 0 <= i < |phases| && phases[i].Passed? ==> phases[i].left <= batch
    ensures Owed(phases) <= |phases| * batch
  {
    if phases != [] {
      OwedBound(phases[1..], batch);
      assert |phases| * batch == |phases[1..]| * batch + batch;
    }
  }

  ghost predicate Within(p: Params, s: Pool, batch: nat) {
    && Resting(s.store)
    && (forall i :: 0 <= i < |s.phases| ==>
          !s.phases[i].MustEvict? && (s.phases[i].Passed? ==> s.phases[i].left <= batch))
    && (if p.maxMessages == 0
        then Total(s.store.queues) == 0 && forall i :: 0 <= i < |s.phases| ==> s.phases[i].Idle?
        else Total(s.store.queues) + Owed(s.phases) <= p.maxMessages - 1 + |s.phases| * batch)
  }

  lemma ActWithin(p: Params, s: Pool, a: Action, batch: nat)
    requires p.policy.RejectNew? && Within(p, s, batch) && Possible(p, s, a, batch)
    ensures Within(p, Act(p, s, a, batch), batch)
    ensures |Act(p, s, a, batch).phases| == |s.phases|
  {
    hide Inv, Apply, Enabled;
    match a
    case Check(i, n) =>
      if Total(s.store.queues) < p.maxMessages {
        OwedBound(s.phases[i := Passed(n)], batch);
      }
    case EvictOne(i, victim) => assert false;
    case EvictNone(i) => assert false;
    case PushOne(i, e) =>
      StepKeeps(p, s.store, e);
      TotalGrowth(p, s.store, e);
      OwedUpdate(s.phases, i, Passed(s.phases[i].left - 1));
    case Finish(i) => OwedUpdate(s.phases, i, Idle);
    case Other(e) =>
      StepKeeps(p, s.store, e);
      TotalGrowth(p, s.store, e);
  }

  lemma {:induction false} RunWithin(p: Params, s: Pool, acts: seq<Action>, batch: nat)
    requires p.policy.RejectNew? && Within(p, s, batch) && PoolRun(p, s, acts, batch)
    ensures Within(p, PoolAfter(p, s, acts, batch), batch)
    ensures |PoolAfter(p, s, acts, batch).phases| == |s.phases|
    decreases |acts|
  {
    hide Within, Possible, Act;
    if acts != [] {
      ActWithin(p, s, acts[0], batch);
      RunWithin(p, Act(p, s, acts[0], batch), acts[1..], batch);
    }
  }

  ghost function Senders(k: nat): seq<Phase> {
    seq(k, _ => Idle)
  }

  lemma {:induction false} NothingOwed(k: nat)
    ensures Owed(Senders(k)) == 0
  {
    if k > 0 {
      NothingOwed(k - 1);
      assert Senders(k)[1..] == Senders(k - 1);
    }
  }

  /** Capacity under concurrency when new messages are rejected: with k senders and sends of at
      most `batch` messages, in every interleaving the store holds at most
      maxMessages - 1 + k * batch messages, and none at all when maxMessages is 0. */
  lemma OvershootBound(p: Params, k: nat, acts: seq<Action>, batch: nat)
    requires p.policy.RejectNew? && PoolRun(p, Pool(EMPTY, Senders(k)), acts, batch)
    ensures var total := Total(PoolAfter(p, Pool(EMPTY, Senders(k)), acts, batch).store.queues);
            if p.maxMessages == 0 then total == 0 else total <= p.maxMessages - 1 + k * batch
  {
    hide Within, PoolRun, PoolAfter, Senders, Total;
    StartWithin(p, k, batch);
    RunWithin(p, Pool(EMPTY, Senders(k)), acts, batch);
    WithinTotal(p, PoolAfter(p, Pool(EMPTY, Senders(k)), acts, batch), k, batch);
  }

  lemma StartWithin(p: Params, k: nat, batch: nat)
    ensures Within(p, Pool(EMPTY, Senders(k)), batch) && |Senders(k)| == k
  {
    hide Resting;
    StartRests();
    NothingOwed(k);
    Nonnegative(k, batch);
  }

  lemma Nonnegative(a: nat, b: nat)
    ensures a * b >= 0
  {
  }

  lemma WithinTotal(p: Params, s: Pool, k: nat, batch: nat)
    requires Within(p, s, batch) && |s.phases| == k
    ensures var total := Total(s.store.queues);
            if p.maxMessages == 0 then total == 0 else total <= p.maxMessages - 1 + k * batch
  {
    hide Resting, Total, Owed;
  }

  // ---------------------------------------------------------------- the bound is reached

  /** A message nobody minds, for the queue "q". */
  const PLAIN: Message := Message("m", "", map[], "q", 0, 0, None, None, None, None)
  const PLAIN_QUEUE: QueueConfig := QueueConfig("q", SqsStandard, 30, 0, None, false)

  ghost predicate Open(s: Store) {
    Resting(s) && "q" in s.queues && s.queues["q"].config == PLAIN_QUEUE
  }

  ghost function PlainPush(s: Store): Event {
    Push("q", PLAIN, Reads(s.clock, s.clock, s.clock, s.clock, s.clock))
  }

  lemma PlainSend(p: Params, q: Queue, r: Reads, ticket: nat)
    requires q.config == PLAIN_QUEUE
    ensures SendOne(p, q, PLAIN, r, ticket).outcome.Sent?
    ensures SendOne(p, q, PLAIN, r, ticket).queue.config == PLAIN_QUEUE
    ensures Size(SendOne(p, q, PLAIN, r, ticket).queue) == Size(q) + 1
  {
  }

  lemma PlainPushAdds(p: Params, s: Store)
    requires Open(s)
    ensures Enabled(s, PlainPush(s))
    ensures Open(Apply(p, s, PlainPush(s))) && Total(Apply(p, s, PlainPush(s)).queues) == Total(s.queues) + 1
    ensures Apply(p, s, PlainPush(s)).queues.Keys == s.queues.Keys
  {
    hide Inv, SendOne, Evolves, Size, Total;
    var s' := Apply(p, s, PlainPush(s));
    StepKeeps(p, s, PlainPush(s));
    PlainSend(p, s.queues["q"], PlainPush(s).clocks, |s.ledger|);
    TotalUpdate(s.queues, "q", s'.queues["q"]);
  }

  lemma PoolJoin(p: Params, s: Pool, a: seq<Action>, b: seq<Action>, batch: nat)
    requires PoolRun(p, s, a, batch) && PoolRun(p, PoolAfter(p, s, a, batch), b, batch)
    ensures PoolRun(p, s, a + b, batch)
    ensures PoolAfter(p, s, a + b, batch) == PoolAfter(p, PoolAfter(p, s, a, batch), b, batch)
    decreases |a|
  {
    hide Possible, Act;
    if a == [] {
      assert a + b == b;
    } else {
      PoolJoin(p, Act(p, s, a[0], batch), a[1..], b, batch);
      assert (a + b)[1..] == a[1..] + b;
    }
  }

  /** One sender works off its pushes. */
  lemma {:induction false} PushAll(p: Params, s: Pool, i: nat, n: nat, batch: nat) returns (acts: seq<Action>)
    requires Open(s.store) && i < |s.phases| && s.phases[i] == Passed(n)
    ensures PoolRun(p, s, acts, batch)
    ensures var s' := PoolAfter(p, s, acts, batch);
            && Open(s'.store) && s'.phases == s.phases[i := Passed(0)]
            && Total(s'.store.queues) == Total(s.store.queues) + n
            && s'.store.queues.Keys == s.store.queues.Keys
    ensures forall j :: 0 <= j < |acts| ==> acts[j].PushOne?
    decreases n
  {
    hide Inv, Enabled, Apply, PlainPush;
    if n == 0 {
      acts := [];
    } else {
      PlainPushAdds(p, s.store);
      var a := PushOne(i, PlainPush(s.store));
      assert PlainPush(s.store).Push? by { PlainIsPush(s.store); }
      assert Possible(p, s, a, batch);
      var rest := PushAll(p, Act(p, s, a, batch), i, n - 1, batch);
      acts := [a] + rest;
    }
  }

  lemma PlainIsPush(s: Store)
    ensures PlainPush(s).Push?
  {
  }

  /** Senders i, i+1, ... pass the check while there is room, without pushing anything yet. */
  lemma {:induction false} CheckAll(p: Params, s: Pool, i: nat, batch: nat) returns (acts: seq<Action>)
    requires Open(s.store) && i <= |s.phases| && Total(s.store.queues) < p.maxMessages
    requires forall j :: i <= j < |s.phases| ==> s.phases[j].Idle?
    ensures PoolRun(p, s, acts, batch)
    ensures var s' := PoolAfter(p, s, acts, batch);
            && s'.store == s.store && |s'.phases| == |s.phases|
            && (forall j :: 0 <= j < i ==> s'.phases[j] == s.phases[j])
            && (forall j :: i <= j < |s.phases| ==> s'.phases[j] == Passed(batch))
    decreases |s.phases| - i
  {
    hide Inv;
    if i == |s.phases| {
      acts := [];
    } else {
      var a := Check(i, batch);
      assert Possible(p, s, a, batch);
      var rest := CheckAll(p, Act(p, s, a, batch), i + 1, batch);
      acts := [a] + rest;
    }
  }

  lemma NoActs(p: Params, s: Pool, batch: nat) returns (acts: seq<Action>)
    ensures PoolRun(p, s, acts, batch) && PoolAfter(p, s, acts, batch) == s
  {
    acts := [];
  }

  /** All senders from i on push everything they may. */
  lemma {:induction false} FloodAll(p: Params, s: Pool, i: nat, batch: nat) returns (acts: seq<Action>)
    requires Open(s.store) && i <= |s.phases|
    requires forall j :: i <= j < |s.phases| ==> s.phases[j] == Passed(batch)
    ensures PoolRun(p, s, acts, batch)
    ensures Total(PoolAfter(p, s, acts, batch).store.queues) == Total(s.store.queues) + (|s.phases| - i) * batch
    decreases |s.phases| - i
  {
    hide Open, PoolRun, PoolAfter, Total;
    if i == |s.phases| {
      acts := NoActs(p, s, batch);
    } else {
      var first := PushAll(p, s, i, batch, batch);
      var s1 := PoolAfter(p, s, first, batch);
      var rest := FloodAll(p, s1, i + 1, batch);
      PoolJoin(p, s, first, rest, batch);
      acts := first + rest;
      OneMore(|s.phases| - (i + 1), batch);
    }
  }

  lemma OneMore(n: nat, batch: nat)
    ensures (n + 1) * batch == n * batch + batch
  {
  }

  /** Sender 0 fills the store one message at a time until `n` more are in. */
  lemma {:induction false} FillUp(p: Params, s: Pool, n: nat, batch: nat) returns (acts: seq<Action>)
    requires Open(s.store) && s.phases != [] && s.phases[0].Idle? && batch >= 1
    requires Total(s.store.queues) + n < p.maxMessages
    ensures PoolRun(p, s, acts, batch)
    ensures var s' := PoolAfter(p, s, acts, batch);
            Open(s'.store) && s'.phases == s.phases && Total(s'.store.queues) == Total(s.store.queues) + n
    decreases n
  {
    hide Inv;
    if n == 0 {
      acts := [];
    } else {
      var a := Check(0, 1);
      assert Possible(p, s, a, batch);
      var s1 := Act(p, s, a, batch);
      hide Open;
      var pushes := PushAll(p, s1, 0, 1, batch);
      var s2 := PoolAfter(p, s1, pushes, batch);
      var done := FinishFirst(p, s2, batch);
      var s3 := PoolAfter(p, s2, done, batch);
      assert s3.phases == s.phases;
      var rest := FillUp(p, s3, n - 1, batch);
      PoolJoin(p, s2, done, rest, batch);
      PoolJoin(p, s1, pushes, done + rest, batch);
      acts := [a] + (pushes + (done + rest));
    }
  }

  lemma FinishFirst(p: Params, s: Pool, batch: nat) returns (acts: seq<Action>)
    requires Open(s.store) && s.phases != [] && s.phases[0].Passed?
    ensures PoolRun(p, s, acts, batch)
    ensures PoolAfter(p, s, acts, batch) == s.(phases := s.phases[0 := Idle])
    ensures acts == [Finish(0)]
  {
    hide Inv;
    acts := [Finish(0)];
    assert Possible(p, s, acts[0], batch);
    assert acts[1..] == [];
  }

  lemma OpenUp(p: Params, s: Pool, batch: nat) returns (acts: seq<Action>)
    requires s.store == EMPTY
    ensures PoolRun(p, s, acts, batch)
    ensures var s' := PoolAfter(p, s, acts, batch);
            && Open(s'.store) && s'.phases == s.phases && Total(s'.store.queues) == 0
            && s'.store.queues.Keys == {"q"}
    ensures acts == [Other(Create(PLAIN_QUEUE, 0))]
  {
    StartRests();
    var e := Create(PLAIN_QUEUE, 0);
    acts := [Other(e)];
    StepKeeps(p, EMPTY, e);
    hide Inv;
    assert Possible(p, s, acts[0], batch);
    assert acts[1..] == [];
    var s' := Apply(p, EMPTY, e);
    TotalUpdate(map[], "q", s'.queues["q"]);
    assert Size(s'.queues["q"]) == 0;
  }

  lemma SendersIdle(k: nat)
    ensures |Senders(k)| == k && forall i :: 0 <= i < k ==> Senders(k)[i].Idle?
  {
  }

  /** The bound cannot be lowered: for any limit, any number of senders and any batch size there
      is an interleaving that ends with exactly maxMessages - 1 + k * batch messages. */
  lemma OvershootReached(p: Params, k: nat, batch: nat) returns (acts: seq<Action>)
    requires p.maxMessages >= 1 && k >= 1 && batch >= 1
    ensures PoolRun(p, Pool(EMPTY, Senders(k)), acts, batch)
    ensures Total(PoolAfter(p, Pool(EMPTY, Senders(k)), acts, batch).store.queues) == p.maxMessages - 1 + k * batch
  {
    hide Open, PoolRun, PoolAfter, Total, Senders;
    SendersIdle(k);
    var s0 := Pool(EMPTY, Senders(k));
    var open := OpenUp(p, s0, batch);
    var s1 := PoolAfter(p, s0, open, batch);
    var fill := FillUp(p, s1, p.maxMessages - 1, batch);
    var s2 := PoolAfter(p, s1, fill, batch);
    var check := CheckAll(p, s2, 0, batch);
    var s3 := PoolAfter(p, s2, check, batch);
    var flood := FloodAll(p, s3, 0, batch);
    PoolJoin(p, s2, check, flood, batch);
    PoolJoin(p, s1, fill, check + flood, batch);
    PoolJoin(p, s0, open, fill + (check + flood), batch);
    acts := open + (fill + (check + flood));
  }

  // ---------------------------------------------------------------- one send at a time

  function Grounded(qs: Queues): Queues {
    map id | id in qs :: qs[id].(available := [])
  }

  /** Messages in flight, over all queues. */
  ghost function FlightTotal(qs: Queues): nat {
    Total(Grounded(qs))
  }

  datatype SerialOp = Send(push: Event, victim: string) | Else(event: Event)

  /** A whole send with nothing in between: check, evict if the store is full and something is
      available, push. A full store under RejectNew takes nothing. */
  ghost predicate SerialOk(p: Params, s: Store, op: SerialOp) {
    match op
    case Else(e) => !e.Push? && Enabled(s, e)
    case Send(push, victim) =>
      && push.Push? && Enabled(s, push)
      && (Total(s.queues) >= p.maxMessages && !p.policy.RejectNew? && !NothingAvailable(s.queues) ==>
            Victim(p.policy, s.queues, victim) && Enabled(s, Evict(victim)) && Enabled(Apply(p, s, Evict(victim)), push))
  }

  ghost function SerialStep(p: Params, s: Store, op: SerialOp): Store
    requires SerialOk(p, s, op)
  {
    match op
    case Else(e) => Apply(p, s, e)
    case Send(push, victim) =>
      if Total(s.queues) < p.maxMessages then Apply(p, s, push)
      else if p.policy.RejectNew? then s
      else if NothingAvailable(s.queues) then Apply(p, s, push)
      else Apply(p, Apply(p, s, Evict(victim)), push)
  }

  ghost predicate SerialRun(p: Params, s: Store, ops: seq<SerialOp>)
    decreases |ops|
  {
    ops == [] || (SerialOk(p, s, ops[0]) && SerialRun(p, SerialStep(p, s, ops[0]), ops[1..]))
  }

  ghost function SerialAfter(p: Params, s: Store, ops: seq<SerialOp>): Store
    requires SerialRun(p, s, ops)
    decreases |ops|
  {
    if ops == [] then s else SerialAfter(p, SerialStep(p, s, ops[0]), ops[1..])
  }

  function Max(a: nat, b: nat): nat {
    if a < b then b else a
  }

  /** The most messages ever in flight at once during the run. */
  ghost function PeakFlight(p: Params, s: Store, ops: seq<SerialOp>): nat
    requires SerialRun(p, s, ops)
    decreases |ops|
  {
    if ops == [] then FlightTotal(s.queues)
    else Max(FlightTotal(s.queues), PeakFlight(p, SerialStep(p, s, ops[0]), ops[1..]))
  }

  lemma EvictShrinks(p: Params, s: Store, victim: string)
    requires Enabled(s, Evict(victim))
    ensures Total(Apply(p, s, Evict(victim)).queues) == Total(s.queues) - 1
  {
    hide Inv;
    var q := s.queues[victim];
    TotalUpdate(s.queues, victim, q.(available := q.available[1..]));
  }

  /** A send to a full store never makes it fuller as long as there is something to evict. */
  lemma FullStoreStaysFull(p: Params, s: Store, op: SerialOp)
    requires SerialOk(p, s, op) && op.Send? && Total(s.queues) >= p.maxMessages && !NothingAvailable(s.queues)
    ensures Total(SerialStep(p, s, op).queues) <= Total(s.queues)
  {
    hide Enabled, Apply;
    if !p.policy.RejectNew? {
      EvictShrinks(p, s, op.victim);
      TotalGrowth(p, Apply(p, s, Evict(op.victim)), op.push);
    }
  }

  lemma SerialGrowth(p: Params, s: Store, op: SerialOp)
    requires SerialOk(p, s, op)
    ensures Total(SerialStep(p, s, op).queues) <= Max(Total(s.queues), Max(p.maxMessages, 1 + FlightTotal(s.queues)))
  {
    hide Enabled, Apply;
    match op
    case Else(e) => TotalGrowth(p, s, e);
    case Send(push, victim) =>
      if Total(s.queues) >= p.maxMessages && !NothingAvailable(s.queues) {
        FullStoreStaysFull(p, s, op);
      } else {
        TotalGrowth(p, s, push);
        if NothingAvailable(s.queues) {
          assert Grounded(s.queues) == s.queues;
        }
      }
  }

  lemma {:induction false} SerialBound(p: Params, s: Store, ops: seq<SerialOp>, bound: nat)
    requires SerialRun(p, s, ops)
    requires Total(s.queues) <= bound && p.maxMessages <= bound && 1 + PeakFlight(p, s, ops) <= bound
    ensures Total(SerialAfter(p, s, ops).queues) <= bound
    decreases |ops|
  {
    hide SerialOk, SerialStep, FlightTotal;
    if ops != [] {
      SerialGrowth(p, s, ops[0]);
      SerialBound(p, SerialStep(p, s, ops[0]), ops[1..], bound);
    }
  }

  /** Capacity with serial single sends, under any policy: the store never holds more than
      maxMessages, or one more than were ever in flight at once. */
  lemma SerialCapacity(p: Params, ops: seq<SerialOp>)
    requires SerialRun(p, EMPTY, ops)
    ensures Total(SerialAfter(p, EMPTY, ops).queues) <= Max(p.maxMessages, 1 + PeakFlight(p, EMPTY, ops))
  {
    hide SerialRun, SerialAfter, PeakFlight;
    assert Total(EMPTY.queues) == 0;
    SerialBound(p, EMPTY, ops, Max(p.maxMessages, 1 + PeakFlight(p, EMPTY, ops)));
  }
}

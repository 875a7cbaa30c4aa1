/** Capacity under eviction with several senders at once: single sends stay within a bound,
    batches do not, because a full store gives up one message for each batch. */
module Eviction {
  import opened Types
  import opened QueueModel
  import opened History
  import opened Runs
  import opened Capacity
  import opened Issuing

  /** The most messages ever in flight at once during the run. */
  ghost function PoolPeak(p: Params, s: Pool, acts: seq<Action>, batch: nat): nat
    requires PoolRun(p, s, acts, batch)
    decreases |acts|
  {
    if acts == [] then FlightTotal(s.store.queues)
    else Max(FlightTotal(s.store.queues), PoolPeak(p, Act(p, s, acts[0], batch), acts[1..], batch))
  }

  // ---------------------------------------------------------------- single sends

  /** Messages stored and still to come are within the bound, and no sender has more than one. */
  ghost predicate SinglesWithin(s: Pool, bound: nat) {
    && Resting(s.store) && Total(s.store.queues) + Owed(s.phases) <= bound
    && forall i :: 0 <= i < |s.phases| ==>
         && (s.phases[i].MustEvict? ==> s.phases[i].size <= 1)
         && (s.phases[i].Passed? ==> s.phases[i].left <= 1)
  }

  lemma OwedAtMostOneEach(phases: seq<Phase>)
    requires forall i :: 0 <= i < |phases| && phases[i].Passed? ==> phases[i].left <= 1
    ensures Owed(phases) <= |phases|
  {
    OwedBound(phases, 1);
  }

  lemma NothingButFlights(qs: Queues)
    requires NothingAvailable(qs)
    ensures FlightTotal(qs) == Total(qs)
  {
    hide Total;
    assert Grounded(qs) == qs;
  }

  lemma SinglesStep(p: Params, s: Pool, a: Action, batch: nat, bound: nat)
    requires SinglesWithin(s, bound) && Possible(p, s, a, batch) && batch <= 1
    requires p.maxMessages + |s.phases| <= bound + 1 && FlightTotal(s.store.queues) + |s.phases| <= bound
    ensures SinglesWithin(Act(p, s, a, batch), bound) && |Act(p, s, a, batch).phases| == |s.phases|
  {
    hide Inv, Apply, Enabled, Total, FlightTotal, Owed;
    match a {
      case Check(i, n) =>
        OwedUpdate(s.phases, i, MustEvict(n));
        OwedAtMostOneEach(s.phases[i := Passed(n)]);
      case EvictOne(i, victim) =>
        VictimEnabled(p, s.store, victim);
        StepKeeps(p, s.store, Evict(victim));
        EvictShrinks(p, s.store, victim);
        OwedUpdate(s.phases, i, Passed(s.phases[i].size));
      case EvictNone(i) =>
        NothingButFlights(s.store.queues);
        OwedAtMostOneEach(s.phases[i := Passed(s.phases[i].size)]);
      case PushOne(i, e) =>
        StepKeeps(p, s.store, e);
        TotalGrowth(p, s.store, e);
        OwedUpdate(s.phases, i, Passed(s.phases[i].left - 1));
      case Finish(i) => OwedUpdate(s.phases, i, Idle);
      case Other(e) =>
        StepKeeps(p, s.store, e);
        TotalGrowth(p, s.store, e);
    }
  }

  lemma VictimEnabled(p: Params, s: Store, victim: string)
    requires Resting(s) && Victim(p.policy, s.queues, victim)
    ensures Enabled(s, Evict(victim))
  {
  }

  lemma {:induction false} SinglesRun(p: Params, s: Pool, acts: seq<Action>, batch: nat, bound: nat)
    requires batch <= 1 && SinglesWithin(s, bound) && PoolRun(p, s, acts, batch)
    requires p.maxMessages + |s.phases| <= bound + 1 && PoolPeak(p, s, acts, batch) + |s.phases| <= bound
    ensures SinglesWithin(PoolAfter(p, s, acts, batch), bound)
    decreases |acts|
  {
    hide SinglesWithin, Possible, Act, FlightTotal;
    if acts != [] {
      SinglesStep(p, s, acts[0], batch, bound);
      SinglesRun(p, Act(p, s, acts[0], batch), acts[1..], batch, bound);
    }
  }

  /** With k senders of single messages the store never holds more than k - 1 above its limit, or
      k more than were ever in flight at once, under any policy and in every interleaving. */
  lemma SinglesBound(p: Params, k: nat, acts: seq<Action>, batch: nat)
    requires batch <= 1 && PoolRun(p, Pool(EMPTY, Senders(k)), acts, batch)
    ensures var s := Pool(EMPTY, Senders(k));
            Total(PoolAfter(p, s, acts, batch).store.queues) + 1 <= Max(p.maxMessages, 1 + PoolPeak(p, s, acts, batch)) + k
  {
    hide SinglesWithin, PoolRun, PoolAfter, PoolPeak, Senders, Total;
    var s := Pool(EMPTY, Senders(k));
    var bound := Max(p.maxMessages, 1 + PoolPeak(p, s, acts, batch)) + k - 1;
    SinglesStart(k, bound);
    SinglesRun(p, s, acts, batch, bound);
    SinglesTotal(PoolAfter(p, s, acts, batch), bound);
  }

  lemma SinglesStart(k: nat, bound: nat)
    ensures SinglesWithin(Pool(EMPTY, Senders(k)), bound) && |Senders(k)| == k
  {
    StartRests();
    NothingOwed(k);
    hide Resting;
  }

  lemma SinglesTotal(s: Pool, bound: nat)
    requires SinglesWithin(s, bound)
    ensures Total(s.store.queues) <= bound
  {
  }

  // ---------------------------------------------------------------- batches

  ghost predicate NoReceives(acts: seq<Action>) {
    forall i :: 0 <= i < |acts| ==> !(acts[i].Other? && acts[i].event.ReceiveMessages?)
  }

  ghost predicate NoFlights(qs: Queues) {
    forall id :: id in qs ==> qs[id].inFlight == map[]
  }

  lemma {:induction false} NothingStored(qs: Queues)
    requires forall id :: id in qs ==> Size(qs[id]) == 0
    ensures Total(qs) == 0
    decreases |qs|
  {
    if qs != map[] {
      var id :| id in qs;
      TotalSplit(qs, id);
      NothingStored(qs - {id});
    }
  }

  lemma NoFlightsNoTotal(qs: Queues)
    requires NoFlights(qs)
    ensures FlightTotal(qs) == 0
  {
    NothingStored(Grounded(qs));
  }

  lemma OldFlightsNone(qs: Queues, qs': Queues)
    requires NoFlights(qs) && OldFlights(qs, qs')
    ensures NoFlights(qs')
  {
    forall id | id in qs'
      ensures qs'[id].inFlight == map[]
    {
      assert forall h :: h in qs'[id].inFlight ==> id in qs && h in qs[id].inFlight;
    }
  }

  lemma StepStaysGrounded(p: Params, s: Pool, a: Action, batch: nat)
    requires Possible(p, s, a, batch) && NoFlights(s.store.queues) && !(a.Other? && a.event.ReceiveMessages?)
    ensures NoFlights(Act(p, s, a, batch).store.queues)
  {
    hide Inv, Apply, Enabled, NoFlights, OldFlights, Total;
    match a {
      case EvictOne(i, victim) =>
        VictimEnabled(p, s.store, victim);
        QuietFlights(p, s.store, Evict(victim));
        OldFlightsNone(s.store.queues, Apply(p, s.store, Evict(victim)).queues);
      case PushOne(i, e) =>
        QuietFlights(p, s.store, e);
        OldFlightsNone(s.store.queues, Apply(p, s.store, e).queues);
      case Other(e) =>
        QuietFlights(p, s.store, e);
        OldFlightsNone(s.store.queues, Apply(p, s.store, e).queues);
      case _ =>
    }
  }

  /** A run without receives has nothing in flight. */
  lemma {:induction false} PeakWithoutReceives(p: Params, s: Pool, acts: seq<Action>, batch: nat)
    requires PoolRun(p, s, acts, batch) && NoFlights(s.store.queues) && NoReceives(acts)
    ensures PoolPeak(p, s, acts, batch) == 0
    decreases |acts|
  {
    hide Possible, Act, NoFlights, FlightTotal;
    NoFlightsNoTotal(s.store.queues);
    if acts != [] {
      StepStaysGrounded(p, s, acts[0], batch);
      assert forall i :: 0 <= i < |acts[1..]| ==> acts[1..][i] == acts[i + 1];
      PeakWithoutReceives(p, Act(p, s, acts[0], batch), acts[1..], batch);
    }
  }

  /** One queue, and the first sender idle. */
  ghost predicate Ready(s: Pool) {
    Open(s.store) && s.store.queues.Keys == {"q"} && s.phases != [] && s.phases[0].Idle?
  }

  /** The first sender passes the check, evicting one message if it must. */
  lemma GetPast(p: Params, s: Pool, batch: nat) returns (acts: seq<Action>)
    requires Ready(s) && !p.policy.RejectNew?
    ensures PoolRun(p, s, acts, batch) && NoReceives(acts)
    ensures var s' := PoolAfter(p, s, acts, batch);
            && Open(s'.store) && s'.store.queues.Keys == {"q"} && s'.phases == s.phases[0 := Passed(batch)]
            && Total(s'.store.queues) + 1 >= Total(s.store.queues)
  {
    hide Inv, Total, Apply;
    var check := Check(0, batch);
    assert Possible(p, s, check, batch);
    var s1 := Act(p, s, check, batch);
    if Total(s.store.queues) < p.maxMessages {
      acts := [check];
      RunOne(p, s, check, batch);
    } else if s.store.queues["q"].available == [] {
      var skip := EvictNone(0);
      assert Possible(p, s1, skip, batch);
      acts := [check, skip];
      RunTwo(p, s, check, skip, batch);
    } else {
      var evict := EvictOne(0, "q");
      assert Victim(p.policy, s1.store.queues, "q");
      assert Possible(p, s1, evict, batch);
      VictimEnabled(p, s1.store, "q");
      StepKeeps(p, s1.store, Evict("q"));
      EvictShrinks(p, s1.store, "q");
      EvictedQueue(p, s1.store);
      acts := [check, evict];
      RunTwo(p, s, check, evict, batch);
    }
  }

  lemma EvictedQueue(p: Params, s: Store)
    requires Open(s) && s.queues["q"].available != [] && Enabled(s, Evict("q"))
    ensures var s' := Apply(p, s, Evict("q"));
            s'.queues.Keys == s.queues.Keys && s'.queues["q"].config == s.queues["q"].config
  {
    hide Inv;
  }

  lemma RunOne(p: Params, s: Pool, a: Action, batch: nat)
    requires Possible(p, s, a, batch)
    ensures PoolRun(p, s, [a], batch) && PoolAfter(p, s, [a], batch) == Act(p, s, a, batch)
  {
    hide Possible, Act;
    assert [a][1..] == [];
  }

  lemma RunTwo(p: Params, s: Pool, a: Action, b: Action, batch: nat)
    requires Possible(p, s, a, batch) && Possible(p, Act(p, s, a, batch), b, batch)
    ensures PoolRun(p, s, [a, b], batch) && PoolAfter(p, s, [a, b], batch) == Act(p, Act(p, s, a, batch), b, batch)
  {
    hide Possible, Act;
    RunOne(p, Act(p, s, a, batch), b, batch);
    assert [a, b][1..] == [b];
  }

  lemma NoReceivesJoin(a: seq<Action>, b: seq<Action>)
    requires NoReceives(a) && NoReceives(b)
    ensures NoReceives(a + b)
  {
  }

  /** One batch of the first sender makes the store fuller, even when it is full. */
  lemma OneBatch(p: Params, s: Pool, batch: nat) returns (acts: seq<Action>)
    requires Ready(s) && !p.policy.RejectNew? && batch >= 2
    ensures PoolRun(p, s, acts, batch) && NoReceives(acts)
    ensures var s' := PoolAfter(p, s, acts, batch);
            Ready(s') && Total(s'.store.queues) > Total(s.store.queues)
  {
    hide Open, Total, PoolRun, PoolAfter;
    var past := GetPast(p, s, batch);
    var s1 := PoolAfter(p, s, past, batch);
    var pushes := PushAll(p, s1, 0, batch, batch);
    var s2 := PoolAfter(p, s1, pushes, batch);
    var done := FinishFirst(p, s2, batch);
    PoolJoin(p, s1, pushes, done, batch);
    PoolJoin(p, s, past, pushes + done, batch);
    NoReceivesJoin(pushes, done);
    NoReceivesJoin(past, pushes + done);
    acts := past + (pushes + done);
  }

  lemma EmptyNoReceives()
    ensures NoReceives([])
  {
  }

  lemma NoActsAtAll(p: Params, s: Pool, batch: nat)
    ensures PoolRun(p, s, [], batch) && PoolAfter(p, s, [], batch) == s
  {
  }

  lemma {:induction false} ManyBatches(p: Params, s: Pool, n: nat, batch: nat) returns (acts: seq<Action>)
    requires Ready(s) && !p.policy.RejectNew? && batch >= 2
    ensures PoolRun(p, s, acts, batch) && NoReceives(acts)
    ensures var s' := PoolAfter(p, s, acts, batch);
            Ready(s') && Total(s'.store.queues) >= Total(s.store.queues) + n
    decreases n
  {
    hide Ready, Total, PoolRun, PoolAfter, NoReceives;
    if n == 0 {
      EmptyNoReceives();
      NoActsAtAll(p, s, batch);
      acts := [];
    } else {
      var one := OneBatch(p, s, batch);
      var rest := ManyBatches(p, PoolAfter(p, s, one, batch), n - 1, batch);
      PoolJoin(p, s, one, rest, batch);
      NoReceivesJoin(one, rest);
      acts := one + rest;
    }
  }

  /** Batches of two or more grow an evicting store beyond every bound, with nothing in flight. */
  lemma BatchesGrow(p: Params, k: nat, n: nat, batch: nat) returns (acts: seq<Action>)
    requires !p.policy.RejectNew? && k >= 1 && batch >= 2
    ensures PoolRun(p, Pool(EMPTY, Senders(k)), acts, batch)
    ensures Total(PoolAfter(p, Pool(EMPTY, Senders(k)), acts, batch).store.queues) >= n
    ensures PoolPeak(p, Pool(EMPTY, Senders(k)), acts, batch) == 0
  {
    hide Open, Total, PoolRun, PoolAfter, PoolPeak;
    var s := Pool(EMPTY, Senders(k));
    var open := OpenUp(p, s, batch);
    var s1 := PoolAfter(p, s, open, batch);
    var rest := ManyBatches(p, s1, n, batch);
    PoolJoin(p, s, open, rest, batch);
    NoReceivesJoin(open, rest);
    acts := open + rest;
    PeakWithoutReceives(p, s, acts, batch);
  }

  /** Some allowance above the limit, and above what is in flight, is enough for every run. */
  ghost predicate Bounded(p: Params, k: nat, batch: nat) {
    exists allowance: nat :: EnoughFor(p, k, batch, allowance)
  }

  ghost predicate EnoughFor(p: Params, k: nat, batch: nat, allowance: nat) {
    forall acts :: PoolRun(p, Pool(EMPTY, Senders(k)), acts, batch) ==>
      var s := Pool(EMPTY, Senders(k));
      Total(PoolAfter(p, s, acts, batch).store.queues)
        <= Max(p.maxMessages, PoolPeak(p, s, acts, batch)) + allowance
  }

  /** Under eviction the capacity is kept, up to an allowance, exactly for sends of one message. */
  lemma EvictionBoundsIff(p: Params, k: nat, batch: nat)
    requires !p.policy.RejectNew? && k >= 1
    ensures Bounded(p, k, batch) <==> batch <= 1
  {
    hide PoolRun, PoolAfter, PoolPeak, Total;
    if batch <= 1 {
      var s := Pool(EMPTY, Senders(k));
      forall acts | PoolRun(p, s, acts, batch)
        ensures Total(PoolAfter(p, s, acts, batch).store.queues) <= Max(p.maxMessages, PoolPeak(p, s, acts, batch)) + k
      {
        SinglesBound(p, k, acts, batch);
      }
      assert EnoughFor(p, k, batch, k);
    } else if allowance: nat :| EnoughFor(p, k, batch, allowance) {
      TooMuch(p, k, batch, allowance);
    }
  }

  lemma TooMuch(p: Params, k: nat, batch: nat, allowance: nat)
    requires !p.policy.RejectNew? && k >= 1 && batch >= 2
    ensures !EnoughFor(p, k, batch, allowance)
  {
    hide PoolRun, PoolAfter, PoolPeak, Total;
    var acts := BatchesGrow(p, k, p.maxMessages + allowance + 1, batch);
  }
}

/** First deliveries leave a queue in the order the messages entered it, whatever requeues,
    evictions, purges and sweeps come in between: for a queue with one fixed delay that is
    nobody's dead-letter queue. */
module Ordering {
  import opened Types
  import opened Sequences
  import opened QueueModel
  import opened History
  import opened Receiving
  import opened Runs
  import opened Visibility

  // ---------------------------------------------------------------- lines

  ghost predicate Unserved(ledger: seq<Record>, e: Stored) {
    e.ticket < |ledger| && ledger[e.ticket].served == 0
  }

  /** The messages never returned so far stand in ticket order, and in order of visibility. */
  ghost predicate Line(ledger: seq<Record>, a: seq<Stored>) {
    forall i, j :: 0 <= i < j < |a| && Unserved(ledger, a[i]) && Unserved(ledger, a[j]) ==>
      a[i].ticket < a[j].ticket && a[i].visibleAt <= a[j].visibleAt
  }

  lemma LineAppend(ledger: seq<Record>, a: seq<Stored>, e: Stored)
    requires Line(ledger, a)
    requires Unserved(ledger, e) ==>
               forall i :: 0 <= i < |a| && Unserved(ledger, a[i]) ==>
                 a[i].ticket < e.ticket && a[i].visibleAt <= e.visibleAt
    ensures Line(ledger, a + [e])
  {
    var b := a + [e];
    forall i, j | 0 <= i < j < |b| && Unserved(ledger, b[i]) && Unserved(ledger, b[j])
      ensures b[i].ticket < b[j].ticket && b[i].visibleAt <= b[j].visibleAt
    {
      assert b[i] == a[i];
    }
  }

  lemma LineFrame(ledger: seq<Record>, ledger': seq<Record>, a: seq<Stored>)
    requires Line(ledger, a)
    requires forall i :: 0 <= i < |a| && Unserved(ledger', a[i]) ==> Unserved(ledger, a[i])
    ensures Line(ledger', a)
  {
  }

  /** Messages coming back from flight have been served, so they do not disturb the line. */
  lemma {:induction false} LandLine(ledger: seq<Record>, q: Queue, order: seq<Handle>, now: nat)
    requires Landable(q, order) && Line(ledger, q.available)
    requires forall h :: h in q.inFlight ==> !Unserved(ledger, Stored(q.inFlight[h].ticket, q.inFlight[h].message, now))
    ensures var q' := LandAll(q, order, now);
            && Line(ledger, q'.available)
            && forall e :: e in q'.available && Unserved(ledger, e) ==> e in q.available
    decreases |order|
  {
    hide Unserved, Line;
    if order != [] {
      LandableTail(q, order, now);
      var f := q.inFlight[order[0]];
      LineAppend(ledger, q.available, Stored(f.ticket, f.message, now));
      LandLine(ledger, Land(q, order[0], now), order[1..], now);
    }
  }

  /** `e` may stand at the head of `a`. */
  ghost predicate Heads(ledger: seq<Record>, e: Stored, a: seq<Stored>) {
    Unserved(ledger, e) ==>
      forall f :: f in a && Unserved(ledger, f) ==> e.ticket < f.ticket && e.visibleAt <= f.visibleAt
  }

  lemma LineTail(ledger: seq<Record>, a: seq<Stored>)
    requires Line(ledger, a) && a != []
    ensures Line(ledger, a[1..]) && Heads(ledger, a[0], a[1..])
    ensures forall e :: e in a[1..] ==> e in a
  {
    var tail := a[1..];
    assert forall i :: 0 <= i < |tail| ==> tail[i] == a[i + 1];
  }

  lemma LineCons(ledger: seq<Record>, e: Stored, a: seq<Stored>)
    requires Line(ledger, a) && Heads(ledger, e, a)
    ensures Line(ledger, [e] + a)
  {
    var b := [e] + a;
    assert forall i :: 1 <= i < |b| ==> b[i] == a[i - 1];
  }

  /** Taking the first visible entries takes the front of the line. */
  lemma {:induction false} PickLine(ledger: seq<Record>, a: seq<Stored>, now: nat, n: nat)
    requires Line(ledger, a)
    ensures var p := Pick(a, now, n);
            && Line(ledger, p.taken) && Line(ledger, p.rest)
            && (forall e :: e in p.taken ==> e in a && e.visibleAt <= now)
            && (forall e :: e in p.rest ==> e in a)
            && (forall e, f :: e in p.taken && f in p.rest && Unserved(ledger, e) && Unserved(ledger, f) ==>
                  e.ticket < f.ticket)
  {
    hide Unserved, Line;
    if a == [] || n == 0 {
      NoLine(ledger);
    } else {
      LineTail(ledger, a);
      if a[0].visibleAt <= now {
        PickLine(ledger, a[1..], now, n - 1);
        LineCons(ledger, a[0], Pick(a[1..], now, n - 1).taken);
      } else {
        PickLine(ledger, a[1..], now, n);
        LineCons(ledger, a[0], Pick(a[1..], now, n).rest);
      }
    }
  }

  lemma {:induction false} KeptLine(ledger: seq<Record>, config: QueueConfig, taken: seq<Stored>)
    requires Line(ledger, taken)
    ensures Line(ledger, Kept(config, taken))
    ensures forall e :: e in Kept(config, taken) ==> e in taken
  {
    hide Unserved, Line, Dead;
    if taken != [] {
      LineTail(ledger, taken);
      KeptLine(ledger, config, taken[1..]);
      LineCons(ledger, taken[0], Kept(config, taken[1..]));
    }
  }

  /** The first deliveries among those of one receive are the unserved entries, in order. */
  ghost predicate FirstsInLine(d: seq<Delivery>) {
    forall i, j :: 0 <= i < j < |d| && d[i].first && d[j].first ==> d[i].ticket < d[j].ticket
  }

  lemma {:induction false} DeliveriesLine(p: Params, ledger: seq<Record>, id: string, kept: seq<Stored>, nonces: seq<nat>)
    requires |kept| <= |nonces| && Line(ledger, kept)
    ensures var d := Deliveries(p, ledger, id, kept, nonces);
            && FirstsInLine(d)
            && forall i :: 0 <= i < |d| ==>
                 d[i].queue == id && d[i].ticket == kept[i].ticket && (d[i].first <==> Unserved(ledger, kept[i]))
  {
    if kept != [] {
      var tail := kept[1..];
      assert forall i :: 0 <= i < |tail| ==> tail[i] == kept[i + 1];
      DeliveriesLine(p, ledger, id, tail, nonces);
      var d := Deliveries(p, ledger, id, kept, nonces);
      assert forall i :: 1 <= i < |d| ==> d[i] == Deliveries(p, ledger, id, tail, nonces)[i - 1];
    }
  }

  // ---------------------------------------------------------------- the invariant of a run

  /** The deliveries so far and the line still waiting, for one queue. */
  ghost predicate LineState(s: Store, id: string, delay: nat) {
    && (id in s.queues ==>
          && Line(s.ledger, s.queues[id].available)
          && forall e :: e in s.queues[id].available && Unserved(s.ledger, e) ==> e.visibleAt <= s.clock + delay * SECOND)
    && FirstsSoFar(s.deliveries, id)
    && (forall d :: d in s.deliveries && d.queue == id && d.first ==>
          && d.ticket < |s.ledger|
          && (id in s.queues ==>
                forall e :: e in s.queues[id].available && Unserved(s.ledger, e) ==> d.ticket < e.ticket))
  }

  ghost predicate FirstsSoFar(deliveries: seq<Delivery>, id: string) {
    forall i, j :: 0 <= i < j < |deliveries| && deliveries[i].queue == id && deliveries[j].queue == id
                   && deliveries[i].first && deliveries[j].first ==>
      deliveries[i].ticket < deliveries[j].ticket
  }

  /** Whatever is in flight has been returned to somebody. */
  ghost predicate FlyingServed(s: Store) {
    forall t :: 0 <= t < |s.ledger| && s.ledger[t].place.Flying? ==> s.ledger[t].served > 0
  }

  ghost predicate NotATarget(s: Store, id: string) {
    forall x :: x in s.queues && s.queues[x].config.dlq.Some? ==> s.queues[x].config.dlq.value.target != id
  }

  ghost predicate InOrder(s: Store, id: string, delay: nat) {
    LineState(s, id, delay) && FlyingServed(s) && NotATarget(s, id)
  }

  /** The conditions of the theorem on one event: sends to the queue have the one effective
      delay, and no queue is configured to dead-letter into it. */
  ghost predicate Steady(s: Store, e: Event, id: string, delay: nat) {
    && (e.Push? && e.id == id && id in s.queues ==> Delay(s.queues[id].config, e.message) == delay)
    && ((e.Create? || e.Update?) && e.config.dlq.Some? ==> e.config.dlq.value.target != id)
  }

  ghost predicate SteadyRun(p: Params, s: Store, es: seq<Event>, id: string, delay: nat)
    requires Run(p, s, es)
    decreases |es|
  {
    es != [] ==> Steady(s, es[0], id, delay) && SteadyRun(p, Apply(p, s, es[0]), es[1..], id, delay)
  }

  // ---------------------------------------------------------------- steps that deliver nothing

  /** Nothing was delivered, and what waits in the queue is part of what waited before or newly
      returned from flight. */
  ghost predicate QuietStep(s: Store, s': Store, id: string) {
    && s'.deliveries == s.deliveries && |s.ledger| <= |s'.ledger| && s.clock <= s'.clock
    && (id in s'.queues && s'.queues[id].available != [] ==> id in s.queues)
    && (id in s'.queues && id in s.queues ==>
          forall e :: e in s'.queues[id].available && Unserved(s'.ledger, e) ==>
            e in s.queues[id].available && Unserved(s.ledger, e))
  }

  lemma QuietLine(s: Store, s': Store, id: string, delay: nat)
    requires LineState(s, id, delay) && QuietStep(s, s', id)
    requires id in s'.queues ==> Line(s'.ledger, s'.queues[id].available)
    ensures LineState(s', id, delay)
  {
    hide Line, Unserved, FirstsSoFar;
  }

  /** The queue is as before and so are its residents' return counts. */
  lemma SameQueueQuiet(s: Store, s': Store, id: string, delay: nat)
    requires LineState(s, id, delay) && Resting(s)
    requires s'.deliveries == s.deliveries && |s.ledger| <= |s'.ledger| && s.clock <= s'.clock
    requires id in s'.queues ==> id in s.queues && s'.queues[id].available == s.queues[id].available
    requires forall t :: 0 <= t < |s.ledger| && s.ledger[t].place == Available(id) ==> s'.ledger[t].served == s.ledger[t].served
    ensures LineState(s', id, delay)
  {
    hide Line, FirstsSoFar, QueueOk, QueuesOk, LimboOk, AllFound, Census;
    if id in s'.queues {
      forall e | e in s.queues[id].available
        ensures Unserved(s'.ledger, e) <==> Unserved(s.ledger, e)
      {
        TakenEntry(s, id, e);
      }
      LineFrame(s.ledger, s'.ledger, s.queues[id].available);
    }
    QuietLine(s, s', id, delay);
  }

  lemma PushLine(p: Params, s: Store, id: string, delay: nat, x: string, m: Message, r: Reads)
    requires Resting(s) && InOrder(s, id, delay) && x in s.queues && OrderedReads(r, s.clock)
    requires x == id ==> Delay(s.queues[id].config, m) == delay
    ensures InOrder(PushS(p, s, x, m, r).(clock := r.stamp), id, delay)
  {
    hide Inv, SendOne, Line, FirstsSoFar, SameHoldings;
    var s' := PushS(p, s, x, m, r).(clock := r.stamp);
    var result := SendOne(p, s.queues[x], m, r, |s.ledger|);
    SendOneShape(p, s.queues[x], m, r, |s.ledger|);
    if x == id && result.outcome.Sent? {
      PushedLine(s, s', id, delay, Stored(|s.ledger|, result.outcome.message, r.stamp + delay * SECOND));
    } else {
      assert SameHoldings(s.queues[x], result.queue) ==> result.queue.available == s.queues[x].available by {
        SameAvailable(s.queues[x], result.queue);
      }
      SameQueueQuiet(s, s', id, delay);
    }
  }

  lemma SameAvailable(q: Queue, q': Queue)
    ensures SameHoldings(q, q') ==> q'.available == q.available
  {
  }

  lemma PushedLine(s: Store, s': Store, id: string, delay: nat, e: Stored)
    requires Resting(s) && LineState(s, id, delay) && id in s.queues && id in s'.queues
    requires s'.deliveries == s.deliveries && s.clock <= s'.clock
    requires s'.queues[id].available == s.queues[id].available + [e]
    requires |s'.ledger| == |s.ledger| + 1 && s'.ledger[..|s.ledger|] == s.ledger
    requires e.ticket == |s.ledger| && e.visibleAt == s'.clock + delay * SECOND
    ensures LineState(s', id, delay)
  {
    hide Line, FirstsSoFar, QueueOk, QueuesOk, LimboOk, AllFound, Census;
    var a := s.queues[id].available;
    forall f | f in a
      ensures f.ticket < |s.ledger| && (Unserved(s'.ledger, f) <==> Unserved(s.ledger, f))
    {
      TakenEntry(s, id, f);
      assert s'.ledger[..|s.ledger|][f.ticket] == s'.ledger[f.ticket];
    }
    LineFrame(s.ledger, s'.ledger, a);
    LineAppend(s'.ledger, a, e);
  }

  lemma DrainLine(s: Store, s': Store, id: string, delay: nat, x: string, fate: Fate)
    requires Resting(s) && InOrder(s, id, delay) && x in s.queues
    requires s'.ledger == DrainS(s, x, fate).ledger && s'.deliveries == s.deliveries && s'.clock == s.clock
    requires forall y :: y in s'.queues ==> y in s.queues && s'.queues[y].config == s.queues[y].config
    requires id in s'.queues ==>
               if id == x then s'.queues[id].available == [] else s'.queues[id].available == s.queues[id].available
    ensures InOrder(s', id, delay)
  {
    hide Inv, DrainS, Line, FirstsSoFar;
    DrainEffect(s, x, fate);
    if id == x && id in s'.queues {
      assert Line(s'.ledger, []) by { NoLine(s'.ledger); }
      QuietLine(s, s', id, delay);
    } else {
      SameQueueQuiet(s, s', id, delay);
    }
  }

  lemma NoLine(ledger: seq<Record>)
    ensures Line(ledger, [])
  {
  }

  lemma DiscardLine(s: Store, id: string, delay: nat, x: string)
    requires Resting(s) && InOrder(s, id, delay) && x in s.queues
    ensures s.queues[x].available != [] ==> InOrder(DiscardFront(s, x, Evicted), id, delay)
    ensures forall h :: h in s.queues[x].inFlight ==> InOrder(DiscardFlying(s, x, h, Deleted), id, delay)
  {
    hide QueueOk, QueuesOk, LimboOk, AllFound, Census, FirstsSoFar, LineState;
    if s.queues[x].available != [] {
      AvailableEntry(s, x, 0);
      FrontLine(s, id, delay, x);
    }
    forall h | h in s.queues[x].inFlight
      ensures InOrder(DiscardFlying(s, x, h, Deleted), id, delay)
    {
      FlyingEntry(s, x, h);
      SameQueueQuiet(s, DiscardFlying(s, x, h, Deleted), id, delay);
    }
  }

  lemma FrontLine(s: Store, id: string, delay: nat, x: string)
    requires Resting(s) && LineState(s, id, delay) && x in s.queues && s.queues[x].available != []
    ensures LineState(DiscardFront(s, x, Evicted), id, delay)
  {
    hide QueueOk, QueuesOk, LimboOk, AllFound, Census, FirstsSoFar;
    var s' := DiscardFront(s, x, Evicted);
    AvailableEntry(s, x, 0);
    if id in s.queues {
      var a := s.queues[id].available;
      LineFrame(s.ledger, s'.ledger, a);
      assert x == id ==> forall i :: 0 <= i < |a| - 1 ==> s'.queues[id].available[i] == a[i + 1];
      QuietLine(s, s', id, delay);
    }
  }

  lemma SweepLine(s: Store, id: string, delay: nat, x: string, order: seq<Handle>, now: nat)
    requires Resting(s) && InOrder(s, id, delay) && x in s.queues && Landable(s.queues[x], order) && s.clock <= now
    ensures InOrder(LandAllS(s, x, order, now).(clock := now), id, delay)
  {
    hide QueueOk, QueuesOk, LimboOk, AllFound, Census, LandAllS, Line, FirstsSoFar, LineState, Unserved;
    LandAllEffect(s, x, order, now);
    var s' := LandAllS(s, x, order, now).(clock := now);
    LandedServed(s, s', x, order);
    LandAllMeta(s.queues[x], order, now);
    if id == x {
      SweptLine(s, s', id, delay, order, now);
    } else {
      SameQueueQuiet(s, s', id, delay);
    }
  }

  lemma LandedServed(s: Store, s': Store, x: string, order: seq<Handle>)
    requires LandedAll(s, s', x, order) && FlyingServed(s)
    ensures forall t :: 0 <= t < |s.ledger| ==> s'.ledger[t].served == s.ledger[t].served
    ensures FlyingServed(s')
  {
    forall t: nat | t < |s.ledger|
      ensures s'.ledger[t].served == s.ledger[t].served
      ensures s'.ledger[t].place.Flying? ==> s.ledger[t].place.Flying?
    {
      assert LandedRecord(s.ledger[t], s'.ledger[t], x, order);
    }
  }

  /** The landed line, judged by the return counts before the step. */
  lemma LandedLine(s: Store, id: string, order: seq<Handle>, now: nat, access: nat)
    requires Resting(s) && id in s.queues && Landable(s.queues[id], order)
    requires Line(s.ledger, s.queues[id].available) && FlyingServed(s)
    ensures var q := LandAll(s.queues[id].(lastAccess := access), order, now);
            && Line(s.ledger, q.available)
            && forall e :: e in q.available && Unserved(s.ledger, e) ==> e in s.queues[id].available
  {
    hide QueueOk, QueuesOk, LimboOk, AllFound, Census, Line;
    var q := s.queues[id].(lastAccess := access);
    forall h | h in q.inFlight
      ensures !Unserved(s.ledger, Stored(q.inFlight[h].ticket, q.inFlight[h].message, now))
    {
      FlyingEntry(s, id, h);
    }
    LandLine(s.ledger, q, order, now);
  }

  lemma SweptLine(s: Store, s': Store, id: string, delay: nat, order: seq<Handle>, now: nat)
    requires Resting(s) && LineState(s, id, delay) && FlyingServed(s)
    requires id in s.queues && Landable(s.queues[id], order) && s.clock <= now
    requires s'.queues == s.queues[id := LandAll(s.queues[id], order, now)]
    requires s'.deliveries == s.deliveries && s'.clock == now && |s'.ledger| == |s.ledger|
    requires forall t :: 0 <= t < |s.ledger| ==> s'.ledger[t].served == s.ledger[t].served
    ensures LineState(s', id, delay)
  {
    hide QueueOk, QueuesOk, LimboOk, AllFound, Census, Line, FirstsSoFar;
    LandedLine(s, id, order, now, s.queues[id].lastAccess);
    LineFrame(s.ledger, s'.ledger, s'.queues[id].available);
    QuietLine(s, s', id, delay);
  }

  // ---------------------------------------------------------------- the receive

  lemma {:induction false} DivertAllOthers(qs: Queues, target: string, moves: seq<Stored>, stamps: seq<nat>, now: nat)
    requires |moves| <= |stamps|
    ensures var qs' := DivertAll(qs, target, moves, stamps, now);
            && qs'.Keys == qs.Keys
            && (forall x :: x in qs ==> SameMeta(qs[x], qs'[x]))
            && (forall x :: x in qs && x != target ==> qs'[x] == qs[x])
    decreases |moves|
  {
    if moves != [] {
      DivertAllOthers(Divert(qs, target, moves[0], stamps[0], now), target, moves[1..], stamps[1..], now);
    }
  }

  /** Queues after a receive: configurations stay, and a queue that is not its dead-letter
      target has lost exactly what was taken, or nothing. */
  lemma ReceiveQueues(p: Params, qs: Queues, c: Call, id: string)
    requires c.id in qs && Landable(qs[c.id], c.order)
    requires RECEIVE_LIMIT <= |c.nonces| && RECEIVE_LIMIT <= |c.clocks.stamps|
    requires id in qs && (qs[c.id].config.dlq.Some? ==> qs[c.id].config.dlq.value.target != id)
    ensures var qs' := Receive(p, qs, c.id, c.request, c.clocks, c.order, c.nonces).queues;
            && qs'.Keys == qs.Keys
            && (forall x :: x in qs ==> qs'[x].config == qs[x].config)
            && (if id == c.id
                then qs'[id].available == Selection(qs[id], c.request, c.clocks, c.order).rest
                else qs'[id] == qs[id])
  {
    hide LandAll, Pick, Launch, Kept, Doomed, DivertAll, Reversed, Answer;
    var q := Landed(qs[c.id], c.clocks, c.order);
    var config := qs[c.id].config;
    var picked := Selection(qs[c.id], c.request, c.clocks, c.order);
    var kept := Kept(config, picked.taken);
    var expiresAt := c.clocks.now + Timeout(config, c.request) * SECOND;
    LandAllMeta(qs[c.id].(lastAccess := c.clocks.access), c.order, c.clocks.now);
    var served := q.(available := picked.rest, inFlight := Launch(p, q.inFlight, c.id, kept, c.nonces, expiresAt));
    var moves := Reversed(Doomed(config, picked.taken));
    DivertAllOthers(qs[c.id := served], TargetOf(config), moves, c.clocks.stamps, c.clocks.now);
    if config.dlq.None? {
      NothingDoomed(config, picked.taken);
      assert DivertAll(qs[c.id := served], TargetOf(config), moves, c.clocks.stamps, c.clocks.now) == qs[c.id := served] by {
        NoMoves(qs[c.id := served], TargetOf(config), moves, c.clocks.stamps, c.clocks.now);
      }
    }
  }

  /** Return counts after a receive: only returned copies of its queue count up, and only
      copies of its queue that went to the dead-letter queue start over. */
  lemma ReceiveServed(p: Params, s: Store, c: Call, t: nat)
    requires Callable(s, c) && t < |s.ledger|
    ensures |ReceiveS(p, s, c).ledger| == |s.ledger|
    ensures var r := s.ledger[t];
            var r' := ReceiveS(p, s, c).ledger[t];
            && (r'.served == r.served
                || (r'.served == r.served + 1 && Takeable(r.place, c))
                || (r'.place == Available(TargetOf(s.queues[c.id].config)) && Takeable(r.place, c)))
            && (r'.place.Flying? ==> (r'.place == r.place && r'.served == r.served) || r'.served > 0)
  {
    hide ReceiveS, Inv, Landable, Supplied, Unused, Returned, Moved, Has;
    ReceivedPoint(p, s, c, t);
  }

  /** The selection's return counts are those before the receive. */
  lemma SelectedServed(s: Store, c: Call)
    requires Callable(s, c)
    ensures |Selected(s, c).ledger| == |s.ledger|
    ensures forall t :: 0 <= t < |s.ledger| ==> Selected(s, c).ledger[t].served == s.ledger[t].served
  {
    SelectedEffect(s, c);
    hide Selected, Has, Taken, Splits, Selection, Inv;
    forall t: nat | t < |s.ledger|
      ensures Selected(s, c).ledger[t].served == s.ledger[t].served
    {
      assert SelectedAll(s, Selected(s, c), c);
      if !Has(Taken(s, c), t) {
        assert LandedRecord(s.ledger[t], Selected(s, c).ledger[t], c.id, c.order);
      }
    }
  }

  lemma ReceiveLine(p: Params, s: Store, id: string, delay: nat, c: Call, end: nat)
    requires Resting(s) && Callable(s, c) && InOrder(s, id, delay) && s.clock <= end
    ensures InOrder(ReceiveS(p, s, c).(clock := end), id, delay)
  {
    hide Inv, Landable, Distinct, Unused, ReceiveS, Receive, LineState, Deliveries, Selected, Returned;
    ReceiveFields(p, s, c);
    ReceiveMeta(p, s, c);
    var s' := ReceiveS(p, s, c).(clock := end);
    forall t: nat | t < |s.ledger|
      ensures s'.ledger[t].place.Flying? ==> s'.ledger[t].served > 0
    {
      ReceiveServed(p, s, c, t);
    }
    if c.id == id {
      OwnReceiveLine(p, s, s', id, delay, c);
    } else {
      OtherReceiveLine(p, s, s', id, delay, c);
    }
  }

  /** The fields of the store after a receive. */
  lemma ReceiveFields(p: Params, s: Store, c: Call)
    requires Callable(s, c)
    ensures var s' := ReceiveS(p, s, c);
            && |s'.ledger| == |s.ledger|
            && s'.queues == Receive(p, s.queues, c.id, c.request, c.clocks, c.order, c.nonces).queues
            && s'.deliveries == s.deliveries
                 + Deliveries(p, Selected(s, c).ledger, c.id, Returned(s, c), c.nonces)
  {
    hide Inv, Landable, Distinct, Unused, ReceiveS, Receive, Deliveries, Selected, Returned, ReceivedRecord;
    ReceiveEffect(p, s, c);
  }

  lemma ReceiveMeta(p: Params, s: Store, c: Call)
    requires Callable(s, c)
    ensures var qs' := Receive(p, s.queues, c.id, c.request, c.clocks, c.order, c.nonces).queues;
            qs'.Keys == s.queues.Keys && forall x :: x in s.queues ==> SameMeta(s.queues[x], qs'[x])
  {
    hide Inv, LandAll, Pick, Launch, Kept, Doomed, DivertAll, Reversed, Answer;
    var q := Landed(s.queues[c.id], c.clocks, c.order);
    var config := s.queues[c.id].config;
    var picked := Selection(s.queues[c.id], c.request, c.clocks, c.order);
    LandAllMeta(s.queues[c.id].(lastAccess := c.clocks.access), c.order, c.clocks.now);
    var served := q.(available := picked.rest,
                     inFlight := Launch(p, q.inFlight, c.id, Kept(config, picked.taken), c.nonces,
                                        c.clocks.now + Timeout(config, c.request) * SECOND));
    DivertAllOthers(s.queues[c.id := served], TargetOf(config), Reversed(Doomed(config, picked.taken)),
                    c.clocks.stamps, c.clocks.now);
  }

  lemma SweepMeta(s: Store, x: string, order: seq<Handle>, now: nat)
    requires Resting(s) && x in s.queues && ExpiryOrder(s.queues[x], order, now)
    ensures var s' := LandAllS(s, x, order, now);
            s'.queues.Keys == s.queues.Keys && forall y :: y in s.queues ==> SameMeta(s.queues[y], s'.queues[y])
  {
    hide Inv, LandAllS, LandedAll;
    LandAllEffect(s, x, order, now);
    LandAllMeta(s.queues[x], order, now);
  }

  lemma ReceivedMeta(p: Params, s: Store, c: Call)
    requires Callable(s, c)
    ensures var s' := ReceiveS(p, s, c);
            s'.queues.Keys == s.queues.Keys && forall y :: y in s.queues ==> SameMeta(s.queues[y], s'.queues[y])
  {
    hide Inv, Landable, Distinct, Unused, ReceiveS, Receive, Deliveries, Selected, Returned;
    ReceiveFields(p, s, c);
    ReceiveMeta(p, s, c);
  }

  /** Another queue's receive. */
  lemma OtherReceiveLine(p: Params, s: Store, s': Store, id: string, delay: nat, c: Call)
    requires Resting(s) && Callable(s, c) && LineState(s, id, delay) && NotATarget(s, id) && c.id != id
    requires s'.queues == Receive(p, s.queues, c.id, c.request, c.clocks, c.order, c.nonces).queues
    requires s'.ledger == ReceiveS(p, s, c).ledger && s.clock <= s'.clock
    requires s'.deliveries == s.deliveries + Deliveries(p, Selected(s, c).ledger, c.id, Returned(s, c), c.nonces)
    ensures LineState(s', id, delay)
  {
    hide Inv, Landable, Distinct, Unused, ReceiveS, Receive, Line, Unserved, Deliveries, Selected, Returned, FirstsSoFar;
    ReceiveFields(p, s, c);
    ReceiveMeta(p, s, c);
    if id in s.queues {
      ReceiveQueues(p, s.queues, c, id);
    }
    forall t: nat | t < |s.ledger| && s.ledger[t].place == Available(id)
      ensures s'.ledger[t].served == s.ledger[t].served
    {
      ReceiveServed(p, s, c, t);
    }
    SameQueueQuiet(s, s'.(deliveries := s.deliveries), id, delay);
    var d := Deliveries(p, Selected(s, c).ledger, c.id, Returned(s, c), c.nonces);
    DeliveredTickets(p, Selected(s, c).ledger, c.id, Returned(s, c), c.nonces);
    hide Has;
    OthersDelivered(s, s', id, delay, d);
  }

  lemma OthersDelivered(s: Store, s': Store, id: string, delay: nat, d: seq<Delivery>)
    requires LineState(s'.(deliveries := s.deliveries), id, delay)
    requires s'.deliveries == s.deliveries + d && forall x :: x in d ==> x.queue != id
    ensures LineState(s', id, delay)
  {
    hide Line, Unserved;
    MoreDeliveries(s.deliveries, d, id);
  }

  lemma MoreDeliveries(old_: seq<Delivery>, new_: seq<Delivery>, id: string)
    requires FirstsSoFar(old_, id) && forall d :: d in new_ ==> d.queue != id
    ensures FirstsSoFar(old_ + new_, id)
  {
    var all := old_ + new_;
    assert forall i :: |old_| <= i < |all| ==> all[i] in new_;
  }

  /** The queue's own receive: the front of the line is delivered, the rest stays in line. */
  lemma OwnReceiveLine(p: Params, s: Store, s': Store, id: string, delay: nat, c: Call)
    requires Resting(s) && Callable(s, c) && InOrder(s, id, delay) && c.id == id
    requires s'.queues == Receive(p, s.queues, c.id, c.request, c.clocks, c.order, c.nonces).queues
    requires s'.ledger == ReceiveS(p, s, c).ledger && s.clock <= s'.clock
    requires s'.deliveries == s.deliveries + Deliveries(p, Selected(s, c).ledger, c.id, Returned(s, c), c.nonces)
    ensures LineState(s', id, delay)
  {
    hide Inv, Landable, Distinct, Unused, ReceiveS, Receive, Line, Deliveries, Selected, FirstsSoFar, FirstsInLine,
         LandAll, Pick, Kept, Unserved;
    ReceiveFields(p, s, c);
    ReceiveQueues(p, s.queues, c, id);
    LandedLine(s, id, c.order, c.clocks.now, c.clocks.access);
    var a := Landed(s.queues[id], c.clocks, c.order).available;
    var picked := Selection(s.queues[id], c.request, c.clocks, c.order);
    PickLine(s.ledger, a, c.clocks.now, PickLimit(c.request.maxMessages));
    KeptLine(s.ledger, s.queues[id].config, picked.taken);
    RestLine(p, s, c, s'.ledger);
    var d := Deliveries(p, Selected(s, c).ledger, id, Returned(s, c), c.nonces);
    DeliveredFirsts(p, s, c, d);
    FirstsDelivered(s, s', id, delay, picked, d);
  }

  lemma RestLine(p: Params, s: Store, c: Call, ledger': seq<Record>)
    requires Resting(s) && Callable(s, c) && ledger' == ReceiveS(p, s, c).ledger
    requires s.queues[c.id].config.dlq.Some? ==> s.queues[c.id].config.dlq.value.target != c.id
    requires Line(s.ledger, Selection(s.queues[c.id], c.request, c.clocks, c.order).rest)
    ensures var rest := Selection(s.queues[c.id], c.request, c.clocks, c.order).rest;
            && Line(ledger', rest)
            && forall e :: e in rest && Unserved(ledger', e) ==> Unserved(s.ledger, e)
  {
    hide Inv, Landable, Distinct, Unused, ReceiveS, Line, Selection;
    var rest := Selection(s.queues[c.id], c.request, c.clocks, c.order).rest;
    forall e | e in rest && Unserved(ledger', e)
      ensures Unserved(s.ledger, e)
    {
      RestServed(p, s, c, e);
    }
    LineFrame(s.ledger, ledger', rest);
  }

  lemma DeliveredFirsts(p: Params, s: Store, c: Call, d: seq<Delivery>)
    requires Callable(s, c) && Line(s.ledger, Returned(s, c))
    requires d == Deliveries(p, Selected(s, c).ledger, c.id, Returned(s, c), c.nonces)
    ensures FirstsInLine(d)
    ensures forall x :: x in d && x.first ==>
              exists e :: e in Returned(s, c) && Unserved(s.ledger, e) && e.ticket == x.ticket
  {
    hide Inv, Landable, Distinct, Unused, Selected, Line, Deliveries, FirstsInLine;
    SelectedServed(s, c);
    hide Returned;
    var kept := Returned(s, c);
    LineFrame(s.ledger, Selected(s, c).ledger, kept);
    DeliveriesLine(p, Selected(s, c).ledger, c.id, kept, c.nonces);
    forall x | x in d && x.first
      ensures exists e :: e in kept && Unserved(s.ledger, e) && e.ticket == x.ticket
    {
      var i :| 0 <= i < |d| && d[i] == x;
      assert kept[i] in kept;
    }
  }

  lemma FirstsDelivered(s: Store, s': Store, id: string, delay: nat, picked: Picked, d: seq<Delivery>)
    requires LineState(s, id, delay) && id in s.queues && id in s'.queues && s.clock <= s'.clock
    requires |s'.ledger| == |s.ledger| && s'.queues[id].available == picked.rest && Line(s'.ledger, picked.rest)
    requires s'.deliveries == s.deliveries + d && FirstsInLine(d)
    requires forall e :: (e in picked.rest || e in picked.taken) && Unserved(s.ledger, e) ==> e in s.queues[id].available
    requires forall e :: e in picked.rest && Unserved(s'.ledger, e) ==> Unserved(s.ledger, e)
    requires forall e, f :: e in picked.taken && f in picked.rest && Unserved(s.ledger, e) && Unserved(s.ledger, f) ==>
               e.ticket < f.ticket
    requires forall x :: x in d && x.first ==>
               exists e :: e in picked.taken && Unserved(s.ledger, e) && e.ticket == x.ticket
    ensures LineState(s', id, delay)
  {
    hide Line, FirstsSoFar, FirstsInLine;
    FirstsJoin(s.deliveries, d, id);
  }

  lemma FirstsJoin(old_: seq<Delivery>, new_: seq<Delivery>, id: string)
    requires FirstsSoFar(old_, id) && FirstsInLine(new_)
    requires forall d, f :: d in old_ && d.queue == id && d.first && f in new_ && f.first ==> d.ticket < f.ticket
    ensures FirstsSoFar(old_ + new_, id)
  {
    var all := old_ + new_;
    assert forall i :: 0 <= i < |old_| ==> all[i] == old_[i] && old_[i] in old_;
    assert forall i :: |old_| <= i < |all| ==> all[i] == new_[i - |old_|] && new_[i - |old_|] in new_;
  }

  /** An entry left in the queue keeps its return count. */
  lemma RestServed(p: Params, s: Store, c: Call, e: Stored)
    requires Resting(s) && Callable(s, c) && e in Selection(s.queues[c.id], c.request, c.clocks, c.order).rest
    requires s.queues[c.id].config.dlq.Some? ==> s.queues[c.id].config.dlq.value.target != c.id
    ensures |ReceiveS(p, s, c).ledger| == |s.ledger|
    ensures e.ticket < |s.ledger| ==> ReceiveS(p, s, c).ledger[e.ticket].served == s.ledger[e.ticket].served
  {
    hide Inv, Landable, Distinct, Unused, ReceiveS, Receive, Deliveries, Selected, Returned, Moved, Pick, LandAll;
    ReceiveFields(p, s, c);
    if e.ticket < |s.ledger| {
      NotTaken(s, c, e);
      ReceivedPoint(p, s, c, e.ticket);
    }
  }

  lemma NotTaken(s: Store, c: Call, e: Stored)
    requires Callable(s, c) && e in Selection(s.queues[c.id], c.request, c.clocks, c.order).rest
    ensures !Has(Returned(s, c), e.ticket) && !Has(Moved(s, c), e.ticket)
  {
    hide Inv, Landable, Distinct, Unused, Selected, Returned, Moved, Pick, LandAll;
    ReturnedHeld(s, c);
    SelectedEffect(s, c);
    HasIn(Taken(s, c), e.ticket);
  }

  /** A later message overtakes one that is still delayed: with two delays in one queue the
      order of first deliveries is not the order of sending. */
  lemma MixedDelaysOvertake(e: Stored, f: Stored, now: nat, n: nat)
    requires f.visibleAt <= now < e.visibleAt && n > 0
    ensures Pick([e, f], now, n) == Picked([f], [e])
  {
    assert [e, f][1..] == [f];
    assert [f][1..] == [];
  }

  // ---------------------------------------------------------------- the theorem

  lemma StepInOrder(p: Params, s: Store, e: Event, id: string, delay: nat)
    requires Enabled(s, e) && InOrder(s, id, delay) && Steady(s, e, id, delay)
    ensures InOrder(Apply(p, s, e), id, delay)
  {
    hide Inv, Line, FirstsSoFar, LineState, FlyingServed, DrainS, LandAllS, ReceiveS, PushS, DiscardFront, DiscardFlying,
         ParseHandle;
    var s' := Apply(p, s, e);
    match e
    case Create(config, now) => CreateLine(p, s, e, id, delay);
    case Update(config) => CreateLine(p, s, e, id, delay);
    case RemoveQueue(x) =>
      if x in s.queues {
        DrainEffect(s, x, QueueRemoved);
        DrainLine(s, s', id, delay, x, QueueRemoved);
      }
    case Push(x, m, clocks) =>
      if x in s.queues { PushLine(p, s, id, delay, x, m, clocks); } else { CreateLine(p, s, e, id, delay); }
    case Evict(x) => DiscardLine(s, id, delay, x);
    case ReceiveMessages(c, end) =>
      if c.id in s.queues { ReceiveLine(p, s, id, delay, c, end); } else { CreateLine(p, s, e, id, delay); }
    case SweepQueue(x, order, now) =>
      if x in s.queues { SweepLine(s, id, delay, x, order, now); } else { CreateLine(p, s, e, id, delay); }
    case DeleteMessage(x, h) =>
      if HandleFault(p, s.queues, x, h).None? { DiscardLine(s, id, delay, x); }
    case ChangeVisibility(x, h, timeout, now) => CreateLine(p, s, e, id, delay);
    case PurgeQueue(x) =>
      if x in s.queues {
        DrainEffect(s, x, Purged);
        DrainLine(s, s', id, delay, x, Purged);
      }
  }

  /** The events that move no message. */
  lemma CreateLine(p: Params, s: Store, e: Event, id: string, delay: nat)
    requires Enabled(s, e) && InOrder(s, id, delay) && Steady(s, e, id, delay)
    requires e.Create? || e.Update? || e.ChangeVisibility? || (e.Push? && e.id !in s.queues)
             || (e.ReceiveMessages? && e.call.id !in s.queues) || (e.SweepQueue? && e.id !in s.queues)
    ensures InOrder(Apply(p, s, e), id, delay)
  {
    hide Inv, Line, FirstsSoFar, DrainS, LandAllS, ReceiveS, PushS, ParseHandle, Unserved;
    var s' := Apply(p, s, e);
    assert s'.ledger == s.ledger && s'.deliveries == s.deliveries && s.clock <= s'.clock;
    if id in s'.queues && id !in s.queues {
      NoLine(s.ledger);
      QuietLine(s, s', id, delay);
    } else {
      SameQueueQuiet(s, s', id, delay);
    }
  }

  lemma {:induction false} RunInOrder(p: Params, s: Store, es: seq<Event>, id: string, delay: nat)
    requires Resting(s) && Run(p, s, es) && InOrder(s, id, delay) && SteadyRun(p, s, es, id, delay)
    ensures InOrder(After(p, s, es), id, delay)
    decreases |es|
  {
    hide Resting, InOrder, Steady, Apply;
    if es != [] {
      StepKeeps(p, s, es[0]);
      StepInOrder(p, s, es[0], id, delay);
      RunInOrder(p, Apply(p, s, es[0]), es[1..], id, delay);
    }
  }

  lemma StartInOrder(id: string, delay: nat)
    ensures InOrder(EMPTY, id, delay)
  {
  }

  /** First-delivery order over every run. */
  lemma FirstDeliveriesInOrder(p: Params, es: seq<Event>, id: string, delay: nat)
    requires Run(p, EMPTY, es) && SteadyRun(p, EMPTY, es, id, delay)
    ensures FirstsSoFar(After(p, EMPTY, es).deliveries, id)
  {
    StartRests();
    StartInOrder(id, delay);
    RunInOrder(p, EMPTY, es, id, delay);
  }
}

/** What one receive does, told by the fields of the request and of the queue: which messages it
    takes, how long it hides them, and what it leaves on the dead-letter queue. */
module Receives {
  import opened Types
  import opened Sequences
  import opened QueueModel
  import opened History
  import opened Receiving
  import opened Runs
  import opened Visibility

  function Least(a: nat, b: nat): nat {
    if a < b then a else b
  }

  // ---------------------------------------------------------------- which messages are taken

  /** The entries that are due, in their order. */
  function Due(a: seq<Stored>, now: nat): seq<Stored> {
    if a == [] then []
    else (if a[0].visibleAt <= now then [a[0]] else []) + Due(a[1..], now)
  }

  lemma {:induction false} PickIsFirst(a: seq<Stored>, now: nat, n: nat)
    ensures Pick(a, now, n).taken == Due(a, now)[..Least(n, |Due(a, now)|)]
  {
    if a != [] && n > 0 {
      if a[0].visibleAt <= now {
        PickIsFirst(a[1..], now, n - 1);
        assert Due(a, now)[1..] == Due(a[1..], now);
      } else {
        PickIsFirst(a[1..], now, n);
      }
    }
  }

  /** The deque with the expired messages behind it, due at once. */
  function WithExpired(q: Queue, order: seq<Handle>, now: nat): seq<Stored>
    requires Landable(q, order)
  {
    q.available + seq(|order|, i requires 0 <= i < |order| =>
      assert order[i] in order; Stored(q.inFlight[order[i]].ticket, q.inFlight[order[i]].message, now))
  }

  /** Landing the first expired message leaves the same deque to reach. */
  lemma ExpiredMore(q: Queue, order: seq<Handle>, now: nat)
    requires order != [] && Landable(q, order) && Landable(Land(q, order[0], now), order[1..])
    ensures WithExpired(Land(q, order[0], now), order[1..], now) == WithExpired(q, order, now)
    ensures Land(q, order[0], now).inFlight - (set h | h in order[1..]) == q.inFlight - (set h | h in order)
  {
    var rest := order[1..];
    assert order == [order[0]] + rest;
    assert order[0] in order && forall h :: h in order <==> h == order[0] || h in rest;
    assert forall h :: h in rest ==> h in Land(q, order[0], now).inFlight && q.inFlight[h] == Land(q, order[0], now).inFlight[h];
  }

  lemma LandedFields(q: Queue, h: Handle, now: nat, available: seq<Stored>, inFlight: map<Handle, InFlight>)
    requires h in q.inFlight
    ensures Land(q, h, now).(available := available, inFlight := inFlight) == q.(available := available, inFlight := inFlight)
  {
  }

  /** Expired messages go to the back, in the order given, and nothing else happens. */
  lemma {:induction false} LandedAtTheBack(q: Queue, order: seq<Handle>, now: nat)
    requires Landable(q, order)
    ensures LandAll(q, order, now)
         == q.(available := WithExpired(q, order, now), inFlight := q.inFlight - (set h | h in order))
    decreases |order|
  {
    hide Land, WithExpired;
    if order == [] {
      NothingExpired(q, order, now);
      assert q.inFlight - (set h | h in order) == q.inFlight;
    } else {
      LandableTail(q, order, now);
      LandedAtTheBack(Land(q, order[0], now), order[1..], now);
      ExpiredMore(q, order, now);
      LandedFields(q, order[0], now, WithExpired(q, order, now), q.inFlight - (set h | h in order));
    }
  }

  lemma NothingExpired(q: Queue, order: seq<Handle>, now: nat)
    requires order == []
    ensures WithExpired(q, order, now) == q.available
  {
  }

  /** A sweep does just that. */
  lemma SweptAtTheBack(q: Queue, order: seq<Handle>, now: nat)
    requires Landable(q, order)
    ensures Sweep(q, order, now)
         == q.(available := WithExpired(q, order, now), inFlight := q.inFlight - (set h | h in order))
  {
    hide LandAll;
    LandedAtTheBack(q, order, now);
  }

  /** A receive takes the first due entries of the deque, as many as asked for, but at least one and
      at most ten. */
  lemma TakesFirstDue(q: Queue, request: Request, r: ReceiveReads, order: seq<Handle>)
    requires Landable(q, order)
    ensures var asked := request.maxMessages;
            var most := if asked == 0 then 1 else if asked > 10 then 10 else asked;
            var due := Due(WithExpired(q, order, r.now), r.now);
            Selection(q, request, r, order).taken == due[..Least(most, |due|)]
  {
    hide Pick, Due;
    LandedAtTheBack(q.(lastAccess := r.access), order, r.now);
    PickIsFirst(WithExpired(q, order, r.now), r.now, PickLimit(request.maxMessages));
  }

  // ---------------------------------------------------------------- how long they are hidden

  /** Handles already in flight have none of the new nonces. */
  ghost predicate Fresh(m: map<Handle, InFlight>, nonces: seq<nat>) {
    Distinct(nonces) && forall h :: h in m && h.Decoded? ==> h.nonce !in nonces
  }

  /** The answer a is a new flight of the entry e, received once more. */
  ghost predicate AnswerOf(m: map<Handle, InFlight>, m': map<Handle, InFlight>, e: Stored, a: Received, deadline: nat) {
    && a.handle !in m && a.handle in m' && m'[a.handle] == InFlight(e.ticket, a.message, deadline)
    && a.message == e.message.(receiveCount := (e.message.receiveCount + 1) % U32_LIMIT)
  }

  /** The flights after a launch: the old ones, and one for every answer. */
  ghost predicate Answered(m: map<Handle, InFlight>, m': map<Handle, InFlight>, kept: seq<Stored>, a: seq<Received>,
                           deadline: nat)
  {
    && |a| == |kept|
    && (forall h :: h in m ==> h in m' && m'[h] == m[h])
    && (forall h :: h in m' && h !in m ==> exists i :: 0 <= i < |a| && a[i].handle == h)
    && (forall i :: 0 <= i < |a| ==> AnswerOf(m, m', kept[i], a[i], deadline))
  }

  lemma {:induction false} LaunchedNonces(p: Params, m: map<Handle, InFlight>, id: string, kept: seq<Stored>,
                                          nonces: seq<nat>, deadline: nat, h: Handle)
    requires |kept| <= |nonces| && h in Launch(p, m, id, kept, nonces, deadline) && h !in m
    ensures h.Decoded? && exists j :: 0 <= j < |kept| && h.nonce == nonces[j]
  {
    if kept != [] && h != Ticketed(p, id, kept[0].message, nonces[|kept| - 1]) {
      LaunchedNonces(p, m, id, kept[1..], nonces, deadline, h);
    }
  }

  lemma NewHandle(p: Params, m: map<Handle, InFlight>, id: string, kept: seq<Stored>, nonces: seq<nat>, deadline: nat)
    requires 0 < |kept| <= |nonces| && Fresh(m, nonces)
    ensures Ticketed(p, id, kept[0].message, nonces[|kept| - 1]) !in m
    ensures Ticketed(p, id, kept[0].message, nonces[|kept| - 1]) !in Launch(p, m, id, kept[1..], nonces, deadline)
  {
    var h := Ticketed(p, id, kept[0].message, nonces[|kept| - 1]);
    assert nonces[|kept| - 1] in nonces;
    if h in Launch(p, m, id, kept[1..], nonces, deadline) {
      LaunchedNonces(p, m, id, kept[1..], nonces, deadline, h);
    }
  }

  lemma AnsweredMore(m: map<Handle, InFlight>, rest: map<Handle, InFlight>, kept: seq<Stored>, tail: seq<Received>,
                     h: Handle, deadline: nat)
    requires kept != [] && Answered(m, rest, kept[1..], tail, deadline)
    requires h !in m && h !in rest
    ensures var bumped := Bump(kept[0].message);
            Answered(m, rest[h := InFlight(kept[0].ticket, bumped, deadline)], kept, [Received(bumped, h)] + tail, deadline)
  {
    hide AnswerOf, Bump;
    var first := Received(Bump(kept[0].message), h);
    var m' := rest[h := InFlight(kept[0].ticket, first.message, deadline)];
    NewFlights(m, rest, tail, first, m'[h]);
    AnswerOfFirst(m, rest, kept[0], h, deadline);
    forall i | 0 <= i < |tail|
      ensures AnswerOf(m, m', kept[i + 1], tail[i], deadline)
    {
      assert AnswerOf(m, rest, kept[1..][i], tail[i], deadline);
      AnswerStays(m, rest, m', kept[i + 1], tail[i], h, deadline);
    }
    AllAnswers(m, m', kept, first, tail, deadline);
  }

  lemma NewFlights(m: map<Handle, InFlight>, rest: map<Handle, InFlight>, tail: seq<Received>, first: Received, f: InFlight)
    requires forall g :: g in rest && g !in m ==> exists i :: 0 <= i < |tail| && tail[i].handle == g
    ensures var a := [first] + tail;
            forall g :: g in rest[first.handle := f] && g !in m ==> exists i :: 0 <= i < |a| && a[i].handle == g
  {
    var a := [first] + tail;
    forall g | g in rest[first.handle := f] && g !in m
      ensures exists i :: 0 <= i < |a| && a[i].handle == g
    {
      if g == first.handle {
        assert a[0] == first;
      } else {
        var i :| 0 <= i < |tail| && tail[i].handle == g;
        assert a[i + 1] == tail[i];
      }
    }
  }

  lemma AllAnswers(m: map<Handle, InFlight>, m': map<Handle, InFlight>, kept: seq<Stored>, first: Received,
                   tail: seq<Received>, deadline: nat)
    requires |kept| == |tail| + 1 && AnswerOf(m, m', kept[0], first, deadline)
    requires forall i :: 0 <= i < |tail| ==> AnswerOf(m, m', kept[i + 1], tail[i], deadline)
    ensures forall i :: 0 <= i < |kept| ==> AnswerOf(m, m', kept[i], ([first] + tail)[i], deadline)
  {
    hide AnswerOf;
    forall i | 0 <= i < |kept|
      ensures AnswerOf(m, m', kept[i], ([first] + tail)[i], deadline)
    {
      if i > 0 {
        assert AnswerOf(m, m', kept[i - 1 + 1], tail[i - 1], deadline);
      }
    }
  }

  lemma AnswerOfFirst(m: map<Handle, InFlight>, rest: map<Handle, InFlight>, e: Stored, h: Handle, deadline: nat)
    requires h !in m
    ensures AnswerOf(m, rest[h := InFlight(e.ticket, Bump(e.message), deadline)], e, Received(Bump(e.message), h), deadline)
  {
  }

  lemma AnswerStays(m: map<Handle, InFlight>, rest: map<Handle, InFlight>, m': map<Handle, InFlight>, e: Stored,
                    a: Received, h: Handle, deadline: nat)
    requires AnswerOf(m, rest, e, a, deadline) && h !in rest && h in m' && m' == rest[h := m'[h]]
    ensures AnswerOf(m, m', e, a, deadline)
  {
  }

  lemma {:induction false} LaunchAnswers(p: Params, m: map<Handle, InFlight>, id: string, kept: seq<Stored>,
                                         nonces: seq<nat>, deadline: nat)
    requires |kept| <= |nonces| && Fresh(m, nonces)
    ensures Answered(m, Launch(p, m, id, kept, nonces, deadline), kept, Answer(p, id, kept, nonces), deadline)
  {
    hide Answered, Fresh;
    if kept == [] {
      NothingAnswered(m, deadline);
    } else {
      LaunchAnswers(p, m, id, kept[1..], nonces, deadline);
      NewHandle(p, m, id, kept, nonces, deadline);
      AnsweredMore(m, Launch(p, m, id, kept[1..], nonces, deadline), kept, Answer(p, id, kept[1..], nonces),
                   Ticketed(p, id, kept[0].message, nonces[|kept| - 1]), deadline);
    }
  }

  lemma NothingAnswered(m: map<Handle, InFlight>, deadline: nat)
    ensures Answered(m, m, [], [], deadline)
  {
  }

  /** The seconds asked for, or else those the queue is configured with. */
  function HidingTime(config: QueueConfig, request: Request): u32 {
    match request.visibilityTimeout
    case Some(asked) => asked
    case None => config.visibilityTimeout
  }

  /** A receive hides what it returns for the time asked for, or for the time the queue is
      configured with when none is asked for, counted from the moment it judges by: every new
      flight belongs to one answer, holds its message and expires then; the flights that had not
      expired stay as they were. */
  lemma ReceiveSetsDeadlines(p: Params, qs: Queues, c: Call)
    requires c.id in qs && Landable(qs[c.id], c.order)
    requires RECEIVE_LIMIT <= |c.nonces| && RECEIVE_LIMIT <= |c.clocks.stamps| && Fresh(qs[c.id].inFlight, c.nonces)
    ensures var result := Receive(p, qs, c.id, c.request, c.clocks, c.order, c.nonces);
            var kept := ReturnedBy(qs[c.id], c.request, c.clocks, c.order);
            && c.id in result.queues && |result.received| == |kept|
            && Answered(qs[c.id].inFlight - (set h | h in c.order), result.queues[c.id].inFlight, kept, result.received,
                        c.clocks.now + HidingTime(qs[c.id].config, c.request) * SECOND)
  {
    hide LandAll, Pick, Launch, Kept, Doomed, DivertAll, Reversed, Answer, Answered;
    var q := qs[c.id];
    LandedAtTheBack(q.(lastAccess := c.clocks.access), c.order, c.clocks.now);
    LaunchAnswers(p, q.inFlight - (set h | h in c.order), c.id, ReturnedBy(q, c.request, c.clocks, c.order), c.nonces,
                  c.clocks.now + HidingTime(q.config, c.request) * SECOND);
    DivertAllFlights(qs[c.id := Served(p, q, c.id, c.request, c.clocks, c.order, c.nonces)], TargetOf(q.config),
                     MovedBy(q, c.request, c.clocks, c.order), c.clocks.stamps, c.clocks.now);
  }

  // ---------------------------------------------------------------- the dead-letter queue

  /** The copies a queue gets: like the messages moved, but counted from zero, sent now and belonging
      to the new queue; due at once. */
  function Letters(moves: seq<Stored>, target: string, stamps: seq<nat>, now: nat): (r: seq<Stored>)
    requires |moves| <= |stamps|
    ensures |r| == |moves|
  {
    seq(|moves|, i requires 0 <= i < |moves| =>
      Stored(moves[i].ticket, moves[i].message.(receiveCount := 0, sentAt := stamps[i], queueId := target), now))
  }

  /** Dead-lettered messages go to the back of the target, in the order they are moved, and nowhere
      when there is no such queue. */
  lemma {:induction false} LettersAtTheBack(qs: Queues, target: string, moves: seq<Stored>, stamps: seq<nat>, now: nat)
    requires |moves| <= |stamps|
    ensures DivertAll(qs, target, moves, stamps, now)
         == if target in qs
            then qs[target := qs[target].(available := qs[target].available + Letters(moves, target, stamps, now))]
            else qs
    decreases |moves|
  {
    if moves == [] {
      if target in qs {
        assert qs[target].available + Letters(moves, target, stamps, now) == qs[target].available;
      }
    } else {
      LettersAtTheBack(Divert(qs, target, moves[0], stamps[0], now), target, moves[1..], stamps[1..], now);
      LettersMore(moves, target, stamps, now);
      if target in qs {
        var first, rest := Letters(moves, target, stamps, now)[0], Letters(moves[1..], target, stamps[1..], now);
        assert qs[target].available + [first] + rest == qs[target].available + ([first] + rest);
      }
    }
  }

  lemma LettersMore(moves: seq<Stored>, target: string, stamps: seq<nat>, now: nat)
    requires 0 < |moves| <= |stamps|
    ensures Letters(moves, target, stamps, now)
         == [Stored(moves[0].ticket, DlqCopy(moves[0].message, target, stamps[0]), now)]
            + Letters(moves[1..], target, stamps[1..], now)
  {
  }

  /** Over the limit: with this receive the message would have been received more often than the
      queue allows. */
  predicate TooOften(config: QueueConfig, e: Stored) {
    config.dlq.Some? && (e.message.receiveCount + 1) % U32_LIMIT > config.dlq.value.maxReceiveCount
  }

  function Those(a: seq<Stored>, keep: Stored -> bool): seq<Stored> {
    if a == [] then [] else (if keep(a[0]) then [a[0]] else []) + Those(a[1..], keep)
  }

  lemma {:induction false} SortedByLimit(config: QueueConfig, taken: seq<Stored>)
    ensures Kept(config, taken) == Those(taken, e => !TooOften(config, e))
    ensures Doomed(config, taken) == Those(taken, e => TooOften(config, e))
  {
    if taken != [] {
      SortedByLimit(config, taken[1..]);
    }
  }

  /** The queues after a receive. The own queue has lost the messages taken; its dead-letter queue,
      if it is there, has got those over the limit, the last of them first; every other queue and
      everything else of both is as before. */
  lemma ReceiveMoves(p: Params, qs: Queues, c: Call)
    requires c.id in qs && Landable(qs[c.id], c.order)
    requires RECEIVE_LIMIT <= |c.nonces| && RECEIVE_LIMIT <= |c.clocks.stamps|
    ensures var result := Receive(p, qs, c.id, c.request, c.clocks, c.order, c.nonces);
            var q, picked := qs[c.id], Selection(qs[c.id], c.request, c.clocks, c.order);
            var moves := Reversed(Those(picked.taken, e => TooOften(q.config, e)));
            && ReturnedBy(q, c.request, c.clocks, c.order) == Those(picked.taken, e => !TooOften(q.config, e))
            && result.queues.Keys == qs.Keys && |moves| <= |c.clocks.stamps|
            && forall x :: x in qs ==>
                 result.queues[x]
                 == qs[x].(
                      available := (if x == c.id then picked.rest else qs[x].available)
                                   + (if q.config.dlq.Some? && x == q.config.dlq.value.target
                                      then Letters(moves, x, c.clocks.stamps, c.clocks.now) else []),
                      inFlight := result.queues[x].inFlight,
                      lastAccess := if x == c.id then c.clocks.access else qs[x].lastAccess)
    ensures forall x :: x in qs && x != c.id ==>
              Receive(p, qs, c.id, c.request, c.clocks, c.order, c.nonces).queues[x].inFlight == qs[x].inFlight
  {
    hide LandAll, Pick, Launch, Answer, DivertAll, Reversed, Kept, Doomed, Those, Letters;
    var q, picked := qs[c.id], Selection(qs[c.id], c.request, c.clocks, c.order);
    SortedByLimit(q.config, picked.taken);
    LandedAtTheBack(q.(lastAccess := c.clocks.access), c.order, c.clocks.now);
    LettersAtTheBack(qs[c.id := Served(p, q, c.id, c.request, c.clocks, c.order, c.nonces)], TargetOf(q.config),
                     MovedBy(q, c.request, c.clocks, c.order), c.clocks.stamps, c.clocks.now);
    if q.config.dlq.None? {
      NoTargetNoLetters(q.config, picked.taken);
      NoMoves(qs[c.id := Served(p, q, c.id, c.request, c.clocks, c.order, c.nonces)], TargetOf(q.config),
              MovedBy(q, c.request, c.clocks, c.order), c.clocks.stamps, c.clocks.now);
    }
  }

  lemma NoTargetNoLetters(config: QueueConfig, taken: seq<Stored>)
    requires config.dlq.None?
    ensures Reversed(Doomed(config, taken)) == []
  {
    NothingDoomed(config, taken);
  }

  // ---------------------------------------------------------------- hidden over a whole run

  /** The copy is gone for good, or in flight under the handle until the deadline. */
  ghost predicate Guarded(s: Store, id: string, h: Handle, t: nat, deadline: nat) {
    && t < |s.ledger|
    && (s.ledger[t].place.Gone?
        || (id in s.queues && h in s.queues[id].inFlight
            && s.queues[id].inFlight[h].ticket == t && s.queues[id].inFlight[h].expiresAt == deadline))
  }

  lemma {:induction false} DeliveryIsAnswer(p: Params, ledger: seq<Record>, id: string, kept: seq<Stored>, nonces: seq<nat>, i: nat)
    requires |kept| <= |nonces| && i < |kept|
    ensures var d := Deliveries(p, ledger, id, kept, nonces)[i];
            d.queue == id && d.ticket == kept[i].ticket && d.handle == Answer(p, id, kept, nonces)[i].handle
  {
    if i > 0 {
      DeliveryIsAnswer(p, ledger, id, kept[1..], nonces, i - 1);
    }
  }

  lemma FreshFlights(s: Store, c: Call)
    requires Callable(s, c)
    ensures Fresh(s.queues[c.id].inFlight, c.nonces)
  {
    hide QueueOk, LimboOk, AllFound, Census;
    forall h | h in s.queues[c.id].inFlight && h.Decoded?
      ensures h.nonce !in c.nonces
    {
      FlyingEntry(s, c.id, h);
    }
  }

  ghost function HiddenUntil(s: Store, c: Call): nat
    requires c.id in s.queues
  {
    c.clocks.now + HidingTime(s.queues[c.id].config, c.request) * SECOND
  }

  lemma ReceivedAre(p: Params, qs: Queues, c: Call)
    requires c.id in qs && Landable(qs[c.id], c.order)
    requires RECEIVE_LIMIT <= |c.nonces| && RECEIVE_LIMIT <= |c.clocks.stamps|
    ensures Receive(p, qs, c.id, c.request, c.clocks, c.order, c.nonces).received
         == Answer(p, c.id, ReturnedBy(qs[c.id], c.request, c.clocks, c.order), c.nonces)
  {
  }

  /** Each delivery of a receive is hidden from then on. */
  lemma DeliveredIsGuarded(p: Params, s: Store, c: Call, d: Delivery)
    requires Callable(s, c)
    requires s.deliveries <= ReceiveS(p, s, c).deliveries && d in NewDeliveries(s, ReceiveS(p, s, c))
    ensures d.queue == c.id && Guarded(ReceiveS(p, s, c), c.id, d.handle, d.ticket, HiddenUntil(s, c))
  {
    hide Inv, Landable, Unused, ReceiveS, Receive, Deliveries, Selected, Returned, ReceivedAll, Answer, ReturnedBy, Fresh, AnswerOf;
    ReceiveEffect(p, s, c);
    FreshFlights(s, c);
    ReceiveSetsDeadlines(p, s.queues, c);
    var kept, s' := ReturnedBy(s.queues[c.id], c.request, c.clocks, c.order), ReceiveS(p, s, c);
    ReturnedIs(s, c);
    ReceivedAre(p, s.queues, c);
    var i :| 0 <= i < |NewDeliveries(s, s')| && NewDeliveries(s, s')[i] == d;
    DeliveryIsAnswer(p, Selected(s, c).ledger, c.id, kept, c.nonces, i);
    AnswerFlies(s.queues[c.id].inFlight - (set h | h in c.order), s'.queues[c.id].inFlight, kept[i],
                Answer(p, c.id, kept, c.nonces)[i], HiddenUntil(s, c));
    FlightTicket(s', c.id, d.handle);
  }

  lemma AnswerFlies(m: map<Handle, InFlight>, m': map<Handle, InFlight>, e: Stored, a: Received, deadline: nat)
    requires AnswerOf(m, m', e, a, deadline)
    ensures a.handle in m' && m'[a.handle].ticket == e.ticket && m'[a.handle].expiresAt == deadline
  {
  }

  lemma FlightTicket(s: Store, id: string, h: Handle)
    requires Inv(s) && id in s.queues && h in s.queues[id].inFlight
    ensures var t := s.queues[id].inFlight[h].ticket;
            t < |s.ledger| && s.ledger[t].place == Flying(id, h)
  {
    hide QueueOk, LimboOk, AllFound, Census;
    FlyingEntry(s, id, h);
  }

  lemma ReturnedIs(s: Store, c: Call)
    requires Callable(s, c)
    ensures Returned(s, c) == ReturnedBy(s.queues[c.id], c.request, c.clocks, c.order)
  {
  }

  /** The event changes the deadline of the handle. */
  predicate Changes(e: Event, h: Handle) {
    e.ChangeVisibility? && e.handle == h
  }

  /** An event that neither receives nor sweeps leaves a flight alone, or ends it for good. */
  lemma QuietGuard(p: Params, s: Store, e: Event, id: string, h: Handle)
    requires Enabled(s, e) && !e.ReceiveMessages? && !e.SweepQueue? && !Changes(e, h)
    requires id in s.queues && h in s.queues[id].inFlight
    ensures var s', t := Apply(p, s, e), s.queues[id].inFlight[h].ticket;
            || (id in s'.queues && h in s'.queues[id].inFlight && s'.queues[id].inFlight[h] == s.queues[id].inFlight[h])
            || (t < |s'.ledger| && s'.ledger[t].place.Gone?)
  {
    hide Inv, DrainS, HandleFault, SendOne;
    FlightTicket(s, id, h);
    match e {
      case RemoveQueue(x) => if x in s.queues { DrainEffect(s, x, QueueRemoved); }
      case PurgeQueue(x) => if x in s.queues { DrainEffect(s, x, Purged); }
      case Push(x, m, clocks) => if x in s.queues { SendKeepsFlights(p, s.queues[x], m, clocks, |s.ledger|); }
      case DeleteMessage(x, g) => FaultFacts(p, s.queues, x, g);
      case ChangeVisibility(x, g, _, _) => FaultFacts(p, s.queues, x, g);
      case _ =>
    }
  }

  lemma SendKeepsFlights(p: Params, q: Queue, m: Message, r: Reads, ticket: nat)
    ensures SendOne(p, q, m, r, ticket).queue.inFlight == q.inFlight
  {
  }

  lemma GuardStep(p: Params, s: Store, e: Event, id: string, h: Handle, t: nat, deadline: nat)
    requires Enabled(s, e) && Guarded(s, id, h, t, deadline) && NotYetExpired(e, deadline) && !Changes(e, h)
    ensures Guarded(Apply(p, s, e), id, h, t, deadline)
  {
    hide Inv, ReceiveS, LandAllS, Apply;
    StepKeeps(p, s, e);
    if !s.ledger[t].place.Gone? {
      if e.ReceiveMessages? || e.SweepQueue? {
        JudgedEarly(p, s, e, id, h);
      } else {
        QuietGuard(p, s, e, id, h);
      }
    }
  }

  lemma JudgedEarly(p: Params, s: Store, e: Event, id: string, h: Handle)
    requires Enabled(s, e) && (e.ReceiveMessages? || e.SweepQueue?)
    requires id in s.queues && h in s.queues[id].inFlight && NotYetExpired(e, s.queues[id].inFlight[h].expiresAt)
    ensures var s' := Apply(p, s, e);
            id in s'.queues && h in s'.queues[id].inFlight && s'.queues[id].inFlight[h] == s.queues[id].inFlight[h]
  {
    hide Inv, ReceiveS, LandAllS, Evolves;
    if e.ReceiveMessages? {
      if e.call.id in s.queues { ReceiveExcludes(p, s, e.call, id, h); }
    } else if e.id in s.queues {
      SweepSpares(p, s, e.id, e.order, e.now, id, h);
    }
  }

  lemma EventTime(p: Params, s: Store, e: Event, deadline: nat)
    requires Enabled(s, e) && Apply(p, s, e).clock < deadline
    ensures NotYetExpired(e, deadline)
  {
    hide Inv, ReceiveS, LandAllS, Supplied, Unused, ExpiryOrder;
  }

  lemma {:induction false} GuardRun(p: Params, s: Store, es: seq<Event>, id: string, h: Handle, t: nat, deadline: nat)
    requires Resting(s) && Run(p, s, es) && Guarded(s, id, h, t, deadline) && After(p, s, es).clock < deadline
    requires forall i :: 0 <= i < |es| ==> !Changes(es[i], h)
    ensures Guarded(After(p, s, es), id, h, t, deadline)
    decreases |es|
  {
    hide Resting, Guarded, Apply, Evolves, Enabled;
    if es != [] {
      StepKeeps(p, s, es[0]);
      var s1 := Apply(p, s, es[0]);
      RunKeeps(p, s1, es[1..]);
      ClockGrows(s1, After(p, s1, es[1..]));
      EventTime(p, s, es[0], deadline);
      GuardStep(p, s, es[0], id, h, t, deadline);
      assert forall i :: 0 <= i < |es| - 1 ==> es[1..][i] == es[i + 1];
      GuardRun(p, s1, es[1..], id, h, t, deadline);
    }
  }

  lemma ClockGrows(s: Store, s': Store)
    requires Evolves(s, s')
    ensures s.clock <= s'.clock && s.deliveries <= s'.deliveries
  {
  }

  lemma GoneIsNotDelivered(p: Params, s: Store, c: Call, d: Delivery)
    requires Callable(s, c)
    requires s.deliveries <= ReceiveS(p, s, c).deliveries && d in NewDeliveries(s, ReceiveS(p, s, c))
    ensures d.ticket < |s.ledger| ==> !s.ledger[d.ticket].place.Gone?
  {
    hide Inv, Landable, Unused, ReceiveS, Receive, Deliveries, Selected, Returned, Moved, ReceivedAll, Has;
    ReceiveEffect(p, s, c);
    DeliveredTickets(p, Selected(s, c).ledger, c.id, Returned(s, c), c.nonces);
    assert NewDeliveries(s, ReceiveS(p, s, c)) == Deliveries(p, Selected(s, c).ledger, c.id, Returned(s, c), c.nonces);
    if d.ticket < |s.ledger| {
      ReceivedPoint(p, s, c, d.ticket);
    }
  }

  /** A guarded copy is not delivered by a receive that judges before the deadline. */
  lemma GuardedIsNotDelivered(p: Params, s: Store, c: Call, id: string, h: Handle, t: nat, deadline: nat, d: Delivery)
    requires Callable(s, c) && ExpiryOrder(s.queues[c.id], c.order, c.clocks.now) && c.clocks.now < deadline
    requires Guarded(s, id, h, t, deadline)
    requires s.deliveries <= ReceiveS(p, s, c).deliveries && d in NewDeliveries(s, ReceiveS(p, s, c))
    ensures d.ticket != t
  {
    hide Inv, Landable, Unused, Supplied, ReceiveS, Receive;
    GoneIsNotDelivered(p, s, c, d);
    if !s.ledger[t].place.Gone? {
      ReceiveExcludes(p, s, c, id, h);
    }
  }

  /** What a receive returns stays hidden for the time asked for, or else for the time the queue was
      configured with at that moment: over every run, a receive that judges before that time is over
      does not return the copy again, from any queue, unless a change of visibility with its handle
      came in between. */
  lemma HiddenUntilDeadline(p: Params, past: seq<Event>, c: Call, end: nat, es: seq<Event>, later: Call, last: nat, d: Delivery)
    requires Run(p, EMPTY, past) && Enabled(After(p, EMPTY, past), ReceiveMessages(c, end))
    requires c.id in After(p, EMPTY, past).queues
    requires var s1 := Apply(p, After(p, EMPTY, past), ReceiveMessages(c, end));
             && Run(p, s1, es) && Enabled(After(p, s1, es), ReceiveMessages(later, last))
             && After(p, EMPTY, past).deliveries <= s1.deliveries && d in NewDeliveries(After(p, EMPTY, past), s1)
    requires forall i :: 0 <= i < |es| ==> !Changes(es[i], d.handle)
    requires var config := After(p, EMPTY, past).queues[c.id].config;
             later.clocks.now < c.clocks.now + HidingTime(config, c.request) * SECOND
    ensures var s := After(p, Apply(p, After(p, EMPTY, past), ReceiveMessages(c, end)), es);
            var s' := Apply(p, s, ReceiveMessages(later, last));
            && s.deliveries <= s'.deliveries
            && forall x :: x in NewDeliveries(s, s') ==> x.ticket != d.ticket
  {
    hide Run, After, Apply, Enabled, Resting, Evolves, Guarded, Changes, HidingTime;
    StartRests();
    RunKeeps(p, EMPTY, past);
    var s0 := After(p, EMPTY, past);
    var s1 := Apply(p, s0, ReceiveMessages(c, end));
    StepKeeps(p, s0, ReceiveMessages(c, end));
    ReceivedIsGuarded(p, s0, c, end, d);
    RunKeeps(p, s1, es);
    var s := After(p, s1, es);
    ReceiveTime(p, s, later, last);
    GuardRun(p, s1, es, c.id, d.handle, d.ticket, HiddenUntil(s0, c));
    StepKeeps(p, s, ReceiveMessages(later, last));
    ClockGrows(s, Apply(p, s, ReceiveMessages(later, last)));
    GuardedReceive(p, s, later, last, c.id, d.handle, d.ticket, HiddenUntil(s0, c));
  }

  lemma ReceivedIsGuarded(p: Params, s: Store, c: Call, end: nat, d: Delivery)
    requires Enabled(s, ReceiveMessages(c, end)) && c.id in s.queues
    requires s.deliveries <= Apply(p, s, ReceiveMessages(c, end)).deliveries
    requires d in NewDeliveries(s, Apply(p, s, ReceiveMessages(c, end)))
    ensures d.queue == c.id && Guarded(Apply(p, s, ReceiveMessages(c, end)), c.id, d.handle, d.ticket, HiddenUntil(s, c))
  {
    hide Inv, ReceiveS, Guarded, Callable, ExpiryOrder, Supplied, Unused, HidingTime;
    ReceiveReady(s, c, end);
    DeliveredIsGuarded(p, s, c, d);
    GuardedLater(ReceiveS(p, s, c), Apply(p, s, ReceiveMessages(c, end)), c.id, d.handle, d.ticket, HiddenUntil(s, c));
  }

  lemma ReceiveTime(p: Params, s: Store, c: Call, end: nat)
    requires Enabled(s, ReceiveMessages(c, end))
    ensures s.clock <= c.clocks.now
  {
    hide Inv;
  }

  lemma GuardedReceive(p: Params, s: Store, c: Call, end: nat, id: string, h: Handle, t: nat, deadline: nat)
    requires Enabled(s, ReceiveMessages(c, end)) && Guarded(s, id, h, t, deadline) && c.clocks.now < deadline
    requires s.deliveries <= Apply(p, s, ReceiveMessages(c, end)).deliveries
    ensures forall x :: x in NewDeliveries(s, Apply(p, s, ReceiveMessages(c, end))) ==> x.ticket != t
  {
    hide Inv, ReceiveS, Guarded, Callable, Supplied, Unused;
    if c.id in s.queues {
      ReceiveReady(s, c, end);
      forall x | x in NewDeliveries(s, Apply(p, s, ReceiveMessages(c, end)))
        ensures x.ticket != t
      {
        GuardedIsNotDelivered(p, s, c, id, h, t, deadline, x);
      }
    }
  }

  lemma GuardedLater(s: Store, s': Store, id: string, h: Handle, t: nat, deadline: nat)
    requires Guarded(s, id, h, t, deadline) && s'.queues == s.queues && s'.ledger == s.ledger
    ensures Guarded(s', id, h, t, deadline)
  {
  }
}

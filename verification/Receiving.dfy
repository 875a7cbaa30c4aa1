/** One receive, made of the moves of History.dfy: what it keeps, and what it does to every
    stored copy. */
module Receiving {
  import opened Types
  import opened Sequences
  import opened QueueModel
  import opened History

  // ---------------------------------------------------------------- landing the expired

  ghost function LandAllS(s: Store, id: string, order: seq<Handle>, now: nat): Store
    requires id in s.queues && Landable(s.queues[id], order)
    decreases |order|
  {
    if order == [] then s
    else
      LandableTail(s.queues[id], order, now);
      LandAllS(LandS(s, id, order[0], now), id, order[1..], now)
  }

  /** The copy stayed as it was, or was in flight with an expired handle and is available. */
  ghost predicate LandedRecord(r: Record, r': Record, id: string, order: seq<Handle>) {
    || r' == r
    || (r.place.Flying? && r.place.queue == id && r.place.handle in order && r' == r.(place := Available(id)))
  }

  ghost predicate LandedAll(s: Store, s': Store, id: string, order: seq<Handle>) {
    && |s'.ledger| == |s.ledger|
    && forall t :: 0 <= t < |s.ledger| ==> LandedRecord(s.ledger[t], s'.ledger[t], id, order)
  }

  lemma {:induction false} LandAllEffect(s: Store, id: string, order: seq<Handle>, now: nat)
    requires Inv(s) && id in s.queues && Landable(s.queues[id], order)
    ensures var s' := LandAllS(s, id, order, now);
            && Inv(s')
            && s' == s.(queues := s.queues[id := LandAll(s.queues[id], order, now)], ledger := s'.ledger)
            && LandedAll(s, s', id, order)
    decreases |order|
  {
    hide QueueOk, QueuesOk, LimboOk, AllFound, Census;
    if order == [] {
      assert s.queues[id := s.queues[id]] == s.queues;
    } else {
      LandKeeps(s, id, order[0], now);
      FlyingEntry(s, id, order[0]);
      LandableTail(s.queues[id], order, now);
      LandAllEffect(LandS(s, id, order[0], now), id, order[1..], now);
    }
  }

  // ---------------------------------------------------------------- delivering the kept

  /** Nonces not used by any handle so far. */
  ghost predicate Unused(s: Store, nonces: seq<nat>, n: nat)
    requires n <= |nonces|
  {
    forall i :: 0 <= i < n ==> nonces[i] !in s.nonces
  }

  ghost predicate Held(s: Store, entries: seq<Stored>) {
    DistinctTickets(entries) && forall e :: e in entries ==> e in s.limbo
  }

  lemma HeldTail(s: Store, entries: seq<Stored>)
    requires Held(s, entries) && entries != []
    ensures Held(s, entries[1..]) && entries[0] !in entries[1..]
    ensures forall t: nat :: Has(entries, t) <==> t == entries[0].ticket || Has(entries[1..], t)
    ensures !Has(entries[1..], entries[0].ticket)
    ensures (set e | e in entries) == {entries[0]} + (set e | e in entries[1..])
  {
    var tail := entries[1..];
    assert forall i :: 0 <= i < |tail| ==> tail[i] == entries[i + 1];
    assert entries == [entries[0]] + tail;
    forall t: nat
      ensures Has(entries, t) <==> t == entries[0].ticket || Has(tail, t)
    {
      HasIn(entries, t);
      HasIn(tail, t);
    }
  }

  ghost predicate Known(s: Store, id: string, entries: seq<Stored>) {
    id in s.queues && forall e :: e in entries ==> e.ticket < |s.ledger|
  }

  lemma HeldTickets(s: Store, entries: seq<Stored>)
    requires Inv(s) && Held(s, entries)
    ensures forall e :: e in entries ==> e.ticket < |s.ledger|
  {
    forall e | e in entries
      ensures e.ticket < |s.ledger|
    {
      LimboEntry(s.ledger, s.limbo, e);
    }
  }

  ghost function LaunchAllS(p: Params, s: Store, id: string, kept: seq<Stored>,
                            nonces: seq<nat>, expiresAt: nat): (s': Store)
    requires Known(s, id, kept) && |kept| <= |nonces|
    ensures |s'.ledger| == |s.ledger| && id in s'.queues
  {
    if kept == [] then s
    else
      var s1 := LaunchAllS(p, s, id, kept[1..], nonces, expiresAt);
      LaunchS(s1, id, kept[0], Ticketed(p, id, kept[0].message, nonces[|kept| - 1]), expiresAt)
  }

  /** The deliveries of one receive, in the order the consumer sees them. */
  ghost function Deliveries(p: Params, ledger: seq<Record>, id: string, kept: seq<Stored>,
                            nonces: seq<nat>): (d: seq<Delivery>)
    requires |kept| <= |nonces|
    ensures |d| == |kept|
  {
    if kept == [] then []
    else
      var e := kept[0];
      [Delivery(id, e.ticket, Ticketed(p, id, e.message, nonces[|kept| - 1]),
                e.ticket < |ledger| && ledger[e.ticket].served == 0)]
      + Deliveries(p, ledger, id, kept[1..], nonces)
  }

  /** A returned copy: one more return, and a handle with a nonce never used before. */
  ghost predicate LaunchedRecord(s: Store, r: Record, r': Record, id: string) {
    && r'.place.Flying? && r'.place.queue == id
    && r'.place.handle.Decoded? && r'.place.handle.nonce !in s.nonces
    && r' == r.(place := r'.place, served := r.served + 1)
  }

  ghost predicate LaunchedAll(s: Store, s': Store, id: string, kept: seq<Stored>) {
    && |s'.ledger| == |s.ledger|
    && forall t :: 0 <= t < |s.ledger| ==>
         if Has(kept, t) then LaunchedRecord(s, s.ledger[t], s'.ledger[t], id)
         else s'.ledger[t] == s.ledger[t]
  }

  /** Everything a run of deliveries changes. */
  ghost predicate Launched(p: Params, s: Store, s': Store, id: string, kept: seq<Stored>,
                           nonces: seq<nat>, expiresAt: nat)
    requires id in s.queues && |kept| <= |nonces|
  {
    && s' == s.(queues := s.queues[id := s.queues[id].(
                  inFlight := Launch(p, s.queues[id].inFlight, id, kept, nonces, expiresAt))],
                limbo := s.limbo - (set e | e in kept),
                ledger := s'.ledger,
                nonces := s.nonces + (set n | n in nonces[..|kept|]),
                batch := Deliveries(p, s.ledger, id, kept, nonces) + s.batch)
    && LaunchedAll(s, s', id, kept)
  }

  /** One more delivery, at the front of those made so far. */
  lemma LaunchStep(p: Params, s: Store, s1: Store, id: string, kept: seq<Stored>,
                   nonces: seq<nat>, expiresAt: nat)
    requires Inv(s1) && id in s.queues && kept != [] && Held(s, kept)
    requires |kept| <= |nonces| && Distinct(nonces) && Unused(s, nonces, |kept|)
    requires kept[0].ticket < |s.ledger|
    requires Launched(p, s, s1, id, kept[1..], nonces, expiresAt)
    ensures var s' := LaunchS(s1, id, kept[0], Ticketed(p, id, kept[0].message, nonces[|kept| - 1]), expiresAt);
            Inv(s') && Launched(p, s, s', id, kept, nonces, expiresAt)
  {
    hide QueueOk, QueuesOk, LimboOk, AllFound, Census, EntryOk, Unused;
    HeldTail(s, kept);
    var e := kept[0];
    var n := nonces[|kept| - 1];
    var h := Ticketed(p, id, e.message, n);
    assert n !in s1.nonces && n !in s.nonces by {
      FreshNonce(s, nonces, |kept| - 1);
    }
    hide Distinct;
    hide Held;
    assert e in s1.limbo by { HeldFirst(s, kept); }
    LaunchKeeps(s1, id, e, h, expiresAt);
    var s' := LaunchS(s1, id, e, h, expiresAt);
    assert nonces[..|kept|] == nonces[..|kept| - 1] + [n];
    assert s'.nonces == s.nonces + (set m | m in nonces[..|kept|]);
    assert s'.limbo == s.limbo - (set f | f in kept);
    assert s'.queues == s.queues[id := s'.queues[id]];
    LaunchRecords(s, s1, s', id, kept, h);
    assert s'.batch == Deliveries(p, s.ledger, id, kept, nonces) + s.batch;
  }

  lemma HeldFirst(s: Store, kept: seq<Stored>)
    requires Held(s, kept) && kept != []
    ensures kept[0] in s.limbo
  {
  }

  lemma FreshNonce(s: Store, nonces: seq<nat>, k: nat)
    requires k < |nonces| && Distinct(nonces) && Unused(s, nonces, k + 1)
    ensures nonces[k] !in s.nonces && nonces[k] !in nonces[..k]
  {
  }

  lemma LaunchRecords(s: Store, s1: Store, s': Store, id: string, kept: seq<Stored>, h: Handle)
    requires kept != [] && LaunchedAll(s, s1, id, kept[1..])
    requires kept[0].ticket < |s.ledger|
    requires forall t: nat :: Has(kept, t) <==> t == kept[0].ticket || Has(kept[1..], t)
    requires !Has(kept[1..], kept[0].ticket)
    requires h.Decoded? && h.nonce !in s.nonces
    requires s'.ledger == s1.ledger[kept[0].ticket :=
               s1.ledger[kept[0].ticket].(place := Flying(id, h), served := s1.ledger[kept[0].ticket].served + 1)]
    ensures LaunchedAll(s, s', id, kept)
  {
    hide Has;
  }

  lemma {:induction false} LaunchAllEffect(p: Params, s: Store, id: string, kept: seq<Stored>,
                                           nonces: seq<nat>, expiresAt: nat)
    requires Inv(s) && id in s.queues && Held(s, kept)
    requires |kept| <= |nonces| && Distinct(nonces) && Unused(s, nonces, |kept|)
    ensures Known(s, id, kept)
    ensures var s' := LaunchAllS(p, s, id, kept, nonces, expiresAt);
            Inv(s') && Launched(p, s, s', id, kept, nonces, expiresAt)
  {
    hide QueueOk, QueuesOk, LimboOk, AllFound, Census, Distinct;
    HeldTickets(s, kept);
    if kept == [] {
      assert s.queues[id := s.queues[id]] == s.queues;
      assert s.limbo - (set e | e in kept) == s.limbo;
      assert s.nonces + (set n | n in nonces[..0]) == s.nonces;
    } else {
      HeldTail(s, kept);
      hide Held, Launched;
      LaunchAllEffect(p, s, id, kept[1..], nonces, expiresAt);
      LaunchStep(p, s, LaunchAllS(p, s, id, kept[1..], nonces, expiresAt), id, kept, nonces, expiresAt);
    }
  }

  // ---------------------------------------------------------------- moving the doomed

  ghost function DivertAllS(s: Store, target: string, moves: seq<Stored>, stamps: seq<nat>, now: nat): Store
    requires forall e :: e in moves ==> e.ticket < |s.ledger|
    requires |moves| <= |stamps|
    decreases |moves|
  {
    if moves == [] then s
    else DivertAllS(DivertS(s, target, moves[0], stamps[0], now), target, moves[1..], stamps[1..], now)
  }

  /** A dead-lettered copy: in the target with a fresh count, or dropped if there is none. */
  ghost predicate DivertedRecord(qs: Queues, r: Record, r': Record, target: string) {
    if target in qs
    then r' == r.(place := Available(target), entryCount := 0, served := 0)
    else r' == r.(place := Gone(Dropped))
  }

  ghost predicate DivertedAll(s: Store, s': Store, target: string, moves: seq<Stored>) {
    && |s'.ledger| == |s.ledger|
    && forall t :: 0 <= t < |s.ledger| ==>
         if Has(moves, t) then DivertedRecord(s.queues, s.ledger[t], s'.ledger[t], target)
         else s'.ledger[t] == s.ledger[t]
  }

  lemma {:induction false} DivertAllEffect(s: Store, target: string, moves: seq<Stored>, stamps: seq<nat>, now: nat)
    requires Inv(s) && Held(s, moves) && |moves| <= |stamps|
    ensures forall e :: e in moves ==> e.ticket < |s.ledger|
    ensures var s' := DivertAllS(s, target, moves, stamps, now);
            && Inv(s')
            && s' == s.(queues := DivertAll(s.queues, target, moves, stamps, now),
                        limbo := s.limbo - (set e | e in moves),
                        ledger := s'.ledger)
            && DivertedAll(s, s', target, moves)
    decreases |moves|
  {
    hide QueueOk, QueuesOk, LimboOk, AllFound, Census;
    HeldTickets(s, moves);
    if moves == [] {
      assert s.limbo - (set e | e in moves) == s.limbo;
    } else {
      HeldTail(s, moves);
      var e := moves[0];
      DivertKeeps(s, target, e, stamps[0], now);
      var s1 := DivertS(s, target, e, stamps[0], now);
      DivertAllEffect(s1, target, moves[1..], stamps[1..], now);
      var s' := DivertAllS(s, target, moves, stamps, now);
      assert s'.limbo == s.limbo - (set f | f in moves);
      hide Has;
    }
  }

  // ---------------------------------------------------------------- the whole receive

  /** The splitting of the taken entries into those returned and those dead-lettered. */
  lemma {:induction false} SortedOut(config: QueueConfig, taken: seq<Stored>)
    requires DistinctTickets(taken)
    ensures Splits(taken, Picked(Kept(config, taken), Doomed(config, taken)))
    ensures forall e :: e in Kept(config, taken) ==> !Dead(config, e)
    ensures forall e :: e in Doomed(config, taken) ==> Dead(config, e)
  {
    hide Dead;
    if taken != [] {
      var tail := taken[1..];
      assert forall i :: 0 <= i < |tail| ==> tail[i] == taken[i + 1];
      assert forall e :: e in tail ==> e.ticket != taken[0].ticket;
      assert forall e :: e in taken <==> e == taken[0] || e in tail;
      SortedOut(config, tail);
    }
  }

  lemma {:induction false} ReversedDistinct(a: seq<Stored>)
    requires DistinctTickets(a)
    ensures DistinctTickets(Reversed(a))
  {
    if a != [] {
      var tail := a[1..];
      assert forall i :: 0 <= i < |tail| ==> tail[i] == a[i + 1];
      assert forall e :: e in tail ==> e.ticket != a[0].ticket;
      ReversedDistinct(tail);
      ReversedElements(tail);
      assert forall i :: 0 <= i < |tail| ==> Reversed(tail)[i] in Reversed(tail);
    }
  }

  datatype Call = Call(id: string, request: Request, clocks: ReceiveReads, order: seq<Handle>, nonces: seq<nat>)

  /** The conditions under which a receive from an existing queue runs: between operations,
      with the expired handles listed once each, and with fresh nonces. */
  ghost predicate Callable(s: Store, c: Call) {
    && Inv(s) && s.limbo == {} && s.batch == []
    && c.id in s.queues && Landable(s.queues[c.id], c.order)
    && Supplied(c.nonces, c.clocks) && Unused(s, c.nonces, |c.nonces|)
  }

  ghost function Taken(s: Store, c: Call): seq<Stored>
    requires Callable(s, c)
  {
    Selection(s.queues[c.id], c.request, c.clocks, c.order).taken
  }

  ghost function Returned(s: Store, c: Call): (r: seq<Stored>)
    requires Callable(s, c)
    ensures |r| <= RECEIVE_LIMIT
  {
    ReturnedBy(s.queues[c.id], c.request, c.clocks, c.order)
  }

  ghost function Moved(s: Store, c: Call): (r: seq<Stored>)
    requires Callable(s, c)
    ensures |r| <= RECEIVE_LIMIT
  {
    MovedBy(s.queues[c.id], c.request, c.clocks, c.order)
  }

  ghost function Deadline(s: Store, c: Call): nat
    requires Callable(s, c)
  {
    c.clocks.now + Timeout(s.queues[c.id].config, c.request) * SECOND
  }

  /** After the expired are back and the selected entries are out of the deque. */
  ghost function Selected(s: Store, c: Call): Store
    requires Callable(s, c)
  {
    var touched := s.(queues := s.queues[c.id := s.queues[c.id].(lastAccess := c.clocks.access)]);
    var landed := LandAllS(touched, c.id, c.order, c.clocks.now);
    LandKeepsKeys(touched, c.id, c.order, c.clocks.now);
    ExtractS(landed, c.id, Selection(s.queues[c.id], c.request, c.clocks, c.order))
  }

  lemma {:induction false} LandKeepsKeys(s: Store, id: string, order: seq<Handle>, now: nat)
    requires id in s.queues && Landable(s.queues[id], order)
    ensures id in LandAllS(s, id, order, now).queues
    decreases |order|
  {
    if order != [] {
      LandableTail(s.queues[id], order, now);
      LandKeepsKeys(LandS(s, id, order[0], now), id, order[1..], now);
    }
  }

  /** A receive takes copies that are available or whose handle has expired. */
  ghost predicate Takeable(place: Place, c: Call) {
    place == Available(c.id) || (place.Flying? && place.queue == c.id && place.handle in c.order)
  }

  /** What `Selected` did: the selection is in limbo, everything else at most landed. */
  ghost predicate SelectedAll(s: Store, s': Store, c: Call)
    requires Callable(s, c)
  {
    && |s'.ledger| == |s.ledger|
    && forall t :: 0 <= t < |s.ledger| ==>
         if Has(Taken(s, c), t)
         then s'.ledger[t] == s.ledger[t].(place := Limbo) && Takeable(s.ledger[t].place, c)
         else LandedRecord(s.ledger[t], s'.ledger[t], c.id, c.order)
  }

  lemma SelectedEffect(s: Store, c: Call)
    requires Callable(s, c)
    ensures var s' := Selected(s, c);
            var q := Landed(s.queues[c.id], c.clocks, c.order);
            && Inv(s')
            && Splits(q.available, Selection(s.queues[c.id], c.request, c.clocks, c.order))
            && s' == s.(queues := s.queues[c.id := q.(available := Selection(s.queues[c.id], c.request, c.clocks, c.order).rest)],
                        limbo := (set e | e in Taken(s, c)),
                        ledger := s'.ledger)
            && SelectedAll(s, s', c)
  {
    hide QueueOk, QueuesOk, LimboOk, AllFound, Census, LandedRecord;
    var id := c.id;
    var touched := s.(queues := s.queues[id := s.queues[id].(lastAccess := c.clocks.access)]);
    RefitKeeps(s, id, touched.queues[id]);
    LandAllEffect(touched, id, c.order, c.clocks.now);
    var landed := LandAllS(touched, id, c.order, c.clocks.now);
    var picked := Selection(s.queues[id], c.request, c.clocks, c.order);
    StoreSplits(landed, id, c.clocks.now, PickLimit(c.request.maxMessages));
    ExtractKeeps(landed, id, picked);
    forall t: nat | t < |s.ledger| && Has(picked.taken, t)
      ensures landed.ledger[t].place == Available(id)
      ensures landed.ledger[t] == s.ledger[t] || landed.ledger[t] == s.ledger[t].(place := Available(id))
      ensures Takeable(s.ledger[t].place, c)
    {
      ExtractMarks(landed, id, picked, t);
      LandedOrigin(s.ledger[t], landed.ledger[t], c);
    }
    hide Has, Splits;
  }

  lemma LandedOrigin(r: Record, r': Record, c: Call)
    requires LandedRecord(r, r', c.id, c.order) && r'.place == Available(c.id)
    ensures Takeable(r.place, c) && r'.(place := Limbo) == r.(place := Limbo)
    ensures r' == r || r' == r.(place := Available(c.id))
  {
  }

  lemma ReturnedHeld(s: Store, c: Call)
    requires Callable(s, c)
    ensures var s1 := Selected(s, c);
            && Inv(s1) && c.id in s1.queues
            && Held(s1, Returned(s, c)) && Held(s1, Moved(s, c))
            && s1.limbo == (set e | e in Returned(s, c)) + (set e | e in Moved(s, c))
            && (forall t: nat :: Has(Taken(s, c), t) <==> Has(Returned(s, c), t) || Has(Moved(s, c), t))
            && (forall t: nat :: !(Has(Returned(s, c), t) && Has(Moved(s, c), t)))
            && (forall e :: e in Moved(s, c) ==> e !in Returned(s, c))
            && Unused(s1, c.nonces, |Returned(s, c)|)
  {
    hide QueueOk, QueuesOk, LimboOk, AllFound, Census;
    SelectedEffect(s, c);
    var config := s.queues[c.id].config;
    SortedOut(config, Taken(s, c));
    ReversedDistinct(Doomed(config, Taken(s, c)));
    ReversedElements(Doomed(config, Taken(s, c)));
    forall t: nat
      ensures Has(Taken(s, c), t) <==> Has(Returned(s, c), t) || Has(Moved(s, c), t)
      ensures !(Has(Returned(s, c), t) && Has(Moved(s, c), t))
    {
      HasIn(Taken(s, c), t);
      HasIn(Returned(s, c), t);
      HasIn(Moved(s, c), t);
    }
  }

  ghost function Delivered(p: Params, s: Store, c: Call): (s': Store)
    requires Callable(s, c)
    ensures Inv(s') && Held(s', Moved(s, c))
    ensures Launched(p, Selected(s, c), s', c.id, Returned(s, c), c.nonces, Deadline(s, c))
  {
    hide QueueOk, QueuesOk, LimboOk, AllFound, Census;
    ReturnedHeld(s, c);
    LaunchAllEffect(p, Selected(s, c), c.id, Returned(s, c), c.nonces, Deadline(s, c));
    LaunchAllS(p, Selected(s, c), c.id, Returned(s, c), c.nonces, Deadline(s, c))
  }

  /** The receive: select, deliver, dead-letter, and hand the batch over. */
  ghost function ReceiveS(p: Params, s: Store, c: Call): Store
    requires Callable(s, c)
  {
    hide QueueOk, QueuesOk, LimboOk, AllFound, Census;
    var s1 := Delivered(p, s, c);
    HeldTickets(s1, Moved(s, c));
    var s2 := DivertAllS(s1, TargetOf(s.queues[c.id].config), Moved(s, c), c.clocks.stamps, c.clocks.now);
    s2.(deliveries := s2.deliveries + s2.batch, batch := [])
  }

  /** What one receive does to the copy with ticket t. */
  ghost predicate ReceivedRecord(s: Store, c: Call, t: nat, r': Record)
    requires Callable(s, c) && t < |s.ledger|
  {
    var r := s.ledger[t];
    var target := TargetOf(s.queues[c.id].config);
    if Has(Returned(s, c), t) then
      Takeable(r.place, c) && LaunchedRecord(s, r, r', c.id)
    else if Has(Moved(s, c), t) then
      Takeable(r.place, c) && DivertedRecord(s.queues, r, r', target)
    else
      LandedRecord(r, r', c.id, c.order)
  }

  ghost predicate ReceivedAll(s: Store, s': Store, c: Call)
    requires Callable(s, c)
  {
    && |s'.ledger| == |s.ledger|
    && forall t :: 0 <= t < |s.ledger| ==> ReceivedRecord(s, c, t, s'.ledger[t])
  }

  /** The receive keeps the invariant, leaves nothing in limbo, agrees with the queues of
      QueueModel.Receive, and changes each copy as stated. */
  lemma ReceiveEffect(p: Params, s: Store, c: Call)
    requires Callable(s, c)
    ensures var s' := ReceiveS(p, s, c);
            && Inv(s')
            && s' == s.(queues := Receive(p, s.queues, c.id, c.request, c.clocks, c.order, c.nonces).queues,
                        ledger := s'.ledger,
                        deliveries := s.deliveries
                          + Deliveries(p, Selected(s, c).ledger, c.id, Returned(s, c), c.nonces),
                        nonces := s.nonces + (set n | n in c.nonces[..|Returned(s, c)|]))
            && ReceivedAll(s, s', c)
  {
    hide QueueOk, LimboOk, AllFound, Census, Receive, Returned, Moved, Deliveries, TargetOf;
    ReturnedHeld(s, c);
    SelectedEffect(s, c);
    var target := TargetOf(s.queues[c.id].config);
    var s1 := Delivered(p, s, c);
    ServedQueues(p, s, s1, c);
    DivertAllEffect(s1, target, Moved(s, c), c.clocks.stamps, c.clocks.now);
    var s2 := DivertAllS(s1, target, Moved(s, c), c.clocks.stamps, c.clocks.now);
    HandedOver(s2);
    assert s1.limbo == (set e | e in Moved(s, c));
    assert s2.limbo == {};
    ReceivedRecords(p, s, Selected(s, c), s1, s2, c);
  }

  /** The queues just before the dead-letter moves are those of QueueModel.Receive. */
  lemma ServedQueues(p: Params, s: Store, s1: Store, c: Call)
    requires Callable(s, c)
    requires Selected(s, c).queues == s.queues[c.id := Landed(s.queues[c.id], c.clocks, c.order).(
               available := Selection(s.queues[c.id], c.request, c.clocks, c.order).rest)]
    requires Launched(p, Selected(s, c), s1, c.id, Returned(s, c), c.nonces, Deadline(s, c))
    ensures Receive(p, s.queues, c.id, c.request, c.clocks, c.order, c.nonces).queues
         == DivertAll(s1.queues, TargetOf(s.queues[c.id].config), Moved(s, c), c.clocks.stamps, c.clocks.now)
  {
    hide Inv, LandAll, Pick, Launch, Kept, Doomed, DivertAll, Reversed, Selected, LaunchedAll, Answer;
    var q := Landed(s.queues[c.id], c.clocks, c.order);
    assert s1.queues == s.queues[c.id := q.(
      available := Selection(s.queues[c.id], c.request, c.clocks, c.order).rest,
      inFlight := Launch(p, q.inFlight, c.id, Returned(s, c), c.nonces, Deadline(s, c)))];
  }

  lemma HandedOver(s: Store)
    requires Inv(s)
    ensures Inv(s.(deliveries := s.deliveries + s.batch, batch := []))
  {
    var s' := s.(deliveries := s.deliveries + s.batch, batch := []);
    assert AllFound(s') by {
      hide QueuesOk, LimboOk;
      forall t: nat | t < |s'.ledger|
        ensures Found(s', t)
      {
        assert Found(s, t);
      }
    }
  }

  lemma ReceivedRecords(p: Params, s: Store, s1: Store, s2: Store, s3: Store, c: Call)
    requires Callable(s, c)
    requires SelectedAll(s, s1, c)
    requires s1.nonces == s.nonces
    requires LaunchedAll(s1, s2, c.id, Returned(s, c))
    requires s2.queues.Keys == s.queues.Keys
    requires DivertedAll(s2, s3, TargetOf(s.queues[c.id].config), Moved(s, c))
    requires forall t: nat :: Has(Taken(s, c), t) <==> Has(Returned(s, c), t) || Has(Moved(s, c), t)
    requires forall t: nat :: !(Has(Returned(s, c), t) && Has(Moved(s, c), t))
    ensures ReceivedAll(s, s3, c)
  {
    hide Has, Inv, Callable, Returned, Moved, Taken;
    forall t: nat | t < |s.ledger|
      ensures ReceivedRecord(s, c, t, s3.ledger[t])
    {
      var r := s.ledger[t];
      assert Has(Returned(s, c), t) ==> s1.ledger[t] == r.(place := Limbo);
      assert Has(Moved(s, c), t) ==> s1.ledger[t] == r.(place := Limbo);
    }
  }

  /** The effect of a receive on one copy. */
  lemma ReceivedPoint(p: Params, s: Store, c: Call, t: nat)
    requires Callable(s, c) && t < |s.ledger|
    ensures |ReceiveS(p, s, c).ledger| == |s.ledger|
    ensures ReceivedRecord(s, c, t, ReceiveS(p, s, c).ledger[t])
  {
    hide ReceivedRecord, ReceiveS, Receive, Deliveries, Returned, Inv;
    ReceiveEffect(p, s, c);
  }
}

/** The backend's queues together with what has happened to every stored copy, and the moves
    out of which every operation is made. */
module History {
  import opened Types
  import opened QueueModel

  datatype Fate = Deleted | Evicted | Purged | QueueRemoved | Dropped

  /** `Limbo` is a copy held by the operation that owns the lock. */
  datatype Place =
    | Available(queue: string)
    | Flying(queue: string, handle: Handle)
    | Limbo
    | Gone(fate: Fate)

  /** One stored copy: the message as stored, the queue it was sent to, where it is now, the
      receive count it entered its present queue with, and how often that queue has returned it
      to a consumer since. */
  datatype Record = Record(message: Message, home: string, place: Place, entryCount: u32, served: nat)

  datatype Delivery = Delivery(queue: string, ticket: nat, handle: Handle, first: bool)

  /** One accepted send of a FIFO queue. */
  datatype Accept = Accept(id: string, at: nat)

  /** Ticket t is described by ledger[t]. `deliveries` lists every message ever returned, in the
      order consumers saw them; `nonces` holds every nonce ever used in a handle; `accepts` never
      forgets an accepted send of a queue's present lifetime. `limbo` and `batch` are empty
      except while an operation runs. */
  datatype Store = Store(
    queues: Queues,
    ledger: seq<Record>,
    limbo: set<Stored>,
    batch: seq<Delivery>,
    deliveries: seq<Delivery>,
    nonces: set<nat>,
    accepts: map<string, seq<Accept>>,
    clock: nat)

  const EMPTY: Store := Store(map[], [], {}, [], [], {}, map[], 0)

  // ---------------------------------------------------------------- the invariant

  ghost predicate Has(a: seq<Stored>, t: nat) {
    exists i :: 0 <= i < |a| && a[i].ticket == t
  }

  /** The message held for a ticket is the one that was stored, and its receive count is the one
      it entered with plus the returns since, as a u32. */
  ghost predicate EntryOk(ledger: seq<Record>, t: nat, m: Message, place: Place) {
    && t < |ledger|
    && ledger[t].place == place
    && Payload(m) == Payload(ledger[t].message)
    && m.receiveCount == (ledger[t].entryCount + ledger[t].served) % U32_LIMIT
  }

  ghost predicate DistinctTickets(a: seq<Stored>) {
    forall i, j :: 0 <= i < j < |a| ==> a[i].ticket != a[j].ticket
  }

  ghost predicate QueueOk(ledger: seq<Record>, nonces: set<nat>, id: string, q: Queue) {
    && (forall i :: 0 <= i < |q.available| ==>
          EntryOk(ledger, q.available[i].ticket, q.available[i].message, Available(id)))
    && DistinctTickets(q.available)
    && (forall h :: h in q.inFlight ==>
          && EntryOk(ledger, q.inFlight[h].ticket, q.inFlight[h].message, Flying(id, h))
          && h.Decoded? && h.queueId == id && h.nonce in nonces)
  }

  ghost predicate LimboOk(ledger: seq<Record>, limbo: set<Stored>) {
    && (forall e :: e in limbo ==> EntryOk(ledger, e.ticket, e.message, Limbo))
    && (forall e, f :: e in limbo && f in limbo && e.ticket == f.ticket ==> e == f)
  }

  /** The place the ledger gives for a ticket is where a copy with that ticket is. */
  ghost predicate Found(s: Store, t: nat)
    requires t < |s.ledger|
  {
    match s.ledger[t].place
    case Available(id) => id in s.queues && Has(s.queues[id].available, t)
    case Flying(id, h) => id in s.queues && h in s.queues[id].inFlight && s.queues[id].inFlight[h].ticket == t
    case Limbo => exists e :: e in s.limbo && e.ticket == t
    case Gone(_) => true
  }

  function GoneCount(ledger: seq<Record>): nat {
    if ledger == [] then 0
    else GoneCount(ledger[..|ledger| - 1]) + if ledger[|ledger| - 1].place.Gone? then 1 else 0
  }

  /** Every copy ever stored is still held or gone. */
  ghost predicate Census(s: Store) {
    |s.ledger| == Total(s.queues) + |s.limbo| + GoneCount(s.ledger)
  }

  ghost predicate QueuesOk(s: Store) {
    forall id :: id in s.queues ==> QueueOk(s.ledger, s.nonces, id, s.queues[id])
  }

  ghost predicate AllFound(s: Store) {
    forall t: nat :: t < |s.ledger| ==> Found(s, t)
  }

  ghost predicate Inv(s: Store) {
    QueuesOk(s) && LimboOk(s.ledger, s.limbo) && AllFound(s) && Census(s)
  }

  predicate Resides(place: Place, id: string) {
    (place.Available? || place.Flying?) && place.queue == id
  }

  // ---------------------------------------------------------------- counting what is gone

  lemma {:induction false} GoneUpdate(ledger: seq<Record>, t: nat, r: Record)
    requires t < |ledger|
    ensures GoneCount(ledger[t := r]) + (if ledger[t].place.Gone? then 1 else 0)
         == GoneCount(ledger) + if r.place.Gone? then 1 else 0
  {
    var last := |ledger| - 1;
    if t == last {
      assert ledger[t := r][..last] == ledger[..last];
    } else {
      GoneUpdate(ledger[..last], t, r);
      assert ledger[t := r][..last] == ledger[..last][t := r];
    }
  }

  lemma {:induction false} GoneSame(a: seq<Record>, b: seq<Record>)
    requires |a| == |b|
    requires forall t :: 0 <= t < |a| ==> (a[t].place.Gone? <==> b[t].place.Gone?)
    ensures GoneCount(a) == GoneCount(b)
  {
    if a != [] {
      GoneSame(a[..|a| - 1], b[..|b| - 1]);
    }
  }

  lemma {:induction false} GoneGrows(a: seq<Record>, b: seq<Record>)
    requires |a| <= |b|
    requires forall t :: 0 <= t < |a| && a[t].place.Gone? ==> b[t].place.Gone?
    ensures GoneCount(a) <= GoneCount(b)
    decreases |b|
  {
    if |a| < |b| {
      GoneGrows(a, b[..|b| - 1]);
    } else if a != [] {
      GoneGrows(a[..|a| - 1], b[..|b| - 1]);
    }
  }

  // ---------------------------------------------------------------- changing one record

  function Placed(ledger: seq<Record>, t: nat, place: Place): seq<Record> {
    if t < |ledger| then ledger[t := ledger[t].(place := place)] else ledger
  }

  // ---------------------------------------------------------------- one queue at a time

  lemma AvailableEntry(s: Store, id: string, i: nat)
    requires QueuesOk(s) && id in s.queues && i < |s.queues[id].available|
    ensures var e := s.queues[id].available[i];
            EntryOk(s.ledger, e.ticket, e.message, Available(id))
  {
    assert QueueOk(s.ledger, s.nonces, id, s.queues[id]);
  }

  lemma FlyingEntry(s: Store, id: string, h: Handle)
    requires QueuesOk(s) && id in s.queues && h in s.queues[id].inFlight
    ensures var f := s.queues[id].inFlight[h];
            EntryOk(s.ledger, f.ticket, f.message, Flying(id, h))
    ensures h.Decoded? && h.queueId == id && h.nonce in s.nonces
  {
    assert QueueOk(s.ledger, s.nonces, id, s.queues[id]);
  }

  /** A queue none of whose tickets' records changed is still in order. */
  lemma QueueFrame(ledger: seq<Record>, ledger': seq<Record>, nonces: set<nat>, nonces': set<nat>,
                   id: string, q: Queue)
    requires QueueOk(ledger, nonces, id, q)
    requires |ledger| <= |ledger'| && nonces <= nonces'
    requires forall i :: 0 <= i < |q.available| && q.available[i].ticket < |ledger| ==>
               ledger'[q.available[i].ticket] == ledger[q.available[i].ticket]
    requires forall h :: h in q.inFlight && q.inFlight[h].ticket < |ledger| ==>
               ledger'[q.inFlight[h].ticket] == ledger[q.inFlight[h].ticket]
    ensures QueueOk(ledger', nonces', id, q)
  {
    forall i | 0 <= i < |q.available|
      ensures EntryOk(ledger', q.available[i].ticket, q.available[i].message, Available(id))
    {
      assert EntryOk(ledger, q.available[i].ticket, q.available[i].message, Available(id));
    }
    forall h | h in q.inFlight
      ensures EntryOk(ledger', q.inFlight[h].ticket, q.inFlight[h].message, Flying(id, h))
    {
      assert EntryOk(ledger, q.inFlight[h].ticket, q.inFlight[h].message, Flying(id, h));
    }
  }

  ghost predicate SameResidents(ledger: seq<Record>, ledger': seq<Record>, id: string) {
    && |ledger| <= |ledger'|
    && forall t :: 0 <= t < |ledger| && Resides(ledger[t].place, id) ==> ledger'[t] == ledger[t]
  }

  lemma ResidentFrame(ledger: seq<Record>, ledger': seq<Record>, nonces: set<nat>, nonces': set<nat>,
                      id: string, q: Queue)
    requires QueueOk(ledger, nonces, id, q) && nonces <= nonces'
    requires SameResidents(ledger, ledger', id)
    ensures QueueOk(ledger', nonces', id, q)
  {
    forall i | 0 <= i < |q.available|
      ensures ledger'[q.available[i].ticket] == ledger[q.available[i].ticket]
    {
      assert EntryOk(ledger, q.available[i].ticket, q.available[i].message, Available(id));
    }
    forall h | h in q.inFlight
      ensures ledger'[q.inFlight[h].ticket] == ledger[q.inFlight[h].ticket]
    {
      assert EntryOk(ledger, q.inFlight[h].ticket, q.inFlight[h].message, Flying(id, h));
    }
    QueueFrame(ledger, ledger', nonces, nonces', id, q);
  }

  /** One queue was replaced by one that is in order; the others kept their residents. */
  lemma QueuesAfter(s: Store, s': Store, id: string)
    requires QueuesOk(s) && s.nonces <= s'.nonces
    requires id in s'.queues && s'.queues == s.queues[id := s'.queues[id]]
    requires QueueOk(s'.ledger, s'.nonces, id, s'.queues[id])
    requires forall x :: x in s.queues && x != id ==> SameResidents(s.ledger, s'.ledger, x)
    ensures QueuesOk(s')
  {
    hide QueueOk, SameResidents;
    forall x | x in s'.queues
      ensures QueueOk(s'.ledger, s'.nonces, x, s'.queues[x])
    {
      if x != id {
        ResidentFrame(s.ledger, s'.ledger, s.nonces, s'.nonces, x, s.queues[x]);
      }
    }
  }

  lemma AppendOk(ledger: seq<Record>, nonces: set<nat>, id: string, q: Queue, q': Queue, e: Stored)
    requires QueueOk(ledger, nonces, id, q)
    requires q'.available == q.available + [e] && q'.inFlight == q.inFlight
    requires EntryOk(ledger, e.ticket, e.message, Available(id))
    requires !Has(q.available, e.ticket)
    ensures QueueOk(ledger, nonces, id, q')
  {
  }

  lemma GroundOk(ledger: seq<Record>, nonces: set<nat>, id: string, q: Queue, q': Queue, h: Handle)
    requires QueueOk(ledger, nonces, id, q)
    requires q'.available == q.available && q'.inFlight == q.inFlight - {h}
    ensures QueueOk(ledger, nonces, id, q')
  {
  }

  lemma HasAppend(a: seq<Stored>, e: Stored, t: nat)
    ensures Has(a + [e], t) <==> Has(a, t) || e.ticket == t
  {
    var b := a + [e];
    if Has(a, t) {
      var i :| 0 <= i < |a| && a[i].ticket == t;
      assert b[i].ticket == t;
    }
    assert b[|a|].ticket == e.ticket;
  }

  lemma HasIn(a: seq<Stored>, t: nat)
    ensures Has(a, t) <==> exists e :: e in a && e.ticket == t
  {
    if Has(a, t) {
      var i :| 0 <= i < |a| && a[i].ticket == t;
      assert a[i] in a;
    }
  }

  lemma PlacedElsewhere(ledger: seq<Record>, nonces: set<nat>, id: string, q: Queue, t: nat)
    requires QueueOk(ledger, nonces, id, q)
    requires t < |ledger| ==> ledger[t].place != Available(id)
    ensures !Has(q.available, t)
  {
    forall i | 0 <= i < |q.available|
      ensures q.available[i].ticket != t
    {
      assert EntryOk(ledger, q.available[i].ticket, q.available[i].message, Available(id));
    }
  }

  // ---------------------------------------------------------------- a new copy

  /** A new copy at the back of a queue. */
  ghost function Enter(s: Store, id: string, q: Queue, m: Message): Store
    requires id in s.queues
  {
    s.(queues := s.queues[id := q],
       ledger := s.ledger + [Record(m, id, Available(id), m.receiveCount, 0)])
  }

  lemma EnterFound(s: Store, id: string, q: Queue, e: Stored)
    requires AllFound(s) && id in s.queues
    requires e.ticket == |s.ledger|
    requires q.available == s.queues[id].available + [e] && q.inFlight == s.queues[id].inFlight
    ensures AllFound(Enter(s, id, q, e.message))
  {
    var s' := Enter(s, id, q, e.message);
    forall t: nat | t < |s'.ledger|
      ensures Found(s', t)
    {
      HasAppend(s.queues[id].available, e, t);
      assert t < |s.ledger| ==> Found(s, t);
    }
  }

  lemma EnterKeeps(s: Store, id: string, q: Queue, e: Stored)
    requires Inv(s) && id in s.queues
    requires e.ticket == |s.ledger|
    requires q.available == s.queues[id].available + [e] && q.inFlight == s.queues[id].inFlight
    ensures Inv(Enter(s, id, q, e.message))
  {
    hide QueueOk, AllFound, LimboOk, EntryOk;
    var s' := Enter(s, id, q, e.message);
    EnterFound(s, id, q, e);
    assert QueueOk(s.ledger, s.nonces, id, s.queues[id]);
    PlacedElsewhere(s.ledger, s.nonces, id, s.queues[id], e.ticket);
    ResidentFrame(s.ledger, s'.ledger, s.nonces, s.nonces, id, s.queues[id]);
    NewEntry(s.ledger, id, e.message);
    AppendOk(s'.ledger, s.nonces, id, s.queues[id], q, e);
    QueuesAfter(s, s', id);
    LimboFrame(s.ledger, s'.ledger, s.limbo, s.limbo);
    TotalUpdate(s.queues, id, q);
    assert s'.ledger[..|s.ledger|] == s.ledger;
  }

  lemma NewEntry(ledger: seq<Record>, id: string, m: Message)
    ensures EntryOk(ledger + [Record(m, id, Available(id), m.receiveCount, 0)], |ledger|, m, Available(id))
  {
  }

  lemma LimboFrame(ledger: seq<Record>, ledger': seq<Record>, limbo: set<Stored>, limbo': set<Stored>)
    requires LimboOk(ledger, limbo) && limbo' <= limbo
    requires |ledger| <= |ledger'|
    requires forall t :: 0 <= t < |ledger| && ledger[t].place.Limbo? ==>
               ledger'[t] == ledger[t] || exists e :: e in limbo - limbo' && e.ticket == t
    ensures LimboOk(ledger', limbo')
  {
    forall e | e in limbo'
      ensures EntryOk(ledger', e.ticket, e.message, Limbo)
    {
      assert EntryOk(ledger, e.ticket, e.message, Limbo);
    }
  }

  // ---------------------------------------------------------------- landing

  /** An expired message returns to the back of its queue. */
  ghost function LandS(s: Store, id: string, h: Handle, now: nat): Store
    requires id in s.queues && h in s.queues[id].inFlight
  {
    s.(queues := s.queues[id := Land(s.queues[id], h, now)],
       ledger := Placed(s.ledger, s.queues[id].inFlight[h].ticket, Available(id)))
  }

  lemma LandFound(s: Store, id: string, h: Handle, now: nat)
    requires QueuesOk(s) && AllFound(s) && id in s.queues && h in s.queues[id].inFlight
    ensures AllFound(LandS(s, id, h, now))
  {
    hide QueueOk;
    var s' := LandS(s, id, h, now);
    var f := s.queues[id].inFlight[h];
    FlyingEntry(s, id, h);
    forall t: nat | t < |s'.ledger|
      ensures Found(s', t)
    {
      assert Found(s, t);
      HasAppend(s.queues[id].available, Stored(f.ticket, f.message, now), t);
    }
  }

  lemma LandQueue(s: Store, id: string, h: Handle, now: nat)
    requires QueuesOk(s) && id in s.queues && h in s.queues[id].inFlight
    ensures var s' := LandS(s, id, h, now);
            QueueOk(s'.ledger, s'.nonces, id, s'.queues[id])
  {
    hide QueueOk;
    var s' := LandS(s, id, h, now);
    var q := s.queues[id];
    var f := q.inFlight[h];
    FlyingEntry(s, id, h);
    assert QueueOk(s.ledger, s.nonces, id, q);
    PlacedElsewhere(s.ledger, s.nonces, id, q, f.ticket);
    var grounded := q.(inFlight := q.inFlight - {h});
    GroundOk(s.ledger, s.nonces, id, q, grounded, h);
    GroundFrame(s, id, h, s'.ledger[f.ticket]);
    AppendOk(s'.ledger, s'.nonces, id, grounded, s'.queues[id], Stored(f.ticket, f.message, now));
  }

  /** The record of a message that just left flight may change freely. */
  lemma GroundFrame(s: Store, id: string, h: Handle, r: Record)
    requires QueuesOk(s) && id in s.queues && h in s.queues[id].inFlight
    ensures s.queues[id].inFlight[h].ticket < |s.ledger|
    ensures var q := s.queues[id];
            QueueOk(s.ledger[q.inFlight[h].ticket := r], s.nonces, id, q.(inFlight := q.inFlight - {h}))
  {
    var q := s.queues[id];
    var q' := q.(inFlight := q.inFlight - {h});
    var t := q.inFlight[h].ticket;
    assert QueueOk(s.ledger, s.nonces, id, q);
    FlyingEntry(s, id, h);
    GroundOk(s.ledger, s.nonces, id, q, q', h);
    forall i | 0 <= i < |q.available|
      ensures q.available[i].ticket != t
    {
      AvailableEntry(s, id, i);
    }
    forall g | g in q'.inFlight
      ensures q.inFlight[g].ticket != t
    {
      FlyingEntry(s, id, g);
    }
    QueueFrame(s.ledger, s.ledger[t := r], s.nonces, s.nonces, id, q');
  }

  lemma LandKeeps(s: Store, id: string, h: Handle, now: nat)
    requires Inv(s) && id in s.queues && h in s.queues[id].inFlight
    ensures Inv(LandS(s, id, h, now))
  {
    hide QueueOk, AllFound, LimboOk, QueuesOk;
    var s' := LandS(s, id, h, now);
    FlyingEntry(s, id, h);
    LandFound(s, id, h, now);
    LandQueue(s, id, h, now);
    QueuesAfter(s, s', id);
    LimboFrame(s.ledger, s'.ledger, s.limbo, s.limbo);
    TotalUpdate(s.queues, id, s'.queues[id]);
    var t := s.queues[id].inFlight[h].ticket;
    GoneUpdate(s.ledger, t, s'.ledger[t]);
  }

  // ---------------------------------------------------------------- taking

  /** The picked entries leave their queue for the hands of the receive. */
  ghost function ExtractS(s: Store, id: string, p: Picked): Store
    requires id in s.queues
  {
    s.(queues := s.queues[id := s.queues[id].(available := p.rest)],
       limbo := s.limbo + (set e | e in p.taken),
       ledger := seq(|s.ledger|, t requires 0 <= t < |s.ledger| =>
                       if Has(p.taken, t) then s.ledger[t].(place := Limbo) else s.ledger[t]))
  }

  /** Taken and rest split the sequence: every entry is in exactly one of them. */
  ghost predicate Splits(a: seq<Stored>, p: Picked) {
    && DistinctTickets(p.taken) && DistinctTickets(p.rest)
    && (forall e :: e in a <==> e in p.taken || e in p.rest)
    && (forall e, f :: e in p.taken && f in p.rest ==> e.ticket != f.ticket)
  }

  lemma {:induction false} PickSplits(a: seq<Stored>, now: nat, n: nat)
    requires DistinctTickets(a)
    ensures Splits(a, Pick(a, now, n))
    ensures forall e :: e in Pick(a, now, n).taken ==> e.visibleAt <= now
  {
    if a == [] || n == 0 {
    } else {
      var tail := a[1..];
      assert forall i :: 0 <= i < |tail| ==> tail[i] == a[i + 1];
      assert forall e :: e in tail ==> e.ticket != a[0].ticket;
      assert forall e :: e in a <==> e == a[0] || e in tail;
      PickSplits(tail, now, if a[0].visibleAt <= now then n - 1 else n);
    }
  }

  lemma {:induction false} SetSize(a: seq<Stored>)
    requires DistinctTickets(a)
    ensures |(set e | e in a)| == |a|
  {
    if a != [] {
      var tail := a[1..];
      assert forall i :: 0 <= i < |tail| ==> tail[i] == a[i + 1];
      SetSize(tail);
      assert (set e | e in a) == {a[0]} + (set e | e in tail);
      assert a[0] !in tail;
    }
  }

  lemma TakenEntry(s: Store, id: string, e: Stored)
    requires QueuesOk(s) && id in s.queues && e in s.queues[id].available
    ensures EntryOk(s.ledger, e.ticket, e.message, Available(id))
  {
    var i :| 0 <= i < |s.queues[id].available| && s.queues[id].available[i] == e;
    AvailableEntry(s, id, i);
  }

  /** Only tickets available in the queue are marked. */
  lemma ExtractMarks(s: Store, id: string, p: Picked, t: nat)
    requires QueuesOk(s) && id in s.queues && Splits(s.queues[id].available, p)
    requires t < |s.ledger| && Has(p.taken, t)
    ensures s.ledger[t].place == Available(id)
  {
    hide QueuesOk;
    HasIn(p.taken, t);
    var e :| e in p.taken && e.ticket == t;
    TakenEntry(s, id, e);
  }

  lemma ExtractQueue(s: Store, id: string, p: Picked)
    requires QueuesOk(s) && id in s.queues && Splits(s.queues[id].available, p)
    ensures var s' := ExtractS(s, id, p);
            QueueOk(s'.ledger, s'.nonces, id, s'.queues[id])
  {
    hide QueuesOk;
    var q := s.queues[id];
    var q' := q.(available := p.rest);
    var s' := ExtractS(s, id, p);
    forall i | 0 <= i < |p.rest|
      ensures EntryOk(s.ledger, p.rest[i].ticket, p.rest[i].message, Available(id))
      ensures !Has(p.taken, p.rest[i].ticket)
    {
      assert p.rest[i] in p.rest;
      TakenEntry(s, id, p.rest[i]);
      HasIn(p.taken, p.rest[i].ticket);
    }
    forall h | h in q.inFlight
      ensures EntryOk(s.ledger, q.inFlight[h].ticket, q.inFlight[h].message, Flying(id, h))
      ensures h.Decoded? && h.queueId == id && h.nonce in s.nonces
      ensures !Has(p.taken, q.inFlight[h].ticket)
    {
      FlyingEntry(s, id, h);
      if Has(p.taken, q.inFlight[h].ticket) {
        ExtractMarks(s, id, p, q.inFlight[h].ticket);
      }
    }
    assert QueueOk(s.ledger, s.nonces, id, q');
    QueueFrame(s.ledger, s'.ledger, s.nonces, s.nonces, id, q');
  }

  lemma ExtractFound(s: Store, id: string, p: Picked)
    requires QueuesOk(s) && AllFound(s)
    requires id in s.queues && s.limbo == {} && Splits(s.queues[id].available, p)
    ensures AllFound(ExtractS(s, id, p))
  {
    hide QueuesOk;
    var s' := ExtractS(s, id, p);
    forall t: nat | t < |s'.ledger|
      ensures Found(s', t)
    {
      assert Found(s, t);
      HasIn(p.taken, t);
      HasIn(p.rest, t);
      HasIn(s.queues[id].available, t);
    }
  }

  lemma ExtractLimbo(s: Store, id: string, p: Picked)
    requires QueuesOk(s) && id in s.queues && s.limbo == {} && Splits(s.queues[id].available, p)
    ensures var s' := ExtractS(s, id, p);
            LimboOk(s'.ledger, s'.limbo)
  {
    hide QueuesOk;
    var s' := ExtractS(s, id, p);
    forall e | e in s'.limbo
      ensures EntryOk(s'.ledger, e.ticket, e.message, Limbo)
    {
      TakenEntry(s, id, e);
      HasIn(p.taken, e.ticket);
    }
  }

  lemma StoreSplits(s: Store, id: string, now: nat, n: nat)
    requires QueuesOk(s) && id in s.queues
    ensures Splits(s.queues[id].available, Pick(s.queues[id].available, now, n))
    ensures forall e :: e in Pick(s.queues[id].available, now, n).taken ==> e.visibleAt <= now
  {
    assert QueueOk(s.ledger, s.nonces, id, s.queues[id]);
    PickSplits(s.queues[id].available, now, n);
  }

  lemma ExtractKeeps(s: Store, id: string, p: Picked)
    requires Inv(s) && id in s.queues && s.limbo == {}
    requires Splits(s.queues[id].available, p) && |p.taken| + |p.rest| == |s.queues[id].available|
    ensures Inv(ExtractS(s, id, p))
  {
    hide QueueOk, QueuesOk, AllFound, LimboOk;
    var s' := ExtractS(s, id, p);
    ExtractQueue(s, id, p);
    ExtractFound(s, id, p);
    ExtractLimbo(s, id, p);
    forall t: nat | t < |s.ledger| && Has(p.taken, t)
      ensures s.ledger[t].place == Available(id)
    {
      ExtractMarks(s, id, p, t);
    }
    QueuesAfter(s, s', id);
    SetSize(p.taken);
    TotalUpdate(s.queues, id, s'.queues[id]);
    GoneSame(s.ledger, s'.ledger);
  }

  // ---------------------------------------------------------------- delivering

  /** A taken message is given a handle and returned to the consumer. */
  ghost function LaunchS(s: Store, id: string, e: Stored, h: Handle, expiresAt: nat): Store
    requires id in s.queues && e.ticket < |s.ledger| && h.Decoded?
  {
    var q := s.queues[id];
    var r := s.ledger[e.ticket];
    s.(queues := s.queues[id := q.(inFlight := q.inFlight[h := InFlight(e.ticket, Bump(e.message), expiresAt)])],
       limbo := s.limbo - {e},
       ledger := s.ledger[e.ticket := r.(place := Flying(id, h), served := r.served + 1)],
       nonces := s.nonces + {h.nonce},
       batch := [Delivery(id, e.ticket, h, r.served == 0)] + s.batch)
  }

  lemma CountOneMore(entry: nat, served: nat, count: u32)
    requires count == (entry + served) % U32_LIMIT
    ensures Increment(count) == (entry + (served + 1)) % U32_LIMIT
  {
    var n := entry + served;
    assert n == n / U32_LIMIT * U32_LIMIT + count;
    if count + 1 < U32_LIMIT {
      assert n + 1 == n / U32_LIMIT * U32_LIMIT + (count + 1);
    } else {
      assert n + 1 == (n / U32_LIMIT + 1) * U32_LIMIT;
    }
  }

  lemma LimboEntry(ledger: seq<Record>, limbo: set<Stored>, e: Stored)
    requires LimboOk(ledger, limbo) && e in limbo
    ensures EntryOk(ledger, e.ticket, e.message, Limbo)
  {
  }

  lemma LaunchFound(s: Store, id: string, e: Stored, h: Handle, expiresAt: nat)
    requires AllFound(s) && LimboOk(s.ledger, s.limbo)
    requires e in s.limbo && id in s.queues && h.Decoded? && h !in s.queues[id].inFlight
    ensures e.ticket < |s.ledger|
    ensures AllFound(LaunchS(s, id, e, h, expiresAt))
  {
    LimboEntry(s.ledger, s.limbo, e);
    var s' := LaunchS(s, id, e, h, expiresAt);
    forall t: nat | t < |s'.ledger|
      ensures Found(s', t)
    {
      assert Found(s, t);
      LimboShrinks(s, s', e, t);
    }
  }

  lemma LimboShrinks(s: Store, s': Store, e: Stored, t: nat)
    requires t < |s.ledger| && Found(s, t) && s'.limbo == s.limbo - {e}
    ensures s.ledger[t].place.Limbo? && t != e.ticket ==> exists f :: f in s'.limbo && f.ticket == t
  {
    if s.ledger[t].place.Limbo? && t != e.ticket {
      var f :| f in s.limbo && f.ticket == t;
      assert f in s'.limbo;
    }
  }

  lemma BoardOk(ledger: seq<Record>, nonces: set<nat>, id: string, q: Queue, q': Queue, h: Handle, f: InFlight)
    requires QueueOk(ledger, nonces, id, q)
    requires q'.available == q.available && q'.inFlight == q.inFlight[h := f]
    requires EntryOk(ledger, f.ticket, f.message, Flying(id, h))
    requires h.Decoded? && h.queueId == id && h.nonce in nonces
    ensures QueueOk(ledger, nonces, id, q')
  {
  }

  lemma LaunchQueue(s: Store, id: string, e: Stored, h: Handle, expiresAt: nat)
    requires QueuesOk(s) && LimboOk(s.ledger, s.limbo)
    requires e in s.limbo && id in s.queues && h.Decoded? && h.queueId == id
    ensures e.ticket < |s.ledger|
    ensures var s' := LaunchS(s, id, e, h, expiresAt);
            QueueOk(s'.ledger, s'.nonces, id, s'.queues[id])
  {
    LimboEntry(s.ledger, s.limbo, e);
    var s' := LaunchS(s, id, e, h, expiresAt);
    CountOneMore(s.ledger[e.ticket].entryCount, s.ledger[e.ticket].served, e.message.receiveCount);
    assert QueueOk(s.ledger, s.nonces, id, s.queues[id]);
    assert EntryOk(s'.ledger, e.ticket, Bump(e.message), Flying(id, h));
    hide QueueOk, EntryOk, LimboOk, QueuesOk;
    ResidentFrame(s.ledger, s'.ledger, s.nonces, s'.nonces, id, s.queues[id]);
    BoardOk(s'.ledger, s'.nonces, id, s.queues[id], s'.queues[id], h,
            InFlight(e.ticket, Bump(e.message), expiresAt));
  }

  lemma LaunchKeeps(s: Store, id: string, e: Stored, h: Handle, expiresAt: nat)
    requires Inv(s) && e in s.limbo && id in s.queues
    requires h.Decoded? && h.queueId == id && h.nonce !in s.nonces
    ensures e.ticket < |s.ledger|
    ensures Inv(LaunchS(s, id, e, h, expiresAt))
  {
    hide QueueOk, AllFound, LimboOk, QueuesOk;
    LimboEntry(s.ledger, s.limbo, e);
    var s' := LaunchS(s, id, e, h, expiresAt);
    if h in s.queues[id].inFlight {
      FlyingEntry(s, id, h);
    }
    LaunchFound(s, id, e, h, expiresAt);
    LaunchQueue(s, id, e, h, expiresAt);
    QueuesAfter(s, s', id);
    LimboFrame(s.ledger, s'.ledger, s.limbo, s'.limbo);
    TotalUpdate(s.queues, id, s'.queues[id]);
    GoneUpdate(s.ledger, e.ticket, s'.ledger[e.ticket]);
  }

  // ---------------------------------------------------------------- dead letters

  /** A taken message over its limit is copied to the dead-letter queue, or dropped. */
  ghost function DivertS(s: Store, target: string, e: Stored, stamp: nat, now: nat): Store
    requires e.ticket < |s.ledger|
  {
    var r := s.ledger[e.ticket];
    var moved := if target in s.queues
                 then r.(place := Available(target), entryCount := 0, served := 0)
                 else r.(place := Gone(Dropped));
    s.(queues := Divert(s.queues, target, e, stamp, now),
       limbo := s.limbo - {e},
       ledger := s.ledger[e.ticket := moved])
  }

  lemma DivertFound(s: Store, target: string, e: Stored, stamp: nat, now: nat)
    requires AllFound(s) && LimboOk(s.ledger, s.limbo) && e in s.limbo
    ensures e.ticket < |s.ledger|
    ensures AllFound(DivertS(s, target, e, stamp, now))
  {
    LimboEntry(s.ledger, s.limbo, e);
    var s' := DivertS(s, target, e, stamp, now);
    forall t: nat | t < |s'.ledger|
      ensures Found(s', t)
    {
      assert Found(s, t);
      LimboShrinks(s, s', e, t);
      if target in s.queues {
        HasAppend(s.queues[target].available, Stored(e.ticket, DlqCopy(e.message, target, stamp), now), t);
      }
    }
  }

  lemma DivertQueues(s: Store, target: string, e: Stored, stamp: nat, now: nat)
    requires QueuesOk(s) && LimboOk(s.ledger, s.limbo) && e in s.limbo
    ensures e.ticket < |s.ledger|
    ensures QueuesOk(DivertS(s, target, e, stamp, now))
  {
    LimboEntry(s.ledger, s.limbo, e);
    var s' := DivertS(s, target, e, stamp, now);
    if target in s.queues {
      assert QueueOk(s.ledger, s.nonces, target, s.queues[target]);
      assert EntryOk(s'.ledger, e.ticket, DlqCopy(e.message, target, stamp), Available(target));
      hide QueueOk, EntryOk, LimboOk, QueuesOk;
      PlacedElsewhere(s.ledger, s.nonces, target, s.queues[target], e.ticket);
      ResidentFrame(s.ledger, s'.ledger, s.nonces, s.nonces, target, s.queues[target]);
      AppendOk(s'.ledger, s.nonces, target, s.queues[target], s'.queues[target],
               Stored(e.ticket, DlqCopy(e.message, target, stamp), now));
      QueuesAfter(s, s', target);
    } else {
      hide QueueOk, EntryOk, LimboOk;
      forall x | x in s.queues
        ensures QueueOk(s'.ledger, s'.nonces, x, s.queues[x])
      {
        ResidentFrame(s.ledger, s'.ledger, s.nonces, s.nonces, x, s.queues[x]);
      }
    }
  }

  lemma DivertKeeps(s: Store, target: string, e: Stored, stamp: nat, now: nat)
    requires Inv(s) && e in s.limbo
    ensures e.ticket < |s.ledger|
    ensures Inv(DivertS(s, target, e, stamp, now))
  {
    hide QueueOk, AllFound, LimboOk, QueuesOk;
    LimboEntry(s.ledger, s.limbo, e);
    var s' := DivertS(s, target, e, stamp, now);
    DivertFound(s, target, e, stamp, now);
    DivertQueues(s, target, e, stamp, now);
    LimboFrame(s.ledger, s'.ledger, s.limbo, s'.limbo);
    if target in s.queues {
      TotalUpdate(s.queues, target, s'.queues[target]);
    }
    GoneUpdate(s.ledger, e.ticket, s'.ledger[e.ticket]);
  }

  // ---------------------------------------------------------------- discarding

  /** The front of a queue is discarded. */
  ghost function DiscardFront(s: Store, id: string, fate: Fate): Store
    requires id in s.queues && s.queues[id].available != []
  {
    s.(queues := EvictFront(s.queues, id),
       ledger := Placed(s.ledger, s.queues[id].available[0].ticket, Gone(fate)))
  }

  lemma DiscardFrontQueue(s: Store, id: string, fate: Fate)
    requires QueuesOk(s) && id in s.queues && s.queues[id].available != []
    ensures var s' := DiscardFront(s, id, fate);
            QueueOk(s'.ledger, s'.nonces, id, s'.queues[id])
  {
    var s' := DiscardFront(s, id, fate);
    var q, q' := s.queues[id], s'.queues[id];
    AvailableEntry(s, id, 0);
    assert QueueOk(s.ledger, s.nonces, id, q);
    assert QueueOk(s.ledger, s.nonces, id, q') by {
      assert forall i :: 0 <= i < |q'.available| ==> q'.available[i] == q.available[i + 1];
    }
    forall h | h in q.inFlight
      ensures q.inFlight[h].ticket != q.available[0].ticket
    {
      FlyingEntry(s, id, h);
    }
    assert forall i :: 0 <= i < |q'.available| ==> q'.available[i].ticket != q.available[0].ticket;
    hide QueueOk, QueuesOk;
    QueueFrame(s.ledger, s'.ledger, s.nonces, s.nonces, id, q');
  }

  lemma DiscardFrontFound(s: Store, id: string, fate: Fate)
    requires QueuesOk(s) && AllFound(s) && id in s.queues && s.queues[id].available != []
    ensures AllFound(DiscardFront(s, id, fate))
  {
    hide QueuesOk;
    var s' := DiscardFront(s, id, fate);
    var q, q' := s.queues[id], s'.queues[id];
    AvailableEntry(s, id, 0);
    forall t: nat | t < |s'.ledger|
      ensures Found(s', t)
    {
      assert Found(s, t);
      if t != q.available[0].ticket && s.ledger[t].place == Available(id) {
        var i :| 0 <= i < |q.available| && q.available[i].ticket == t;
        assert q'.available[i - 1].ticket == t;
      }
    }
  }

  lemma DiscardFrontKeeps(s: Store, id: string, fate: Fate)
    requires Inv(s) && id in s.queues && s.queues[id].available != []
    ensures Inv(DiscardFront(s, id, fate))
  {
    hide QueueOk, AllFound, LimboOk, QueuesOk;
    var s' := DiscardFront(s, id, fate);
    AvailableEntry(s, id, 0);
    DiscardFrontQueue(s, id, fate);
    DiscardFrontFound(s, id, fate);
    QueuesAfter(s, s', id);
    LimboFrame(s.ledger, s'.ledger, s.limbo, s.limbo);
    TotalUpdate(s.queues, id, s'.queues[id]);
    var t := s.queues[id].available[0].ticket;
    GoneUpdate(s.ledger, t, s'.ledger[t]);
  }

  /** A message in flight is discarded. */
  ghost function DiscardFlying(s: Store, id: string, h: Handle, fate: Fate): Store
    requires id in s.queues && h in s.queues[id].inFlight
  {
    var q := s.queues[id];
    s.(queues := s.queues[id := q.(inFlight := q.inFlight - {h})],
       ledger := Placed(s.ledger, q.inFlight[h].ticket, Gone(fate)))
  }

  lemma DiscardFlyingFound(s: Store, id: string, h: Handle, fate: Fate)
    requires QueuesOk(s) && AllFound(s) && id in s.queues && h in s.queues[id].inFlight
    ensures AllFound(DiscardFlying(s, id, h, fate))
  {
    hide QueuesOk;
    var s' := DiscardFlying(s, id, h, fate);
    FlyingEntry(s, id, h);
    forall t: nat | t < |s'.ledger|
      ensures Found(s', t)
    {
      assert Found(s, t);
    }
  }

  lemma DiscardFlyingKeeps(s: Store, id: string, h: Handle, fate: Fate)
    requires Inv(s) && id in s.queues && h in s.queues[id].inFlight
    ensures Inv(DiscardFlying(s, id, h, fate))
  {
    hide QueueOk, AllFound, LimboOk, QueuesOk;
    var s' := DiscardFlying(s, id, h, fate);
    FlyingEntry(s, id, h);
    var t := s.queues[id].inFlight[h].ticket;
    GroundFrame(s, id, h, s'.ledger[t]);
    DiscardFlyingFound(s, id, h, fate);
    QueuesAfter(s, s', id);
    LimboFrame(s.ledger, s'.ledger, s.limbo, s.limbo);
    TotalUpdate(s.queues, id, s'.queues[id]);
    GoneUpdate(s.ledger, t, s'.ledger[t]);
  }

  // ---------------------------------------------------------------- changes that move nothing

  /** The same copies in the same places; deadlines and bookkeeping may differ. */
  ghost predicate SameHoldings(q: Queue, q': Queue) {
    && q'.available == q.available
    && q'.inFlight.Keys == q.inFlight.Keys
    && forall h :: h in q.inFlight ==>
         q'.inFlight[h].ticket == q.inFlight[h].ticket && q'.inFlight[h].message == q.inFlight[h].message
  }

  lemma RefitQueue(ledger: seq<Record>, nonces: set<nat>, id: string, q: Queue, q': Queue)
    requires QueueOk(ledger, nonces, id, q) && SameHoldings(q, q')
    ensures QueueOk(ledger, nonces, id, q')
    ensures Size(q') == Size(q)
  {
    assert |q'.inFlight| == |q'.inFlight.Keys| == |q.inFlight|;
  }

  lemma RefitFound(s: Store, id: string, q: Queue)
    requires AllFound(s) && id in s.queues && SameHoldings(s.queues[id], q)
    ensures AllFound(s.(queues := s.queues[id := q]))
  {
    var s' := s.(queues := s.queues[id := q]);
    forall t: nat | t < |s'.ledger|
      ensures Found(s', t)
    {
      assert Found(s, t);
    }
  }

  lemma RefitKeeps(s: Store, id: string, q: Queue)
    requires Inv(s) && id in s.queues && SameHoldings(s.queues[id], q)
    ensures Inv(s.(queues := s.queues[id := q]))
  {
    hide QueueOk, LimboOk, AllFound, SameHoldings;
    var s' := s.(queues := s.queues[id := q]);
    RefitQueue(s.ledger, s.nonces, id, s.queues[id], q);
    hide QueuesOk;
    QueuesAfter(s, s', id);
    RefitFound(s, id, q);
    TotalUpdate(s.queues, id, q);
  }

  // ---------------------------------------------------------------- emptying a queue

  /** Every copy of the queue is discarded, one at a time. */
  ghost function DrainS(s: Store, id: string, fate: Fate): Store
    requires id in s.queues
    decreases Size(s.queues[id])
  {
    var q := s.queues[id];
    if q.available != [] then
      DrainS(DiscardFront(s, id, fate), id, fate)
    else if q.inFlight != map[] then
      var h := SomeHandle(q.inFlight);
      GroundedSize(q.inFlight, h);
      DrainS(DiscardFlying(s, id, h, fate), id, fate)
    else
      s
  }

  ghost function SomeHandle(m: map<Handle, InFlight>): (h: Handle)
    requires m != map[]
    ensures h in m
  {
    var h :| h in m;
    h
  }

  lemma GroundedSize(m: map<Handle, InFlight>, h: Handle)
    requires h in m
    ensures |m - {h}| == |m| - 1
  {
    assert (m - {h}).Keys == m.Keys - {h};
    assert |m.Keys| == |m| && |(m - {h}).Keys| == |m - {h}|;
  }

  ghost predicate DrainedAll(s: Store, s': Store, id: string, fate: Fate) {
    && |s'.ledger| == |s.ledger|
    && forall t :: 0 <= t < |s.ledger| ==>
         s'.ledger[t] == if Resides(s.ledger[t].place, id) then s.ledger[t].(place := Gone(fate)) else s.ledger[t]
  }

  lemma NobodyHome(s: Store, id: string)
    requires AllFound(s) && (id in s.queues ==> s.queues[id].available == [] && s.queues[id].inFlight == map[])
    ensures forall t :: 0 <= t < |s.ledger| ==> !Resides(s.ledger[t].place, id)
  {
    forall t: nat | t < |s.ledger|
      ensures !Resides(s.ledger[t].place, id)
    {
      assert Found(s, t);
    }
  }

  lemma {:induction false} DrainEffect(s: Store, id: string, fate: Fate)
    requires Inv(s) && id in s.queues
    ensures var s' := DrainS(s, id, fate);
            && Inv(s')
            && s' == s.(queues := s.queues[id := Purge(s.queues[id])], ledger := s'.ledger)
            && DrainedAll(s, s', id, fate)
    decreases Size(s.queues[id])
  {
    hide Inv, DrainedAll, Drains;
    var q := s.queues[id];
    if q.available != [] {
      DrainFront(s, id, fate);
      hide DiscardFront;
      DrainEffect(DiscardFront(s, id, fate), id, fate);
      DrainCompose(s, DiscardFront(s, id, fate), DrainS(s, id, fate), id, fate);
    } else if q.inFlight != map[] {
      var h := SomeHandle(q.inFlight);
      GroundedSize(q.inFlight, h);
      DrainFlight(s, id, h, fate);
      hide DiscardFlying;
      DrainEffect(DiscardFlying(s, id, h, fate), id, fate);
      DrainCompose(s, DiscardFlying(s, id, h, fate), DrainS(s, id, fate), id, fate);
    } else {
      assert Inv(s) ==> AllFound(s) by { InvFound(s); }
      NobodyHome(s, id);
      DrainNothing(s, id, fate);
      assert s.queues[id := Purge(q)] == s.queues;
    }
  }

  lemma InvFound(s: Store)
    ensures Inv(s) ==> AllFound(s)
  {
  }

  /** One copy of the queue is gone, and nothing else changed. */
  ghost predicate Drains(s: Store, s1: Store, id: string, fate: Fate)
    requires id in s.queues
  {
    && id in s1.queues && Purge(s1.queues[id]) == Purge(s.queues[id])
    && s1 == s.(queues := s.queues[id := s1.queues[id]], ledger := s1.ledger)
    && exists t :: 0 <= t < |s.ledger| && Resides(s.ledger[t].place, id)
         && s1.ledger == s.ledger[t := s.ledger[t].(place := Gone(fate))]
  }

  lemma DrainFront(s: Store, id: string, fate: Fate)
    requires Inv(s) && id in s.queues && s.queues[id].available != []
    ensures Inv(DiscardFront(s, id, fate)) && Drains(s, DiscardFront(s, id, fate), id, fate)
  {
    hide QueueOk, QueuesOk, LimboOk, AllFound, Census;
    DiscardFrontKeeps(s, id, fate);
    AvailableEntry(s, id, 0);
  }

  lemma DrainFlight(s: Store, id: string, h: Handle, fate: Fate)
    requires Inv(s) && id in s.queues && s.queues[id].available == [] && h in s.queues[id].inFlight
    ensures Inv(DiscardFlying(s, id, h, fate)) && Drains(s, DiscardFlying(s, id, h, fate), id, fate)
  {
    hide QueueOk, QueuesOk, LimboOk, AllFound, Census;
    DiscardFlyingKeeps(s, id, h, fate);
    FlyingEntry(s, id, h);
  }

  lemma DrainNothing(s: Store, id: string, fate: Fate)
    requires forall t :: 0 <= t < |s.ledger| ==> !Resides(s.ledger[t].place, id)
    ensures DrainedAll(s, s, id, fate)
  {
  }

  lemma DrainCompose(s: Store, s1: Store, s': Store, id: string, fate: Fate)
    requires id in s.queues && Drains(s, s1, id, fate)
    requires s' == s1.(queues := s1.queues[id := Purge(s1.queues[id])], ledger := s'.ledger)
    requires DrainedAll(s1, s', id, fate)
    ensures s' == s.(queues := s.queues[id := Purge(s.queues[id])], ledger := s'.ledger)
    ensures DrainedAll(s, s', id, fate)
  {
  }

  lemma RemoveKeeps(s: Store, id: string)
    requires Inv(s) && id in s.queues && s.queues[id].available == [] && s.queues[id].inFlight == map[]
    ensures Inv(s.(queues := s.queues - {id}))
  {
    hide QueueOk, LimboOk;
    var s' := s.(queues := s.queues - {id});
    NobodyHome(s, id);
    TotalRemove(s.queues, id);
    assert AllFound(s') by {
      hide QueuesOk;
      forall t: nat | t < |s'.ledger|
        ensures Found(s', t)
      {
        assert Found(s, t);
      }
    }
  }

  lemma CreateFound(s: Store, id: string, q: Queue)
    requires AllFound(s) && id !in s.queues
    ensures AllFound(s.(queues := s.queues[id := q]))
  {
    var s' := s.(queues := s.queues[id := q]);
    forall t: nat | t < |s'.ledger|
      ensures Found(s', t)
    {
      assert Found(s, t);
    }
  }

  lemma EmptyQueueOk(ledger: seq<Record>, nonces: set<nat>, id: string, q: Queue)
    requires q.available == [] && q.inFlight == map[]
    ensures QueueOk(ledger, nonces, id, q)
  {
  }

  lemma CreateKeeps(s: Store, id: string, q: Queue)
    requires Inv(s) && id !in s.queues && q.available == [] && q.inFlight == map[]
    ensures Inv(s.(queues := s.queues[id := q]))
  {
    hide LimboOk, AllFound, QueueOk;
    EmptyQueueOk(s.ledger, s.nonces, id, q);
    TotalUpdate(s.queues, id, q);
    CreateFound(s, id, q);
  }
}

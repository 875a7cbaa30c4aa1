/** The queues of the in-memory backend as values, and what each operation does to them. The
    class in Backend.dfy performs the same operations in place, with the loops of the source. */
module QueueModel {
  import opened Types
  import opened Sequences

  /** `ticket` identifies one stored copy of a message from the push that stored it to the end
      of its life; no branch of any operation reads it. */
  datatype Stored = Stored(ticket: nat, message: Message, visibleAt: nat)
  datatype InFlight = InFlight(ticket: nat, message: Message, expiresAt: nat)

  datatype Queue = Queue(
    config: QueueConfig,
    available: seq<Stored>,
    inFlight: map<Handle, InFlight>,
    dedupCache: map<string, nat>,
    nextSequence: nat,
    lastAccess: nat)

  type Queues = map<string, Queue>

  const DEDUP_WINDOW: nat := 300 * SECOND
  const CLEANUP_THRESHOLD: nat := 1000
  const RECEIVE_LIMIT: nat := 10

  function NewQueue(config: QueueConfig, now: nat): Queue {
    Queue(config, [], map[], map[], 0, now)
  }

  // ---------------------------------------------------------------- counting

  function Size(q: Queue): nat {
    |q.available| + |q.inFlight|
  }

  ghost function Total(qs: Queues): nat {
    if qs == map[] then 0
    else
      var id :| id in qs;
      Size(qs[id]) + Total(qs - {id})
  }

  lemma {:induction false} TotalSplit(qs: Queues, id: string)
    requires id in qs
    ensures Total(qs) == Size(qs[id]) + Total(qs - {id})
    decreases |qs|
  {
    var first :| first in qs && Total(qs) == Size(qs[first]) + Total(qs - {first});
    if first != id {
      TotalSplit(qs - {first}, id);
      TotalSplit(qs - {id}, first);
      assert qs - {first} - {id} == qs - {id} - {first};
    }
  }

  lemma TotalUpdate(qs: Queues, id: string, q: Queue)
    ensures Total(qs[id := q]) + (if id in qs then Size(qs[id]) else 0) == Total(qs) + Size(q)
  {
    TotalSplit(qs[id := q], id);
    assert qs[id := q] - {id} == qs - {id};
    if id in qs {
      TotalSplit(qs, id);
    } else {
      assert qs - {id} == qs;
    }
  }

  lemma TotalRemove(qs: Queues, id: string)
    requires id in qs
    ensures Total(qs) == Size(qs[id]) + Total(qs - {id})
  {
    TotalSplit(qs, id);
  }

  // ---------------------------------------------------------------- sending

  /** The five clock readings one send makes, in program order. */
  datatype Reads = Reads(access: nat, cutoff: nat, accept: nat, prune: nat, stamp: nat)

  ghost predicate OrderedReads(r: Reads, from: nat) {
    from <= r.access <= r.cutoff <= r.accept <= r.prune <= r.stamp
  }

  datatype Outcome = Sent(message: Message) | Duplicate(message: Message) | Refused

  datatype SendResult = SendResult(queue: Queue, outcome: Outcome)

  function DedupId(p: Params, config: QueueConfig, m: Message): Option<string> {
    if m.dedupId.Some? then m.dedupId
    else if config.contentBasedDedup then Some(p.digest(m.body))
    else None
  }

  function Delay(config: QueueConfig, m: Message): u32 {
    if m.delay.Some? then m.delay.value else config.delaySeconds
  }

  /** Dropping the entries older than the window, but only from a large cache. */
  function Prune(cache: map<string, nat>, now: nat): map<string, nat> {
    if |cache| > CLEANUP_THRESHOLD
    then map id | id in cache && cache[id] > now - DEDUP_WINDOW :: cache[id]
    else cache
  }

  predicate RecentlySeen(cache: map<string, nat>, id: string, now: nat) {
    id in cache && cache[id] > now - DEDUP_WINDOW
  }

  function Append(q: Queue, m: Message, stamp: nat, ticket: nat): Queue {
    q.(available := q.available + [Stored(ticket, m, stamp + Delay(q.config, m) * SECOND)])
  }

  function SendOne(p: Params, q: Queue, m: Message, r: Reads, ticket: nat): SendResult {
    var touched := q.(lastAccess := r.access);
    if !q.config.queueType.SqsFifo? then
      SendResult(Append(touched, m, r.stamp, ticket), Sent(m))
    else
      var id := DedupId(p, q.config, m);
      if id.None? then
        SendResult(touched, Refused)
      else if RecentlySeen(q.dedupCache, id.value, r.cutoff) then
        SendResult(touched, Duplicate(m))
      else
        var numbered := m.(sequence := Some(q.nextSequence));
        var remembered := touched.(
          dedupCache := Prune(q.dedupCache[id.value := r.accept], r.prune),
          nextSequence := q.nextSequence + 1);
        SendResult(Append(remembered, numbered, r.stamp, ticket), Sent(numbered))
  }

  datatype BatchResult = BatchResult(queue: Queue, sent: seq<Message>, refused: bool, used: nat)

  /** A batch sends its messages in order and stops at the first one that is refused, leaving
      those before it stored. `used` counts the copies that were stored. */
  function SendBatch(p: Params, q: Queue, ms: seq<Message>, rs: seq<Reads>, ticket: nat): BatchResult
    requires |rs| == |ms|
    decreases |ms|
  {
    if ms == [] then BatchResult(q, [], false, 0)
    else
      var one := SendOne(p, q, ms[0], rs[0], ticket);
      if one.outcome.Refused? then BatchResult(one.queue, [], true, 0)
      else
        var stored := if one.outcome.Sent? then 1 else 0;
        var rest := SendBatch(p, one.queue, ms[1..], rs[1..], ticket + stored);
        BatchResult(rest.queue, [one.outcome.message] + rest.sent, rest.refused, stored + rest.used)
  }

  // ---------------------------------------------------------------- receiving

  function Expired(q: Queue, now: nat): set<Handle> {
    set h | h in q.inFlight && q.inFlight[h].expiresAt <= now
  }

  /** `order` lists the expired handles in some order; the source visits them in the order of
      a hash map, which may be any. */
  ghost predicate ExpiryOrder(q: Queue, order: seq<Handle>, now: nat) {
    Distinct(order) && forall h :: h in order <==> h in Expired(q, now)
  }

  ghost predicate Landable(q: Queue, order: seq<Handle>) {
    Distinct(order) && forall h :: h in order ==> h in q.inFlight
  }

  function Land(q: Queue, h: Handle, now: nat): Queue
    requires h in q.inFlight
  {
    var f := q.inFlight[h];
    q.(inFlight := q.inFlight - {h}, available := q.available + [Stored(f.ticket, f.message, now)])
  }

  function LandAll(q: Queue, order: seq<Handle>, now: nat): Queue
    requires Landable(q, order)
    decreases |order|
  {
    if order == [] then q
    else
      assert forall i :: 0 <= i < |order| - 1 ==> order[1..][i] == order[i + 1];
      LandAll(Land(q, order[0], now), order[1..], now)
  }

  datatype Picked = Picked(taken: seq<Stored>, rest: seq<Stored>)

  /** The first `n` entries visible at `now`, and everything else, both in deque order. */
  function Pick(a: seq<Stored>, now: nat, n: nat): (p: Picked)
    ensures |p.taken| <= n && |p.taken| + |p.rest| == |a|
  {
    if a == [] || n == 0 then Picked([], a)
    else if a[0].visibleAt <= now then
      var p := Pick(a[1..], now, n - 1);
      Picked([a[0]] + p.taken, p.rest)
    else
      var p := Pick(a[1..], now, n);
      Picked(p.taken, [a[0]] + p.rest)
  }

  /** A request for 0 messages still takes one: the loop tests its limit after it has pushed. */
  function PickLimit(maxMessages: u32): nat {
    if maxMessages == 0 then 1 else if maxMessages < RECEIVE_LIMIT then maxMessages else RECEIVE_LIMIT
  }

  function Bump(m: Message): Message {
    m.(receiveCount := Increment(m.receiveCount))
  }

  predicate Dead(config: QueueConfig, e: Stored) {
    config.dlq.Some? && Increment(e.message.receiveCount) > config.dlq.value.maxReceiveCount
  }

  function Kept(config: QueueConfig, taken: seq<Stored>): (r: seq<Stored>)
    ensures |r| <= |taken|
  {
    if taken == [] then []
    else if Dead(config, taken[0]) then Kept(config, taken[1..])
    else [taken[0]] + Kept(config, taken[1..])
  }

  function Doomed(config: QueueConfig, taken: seq<Stored>): (r: seq<Stored>)
    ensures |r| <= |taken|
  {
    if taken == [] then []
    else if Dead(config, taken[0]) then [taken[0]] + Doomed(config, taken[1..])
    else Doomed(config, taken[1..])
  }

  function Ticketed(p: Params, id: string, m: Message, nonce: nat): Handle {
    Decoded(id, m.id, nonce, Bytes(p.mac(id, m.id, nonce)), 0)
  }

  /** Handles are drawn from the last kept message to the first, so the first one kept uses the
      last nonce. */
  function Launch(p: Params, m: map<Handle, InFlight>, id: string, kept: seq<Stored>,
                  nonces: seq<nat>, expiresAt: nat): map<Handle, InFlight>
    requires |kept| <= |nonces|
  {
    if kept == [] then m
    else
      var h := Ticketed(p, id, kept[0].message, nonces[|kept| - 1]);
      Launch(p, m, id, kept[1..], nonces, expiresAt)
        [h := InFlight(kept[0].ticket, Bump(kept[0].message), expiresAt)]
  }

  datatype Received = Received(message: Message, handle: Handle)

  function Answer(p: Params, id: string, kept: seq<Stored>, nonces: seq<nat>): (r: seq<Received>)
    requires |kept| <= |nonces|
    ensures |r| == |kept|
  {
    if kept == [] then []
    else
      var h := Ticketed(p, id, kept[0].message, nonces[|kept| - 1]);
      [Received(Bump(kept[0].message), h)] + Answer(p, id, kept[1..], nonces)
  }

  function DlqCopy(m: Message, target: string, stamp: nat): Message {
    Bump(m).(sentAt := stamp, receiveCount := 0, queueId := target)
  }

  /** One dead-letter move: appended to the target, or dropped when there is no such queue. */
  function Divert(qs: Queues, target: string, e: Stored, stamp: nat, now: nat): Queues {
    if target in qs
    then qs[target := qs[target].(available := qs[target].available
                                  + [Stored(e.ticket, DlqCopy(e.message, target, stamp), now)])]
    else qs
  }

  function DivertAll(qs: Queues, target: string, moves: seq<Stored>, stamps: seq<nat>, now: nat): Queues
    requires |moves| <= |stamps|
  {
    if moves == [] then qs
    else DivertAll(Divert(qs, target, moves[0], stamps[0], now), target, moves[1..], stamps[1..], now)
  }

  /** The clock readings of one receive: the last-access stamp, the moment everything is judged
      by, and one stamp for each dead-letter move. */
  datatype ReceiveReads = ReceiveReads(access: nat, now: nat, stamps: seq<nat>)

  datatype Request = Request(maxMessages: u32, visibilityTimeout: Option<u32>)

  datatype ReceiveResult = ReceiveResult(queues: Queues, received: seq<Received>)

  function Timeout(config: QueueConfig, request: Request): u32 {
    if request.visibilityTimeout.Some? then request.visibilityTimeout.value else config.visibilityTimeout
  }

  /** Enough nonces and stamps for the most messages one receive can take. */
  ghost predicate Supplied(nonces: seq<nat>, r: ReceiveReads) {
    RECEIVE_LIMIT <= |nonces| && RECEIVE_LIMIT <= |r.stamps| && Distinct(nonces)
  }

  function TargetOf(config: QueueConfig): string {
    if config.dlq.Some? then config.dlq.value.target else ""
  }

  /** The queue once its expired messages are back, and what the receive takes from it. */
  function Landed(q: Queue, r: ReceiveReads, order: seq<Handle>): Queue
    requires Landable(q, order)
  {
    LandAll(q.(lastAccess := r.access), order, r.now)
  }

  function Selection(q: Queue, request: Request, r: ReceiveReads, order: seq<Handle>): (s: Picked)
    requires Landable(q, order)
    ensures |s.taken| <= RECEIVE_LIMIT
  {
    Pick(Landed(q, r, order).available, r.now, PickLimit(request.maxMessages))
  }

  function ReturnedBy(q: Queue, request: Request, r: ReceiveReads, order: seq<Handle>): (s: seq<Stored>)
    requires Landable(q, order)
    ensures |s| <= RECEIVE_LIMIT
  {
    Kept(q.config, Selection(q, request, r, order).taken)
  }

  /** The entries over the limit, last first. */
  function MovedBy(q: Queue, request: Request, r: ReceiveReads, order: seq<Handle>): (s: seq<Stored>)
    requires Landable(q, order)
    ensures |s| <= RECEIVE_LIMIT
  {
    Reversed(Doomed(q.config, Selection(q, request, r, order).taken))
  }

  /** The queue before anything is dead-lettered. */
  function Served(p: Params, q: Queue, id: string, request: Request, r: ReceiveReads,
                  order: seq<Handle>, nonces: seq<nat>): Queue
    requires Landable(q, order) && RECEIVE_LIMIT <= |nonces|
  {
    var landed := Landed(q, r, order);
    landed.(available := Selection(q, request, r, order).rest,
            inFlight := Launch(p, landed.inFlight, id, ReturnedBy(q, request, r, order), nonces,
                               r.now + Timeout(q.config, request) * SECOND))
  }

  /** One receive: land the expired, select, return those within the limit in order, and append
      the others to the dead-letter queue in reverse order. */
  function Receive(p: Params, qs: Queues, id: string, request: Request, r: ReceiveReads,
                   order: seq<Handle>, nonces: seq<nat>): ReceiveResult
    requires id in qs && Landable(qs[id], order)
    requires RECEIVE_LIMIT <= |nonces| && RECEIVE_LIMIT <= |r.stamps|
  {
    ReceiveResult(
      DivertAll(qs[id := Served(p, qs[id], id, request, r, order, nonces)], TargetOf(qs[id].config),
                MovedBy(qs[id], request, r, order), r.stamps, r.now),
      Answer(p, id, ReturnedBy(qs[id], request, r, order), nonces))
  }

  // ---------------------------------------------------------------- the other operations

  function Sweep(q: Queue, order: seq<Handle>, now: nat): Queue
    requires Landable(q, order)
  {
    LandAll(q, order, now)
  }

  datatype Fault = QueueNotFound | InvalidReceiptHandle

  datatype HandleData = HandleData(queueId: string, messageId: string, nonce: nat)

  /** Decoding a handle and checking its signature. */
  function ParseHandle(p: Params, h: Handle): Option<HandleData> {
    if h.Decoded? && h.signature.Bytes? && h.signature.value == p.mac(h.queueId, h.messageId, h.nonce)
    then Some(HandleData(h.queueId, h.messageId, h.nonce))
    else None
  }

  /** What delete and change-visibility check before they touch a message. */
  function HandleFault(p: Params, qs: Queues, id: string, h: Handle): Option<Fault> {
    var data := ParseHandle(p, h);
    if data.None? || data.value.queueId != id then Some(InvalidReceiptHandle)
    else if id !in qs then Some(QueueNotFound)
    else if h !in qs[id].inFlight then Some(InvalidReceiptHandle)
    else None
  }

  function Delete(p: Params, qs: Queues, id: string, h: Handle): Queues {
    if HandleFault(p, qs, id, h).Some? then qs
    else qs[id := qs[id].(inFlight := qs[id].inFlight - {h})]
  }

  function Change(p: Params, qs: Queues, id: string, h: Handle, timeout: u32, now: nat): Queues {
    if HandleFault(p, qs, id, h).Some? then qs
    else
      var f := qs[id].inFlight[h].(expiresAt := now + timeout * SECOND);
      qs[id := qs[id].(inFlight := qs[id].inFlight[h := f])]
  }

  function Purge(q: Queue): Queue {
    q.(available := [], inFlight := map[])
  }

  function EvictFront(qs: Queues, id: string): Queues
    requires id in qs && qs[id].available != []
  {
    qs[id := qs[id].(available := qs[id].available[1..])]
  }

  /** Whether the policy may choose `id`: some queue minimal in the policy's key among those
      with an available message. Ties are broken by hash order, so any minimal one may be it. */
  ghost predicate Victim(policy: EvictionPolicy, qs: Queues, id: string) {
    && id in qs && qs[id].available != []
    && match policy
       case RejectNew => false
       case Lru => forall other :: other in qs && qs[other].available != [] ==>
                   qs[id].lastAccess <= qs[other].lastAccess
       case Fifo => forall other :: other in qs && qs[other].available != [] ==>
                    qs[id].available[0].message.sentAt <= qs[other].available[0].message.sentAt
  }

  ghost predicate NothingAvailable(qs: Queues) {
    forall id :: id in qs ==> qs[id].available == []
  }

  // ---------------------------------------------------------------- a whole send

  datatype SendReply = Accepted(messages: seq<Message>) | StorageFull | NoSuchQueue | MissingDedupId(messages: seq<Message>)

  /** Nothing below the limit; at the limit reject, or evict one message if there is one. */
  ghost predicate EvictStep(p: Params, before: Queues, rejected: bool, victim: Option<string>) {
    var full := Total(before) >= p.maxMessages;
    && (rejected <==> full && p.policy.RejectNew?)
    && (victim.Some? <==> full && !rejected && !NothingAvailable(before))
    && (victim.Some? ==> Victim(p.policy, before, victim.value))
  }

  ghost function AfterEviction(p: Params, before: Queues, rejected: bool, victim: Option<string>): Queues
    requires EvictStep(p, before, rejected, victim)
  {
    if victim.Some? then EvictFront(before, victim.value) else before
  }

  /** A send of one or more messages to queue `id`: eviction is decided, and done, before it is
      known whether the queue exists or the messages are accepted. */
  ghost predicate SendStep(p: Params, before: Queues, id: string, messages: seq<Message>, rs: seq<Reads>,
                           ticket: nat, victim: Option<string>, reply: SendReply, after: Queues)
    requires |rs| == |messages|
  {
    && EvictStep(p, before, reply == StorageFull, victim)
    && var qs := AfterEviction(p, before, reply == StorageFull, victim);
       if reply == StorageFull || id !in qs then after == qs && (reply == StorageFull || reply == NoSuchQueue)
       else
         var result := SendBatch(p, qs[id], messages, rs, ticket);
         && after == qs[id := result.queue]
         && reply == if result.refused then MissingDedupId(result.sent) else Accepted(result.sent)
  }

  // ---------------------------------------------------------------- facts about the above

  lemma LandableTail(q: Queue, order: seq<Handle>, now: nat)
    requires Landable(q, order) && order != []
    ensures order[0] in q.inFlight && Landable(Land(q, order[0], now), order[1..])
  {
    var tail := order[1..];
    assert forall i :: 0 <= i < |tail| ==> tail[i] == order[i + 1];
  }

  lemma SendBatchEnd(p: Params, q: Queue, ms: seq<Message>, rs: seq<Reads>, ticket: nat)
    requires |rs| == |ms| == 0
    ensures SendBatch(p, q, ms, rs, ticket) == BatchResult(q, [], false, 0)
  {
  }

  lemma SendBatchStep(p: Params, q: Queue, ms: seq<Message>, rs: seq<Reads>, ticket: nat)
    requires |rs| == |ms| > 0
    ensures var one := SendOne(p, q, ms[0], rs[0], ticket);
            var whole := SendBatch(p, q, ms, rs, ticket);
            if one.outcome.Refused? then whole == BatchResult(one.queue, [], true, 0)
            else
              var stored := if one.outcome.Sent? then 1 else 0;
              var rest := SendBatch(p, one.queue, ms[1..], rs[1..], ticket + stored);
              && whole.queue == rest.queue && whole.sent == [one.outcome.message] + rest.sent
              && whole.refused == rest.refused && whole.used == stored + rest.used
  {
    hide SendOne;
  }

  /** Configuration, deduplication cache and sequence counter. */
  ghost predicate SameMeta(q: Queue, q': Queue) {
    q'.config == q.config && q'.dedupCache == q.dedupCache && q'.nextSequence == q.nextSequence
  }

  lemma {:induction false} LandAllMeta(q: Queue, order: seq<Handle>, now: nat)
    requires Landable(q, order)
    ensures SameMeta(q, LandAll(q, order, now))
    decreases |order|
  {
    if order != [] {
      LandableTail(q, order, now);
      LandAllMeta(Land(q, order[0], now), order[1..], now);
    }
  }

  lemma {:induction false} NothingDoomed(config: QueueConfig, taken: seq<Stored>)
    requires config.dlq.None?
    ensures Doomed(config, taken) == []
  {
    if taken != [] {
      NothingDoomed(config, taken[1..]);
    }
  }

  lemma NoMoves(qs: Queues, target: string, moves: seq<Stored>, stamps: seq<nat>, now: nat)
    requires |moves| <= |stamps| && |moves| == 0
    ensures DivertAll(qs, target, moves, stamps, now) == qs
  {
  }
}

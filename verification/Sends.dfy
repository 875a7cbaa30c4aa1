/** What one send does, told by the fields of the message and the queue; for a FIFO queue by the
    messages sent before. */
module Sends {
  import opened Types
  import opened QueueModel
  import opened History
  import opened Receiving
  import opened Runs
  import opened Dedup

  // ---------------------------------------------------------------- the sends so far

  /** An accepted send to a FIFO queue, and when it was accepted. */
  datatype Earlier = Earlier(message: Message, at: nat)

  ghost predicate Accepts(p: Params, s: Store, e: Event, id: string) {
    && e.Push? && e.id == id && id in s.queues && s.queues[id].config.queueType.SqsFifo?
    && SendOne(p, s.queues[id], e.message, e.clocks, |s.ledger|).outcome.Sent?
  }

  ghost function Noted(p: Params, s: Store, e: Event, id: string, log: seq<Earlier>): seq<Earlier> {
    if e == RemoveQueue(id) then []
    else if Accepts(p, s, e, id) then log + [Earlier(e.message, e.clocks.accept)]
    else log
  }

  /** The accepted sends of the queue's present lifetime. */
  ghost function SendsSoFar(p: Params, s: Store, es: seq<Event>, id: string, log: seq<Earlier>): seq<Earlier>
    requires Run(p, s, es)
    decreases |es|
  {
    if es == [] then log else SendsSoFar(p, Apply(p, s, es[0]), es[1..], id, Noted(p, s, es[0], id, log))
  }

  // ---------------------------------------------------------------- when two messages are the same

  /** Two messages pass for the same: by their ids when both have one, by their bodies when neither
      has; an id may also be the digest of the other's body. */
  ghost predicate SameToQueue(p: Params, a: Message, b: Message) {
    match (a.dedupId, b.dedupId)
    case (Some(x), Some(y)) => x == y
    case (None, None) => a.body == b.body
    case (Some(x), None) => x == p.digest(b.body)
    case (None, Some(y)) => p.digest(a.body) == y
  }

  ghost predicate NoCollisions(p: Params) {
    forall a, b :: p.digest(a) == p.digest(b) ==> a == b
  }

  ghost predicate KeyIs(p: Params, m: Message, key: string) {
    if m.dedupId.Some? then key == m.dedupId.value else key == p.digest(m.body)
  }

  lemma SameKeys(p: Params, a: Message, b: Message, x: string, y: string)
    requires KeyIs(p, a, x) && KeyIs(p, b, y)
    ensures SameToQueue(p, a, b) ==> x == y
    ensures NoCollisions(p) && x == y ==> SameToQueue(p, a, b)
  {
  }

  // ---------------------------------------------------------------- the log of the ledger

  ghost predicate Matches(p: Params, accepts: seq<Accept>, log: seq<Earlier>) {
    && |accepts| == |log|
    && forall i :: 0 <= i < |log| ==> accepts[i].at == log[i].at && KeyIs(p, log[i].message, accepts[i].id)
  }

  ghost predicate LogKept(p: Params, s: Store, id: string, log: seq<Earlier>) {
    if id in s.queues then id in s.accepts && Matches(p, s.accepts[id], log) else log == []
  }

  lemma MatchesMore(p: Params, accepts: seq<Accept>, log: seq<Earlier>, m: Message, key: string, at: nat)
    requires Matches(p, accepts, log) && KeyIs(p, m, key)
    ensures Matches(p, accepts + [Accept(key, at)], log + [Earlier(m, at)])
  {
  }

  lemma SentKey(p: Params, q: Queue, m: Message, r: Reads, ticket: nat)
    requires q.config.queueType.SqsFifo? && SendOne(p, q, m, r, ticket).outcome.Sent?
    ensures var key := DedupId(p, q.config, m); key.Some? && KeyIs(p, m, key.value)
  {
  }

  lemma PushNoted(p: Params, s: Store, e: Event, id: string, log: seq<Earlier>)
    requires Enabled(s, e) && e.Push? && LogKept(p, s, id, log)
    ensures LogKept(p, Apply(p, s, e), id, Noted(p, s, e, id, log))
  {
    hide Inv, SendOne, DedupId, Matches;
    if e.id == id && id in s.queues {
      if Accepts(p, s, e, id) {
        SentKey(p, s.queues[id], e.message, e.clocks, |s.ledger|);
        MatchesMore(p, s.accepts[id], log, e.message, DedupId(p, s.queues[id].config, e.message).value, e.clocks.accept);
      }
    }
  }

  lemma QueuesPersist(p: Params, s: Store, e: Event, id: string)
    requires Enabled(s, e) && !e.Push?
    ensures id in s.queues && e != RemoveQueue(id) ==> id in Apply(p, s, e).queues
    ensures e == RemoveQueue(id) ==> id !in Apply(p, s, e).queues
  {
    hide Inv, DrainS, LandAllS, ReceiveS, ParseHandle, ExpiryOrder, Callable;
    match e
    case RemoveQueue(x) => if x in s.queues { DrainEffect(s, x, QueueRemoved); }
    case PurgeQueue(x) => if x in s.queues { DrainEffect(s, x, Purged); }
    case SweepQueue(x, order, now) => if x in s.queues { SweepKeepsKeys(s, x, order, now); }
    case ReceiveMessages(c, end) => CachesReceived(p, s, e);
    case _ =>
  }

  lemma SweepKeepsKeys(s: Store, x: string, order: seq<Handle>, now: nat)
    requires Resting(s) && x in s.queues && ExpiryOrder(s.queues[x], order, now)
    ensures LandAllS(s, x, order, now).queues.Keys == s.queues.Keys
  {
    hide Inv, LandAllS, LandedAll;
    LandAllEffect(s, x, order, now);
  }

  lemma StepNoted(p: Params, s: Store, e: Event, id: string, log: seq<Earlier>)
    requires Enabled(s, e) && LogKept(p, s, id, log)
    ensures LogKept(p, Apply(p, s, e), id, Noted(p, s, e, id, log))
  {
    hide Apply, Enabled, Matches;
    if e.Push? {
      PushNoted(p, s, e, id, log);
    } else {
      CachesStay(p, s, e);
      QueuesPersist(p, s, e, id);
      NothingSent(p);
    }
  }

  lemma NothingSent(p: Params)
    ensures Matches(p, [], [])
  {
  }

  lemma {:induction false} RunNoted(p: Params, s: Store, es: seq<Event>, id: string, log: seq<Earlier>)
    requires Resting(s) && Run(p, s, es) && LogKept(p, s, id, log)
    ensures LogKept(p, After(p, s, es), id, SendsSoFar(p, s, es, id, log))
    decreases |es|
  {
    hide Resting, LogKept, Noted, Apply;
    if es != [] {
      StepKeeps(p, s, es[0]);
      StepNoted(p, s, es[0], id, log);
      RunNoted(p, Apply(p, s, es[0]), es[1..], id, Noted(p, s, es[0], id, log));
    }
  }

  // ---------------------------------------------------------------- the exact outcome of a send

  /** The message m, sent to a FIFO queue at `now`, was sent before in the last five minutes. */
  ghost predicate SentBefore(p: Params, log: seq<Earlier>, m: Message, now: nat) {
    exists i :: 0 <= i < |log| && now < log[i].at + 300 * SECOND && SameToQueue(p, log[i].message, m)
  }

  /** The entry that a queue gets for a message: due after the message's own delay, or after the
      queue's when the message has none. */
  function Entry(config: QueueConfig, m: Message, r: Reads, ticket: nat): Stored {
    var delay := match m.delay
                 case Some(own) => own
                 case None => config.delaySeconds;
    Stored(ticket, m, r.stamp + delay * SECOND)
  }

  /** A queue that is not FIFO stores every message as it is, at the back. */
  lemma PlainSendIsExact(p: Params, q: Queue, m: Message, r: Reads, ticket: nat)
    requires !q.config.queueType.SqsFifo?
    ensures SendOne(p, q, m, r, ticket)
         == SendResult(q.(available := q.available + [Entry(q.config, m, r, ticket)], lastAccess := r.access), Sent(m))
  {
  }

  lemma RememberedIsSentBefore(p: Params, accepts: seq<Accept>, log: seq<Earlier>, m: Message, key: string, now: nat)
    requires Matches(p, accepts, log) && KeyIs(p, m, key)
    ensures SentBefore(p, log, m, now) ==> Remembered(accepts, key, now)
    ensures NoCollisions(p) && Remembered(accepts, key, now) ==> SentBefore(p, log, m, now)
  {
    hide KeyIs, SameToQueue, NoCollisions;
    if SentBefore(p, log, m, now) {
      var i :| 0 <= i < |log| && now < log[i].at + 300 * SECOND && SameToQueue(p, log[i].message, m);
      SameKeys(p, log[i].message, m, accepts[i].id, key);
    }
    if NoCollisions(p) && Remembered(accepts, key, now) {
      var i :| 0 <= i < |accepts| && accepts[i].id == key && accepts[i].at > now - DEDUP_WINDOW;
      SameKeys(p, log[i].message, m, accepts[i].id, key);
    }
  }

  lemma KeyOfFields(p: Params, config: QueueConfig, m: Message)
    ensures DedupId(p, config, m).None? <==> m.dedupId.None? && !config.contentBasedDedup
    ensures DedupId(p, config, m).Some? ==> KeyIs(p, m, DedupId(p, config, m).value)
  {
  }

  /** What a FIFO queue holds after a send, by its outcome. */
  lemma FifoFields(p: Params, q: Queue, m: Message, r: Reads, ticket: nat)
    requires q.config.queueType.SqsFifo?
    ensures var result := SendOne(p, q, m, r, ticket);
            && result.queue.config == q.config && result.queue.inFlight == q.inFlight && result.queue.lastAccess == r.access
            && if result.outcome.Sent?
               then
                 var numbered := m.(sequence := Some(q.nextSequence));
                 && result.outcome.message == numbered && result.queue.nextSequence == q.nextSequence + 1
                 && result.queue.available == q.available + [Entry(q.config, numbered, r, ticket)]
               else result.queue == q.(lastAccess := r.access)
  {
  }

  /** The outcome of a send to a FIFO queue over every run: a message without an id is refused when
      the queue does not deduplicate by content; it is a duplicate if one that passes for the same
      was accepted less than five minutes ago in this lifetime of the queue, whatever the ids of the
      two messages, and then nothing is stored; and it is stored at the back under the next number
      if there was none and the digest has no collisions. */
  lemma FifoSendIsExact(p: Params, es: seq<Event>, id: string, m: Message, r: Reads)
    requires Run(p, EMPTY, es) && OrderedReads(r, After(p, EMPTY, es).clock)
    requires id in After(p, EMPTY, es).queues && After(p, EMPTY, es).queues[id].config.queueType.SqsFifo?
    ensures var s := After(p, EMPTY, es);
            var q, log := s.queues[id], SendsSoFar(p, EMPTY, es, id, []);
            var result := SendOne(p, q, m, r, |s.ledger|);
            if m.dedupId.None? && !q.config.contentBasedDedup then
              result == SendResult(q.(lastAccess := r.access), Refused)
            else
              && (SentBefore(p, log, m, r.cutoff) ==> result == SendResult(q.(lastAccess := r.access), Duplicate(m)))
              && (NoCollisions(p) && !SentBefore(p, log, m, r.cutoff) ==>
                    var numbered := m.(sequence := Some(q.nextSequence));
                    && result.outcome == Sent(numbered) && result.queue.nextSequence == q.nextSequence + 1
                    && result.queue.available == q.available + [Entry(q.config, numbered, r, |s.ledger|)])
  {
    hide Run, After, Apply, Inv, SendOne, DedupId, Matches, SentBefore, Remembered, Spaced, NoCollisions, KeyIs, SendsSoFar;
    StartRests();
    RunKeeps(p, EMPTY, es);
    RunNoted(p, EMPTY, es, id, []);
    PruningIsInvisible(p, es, id, m, r);
    var s := After(p, EMPTY, es);
    var q := s.queues[id];
    KeyOfFields(p, q.config, m);
    FifoFields(p, q, m, r, |s.ledger|);
    if DedupId(p, q.config, m).Some? {
      RememberedIsSentBefore(p, s.accepts[id], SendsSoFar(p, EMPTY, es, id, []), m, DedupId(p, q.config, m).value, r.cutoff);
    }
  }
}

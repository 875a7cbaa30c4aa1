/** The in-memory backend as it runs: queues that are updated in place, with the loops of the
    source. Every method is tied to the operation of the same name on values. What the server
    reads from its surroundings comes in as arguments: clock readings, nonces, and the ticket by
    which a stored copy is identified. Where the source follows the order of a hash map, the
    method returns the order it took. */
module Backend {
  import opened Types
  import opened Sequences
  import opened QueueModel
  import opened Receipt
  import opened SelectionLoops

  class QueueData {
    var config: QueueConfig
    var available: seq<Stored>
    var inFlight: map<Handle, InFlight>
    var dedupCache: map<string, nat>
    var nextSequence: nat
    var lastAccess: nat

    ghost function View(): Queue
      reads this
    {
      Queue(config, available, inFlight, dedupCache, nextSequence, lastAccess)
    }

    constructor (config: QueueConfig, now: nat)
      ensures View() == NewQueue(config, now)
      ensures this.config == config && available == [] && inFlight == map[] && dedupCache == map[]
      ensures nextSequence == 0 && lastAccess == now
    {
      this.config := config;
      available, inFlight, dedupCache, nextSequence, lastAccess := [], map[], map[], 0, now;
    }

    /** Forget old deduplication ids, but only when there are many. */
    method CleanUpDedupCache(now: nat)
      modifies this`dedupCache
      ensures dedupCache == Prune(old(dedupCache), now)
      ensures |old(dedupCache)| <= 1000 ==> dedupCache == old(dedupCache)
      ensures |old(dedupCache)| > 1000 ==>
                && (forall id :: id in dedupCache <==> id in old(dedupCache) && now < old(dedupCache)[id] + 300 * SECOND)
                && (forall id :: id in dedupCache ==> dedupCache[id] == old(dedupCache)[id])
    {
      if |dedupCache| > CLEANUP_THRESHOLD {
        var cutoff := now - DEDUP_WINDOW;
        dedupCache := map id | id in dedupCache && dedupCache[id] > cutoff :: dedupCache[id];
      }
    }

    method SendLocked(p: Params, message: Message, r: Reads, ticket: nat) returns (outcome: Outcome)
      modifies this
      ensures View() == SendOne(p, old(View()), message, r, ticket).queue
      ensures outcome == SendOne(p, old(View()), message, r, ticket).outcome
    {
      lastAccess := r.access;
      var stored := message;
      if config.queueType == SqsFifo {
        var id;
        if message.dedupId.Some? {
          id := message.dedupId.value;
        } else if config.contentBasedDedup {
          id := p.digest(message.body);
        } else {
          return Refused;
        }
        if id in dedupCache && dedupCache[id] > r.cutoff - DEDUP_WINDOW {
          return Duplicate(message);
        }
        dedupCache := dedupCache[id := r.accept];
        stored := message.(sequence := Some(nextSequence));
        nextSequence := nextSequence + 1;
        CleanUpDedupCache(r.prune);
      }
      var delay := if message.delay.Some? then message.delay.value else config.delaySeconds;
      available := available + [Stored(ticket, stored, r.stamp + delay * SECOND)];
      outcome := Sent(stored);
    }

    /** Expired messages go to the back of the deque, in the order the hash map gives them. */
    method ReturnExpired(now: nat) returns (count: nat, order: seq<Handle>)
      modifies this`available, this`inFlight
      ensures ExpiryOrder(old(View()), order, now)
      ensures View() == LandAll(old(View()), order, now)
      ensures count == |order|
    {
      order := ListExpired(now);
      count := 0;
      ghost var start := View();
      assert order[0..] == order;
      for i := 0 to |order|
        invariant count == i
        invariant Landable(View(), order[i..])
        invariant LandAll(View(), order[i..], now) == LandAll(start, order, now)
      {
        assert order[i..][0] == order[i] && order[i..][1..] == order[i + 1..];
        LandableTail(View(), order[i..], now);
        var f := inFlight[order[i]];
        inFlight := inFlight - {order[i]};
        available := available + [Stored(f.ticket, f.message, now)];
        count := count + 1;
      }
    }

    method ListExpired(now: nat) returns (order: seq<Handle>)
      ensures ExpiryOrder(View(), order, now)
    {
      order := [];
      var rest := inFlight.Keys;
      while rest != {}
        invariant rest <= inFlight.Keys
        invariant Distinct(order)
        invariant forall h :: h in order <==> h in inFlight && h !in rest && inFlight[h].expiresAt <= now
        decreases rest
      {
        var h :| h in rest;
        rest := rest - {h};
        if inFlight[h].expiresAt <= now {
          order := order + [h];
        }
      }
    }

    /** The indices of the first visible messages. The limit is tested after each push, so a
        limit of 0 still collects one. */
    method VisibleIndices(now: nat, maxMessages: u32) returns (indices: seq<nat>)
      ensures indices == IndicesFrom(available, 0, now, PickLimit(maxMessages))
    {
      var max := if maxMessages < RECEIVE_LIMIT then maxMessages else RECEIVE_LIMIT;
      indices := [];
      for i := 0 to |available|
        invariant |indices| < PickLimit(maxMessages)
        invariant indices + IndicesFrom(available, i, now, PickLimit(maxMessages) - |indices|)
               == IndicesFrom(available, 0, now, PickLimit(maxMessages))
      {
        if available[i].visibleAt <= now {
          ghost var before := indices;
          indices := indices + [i];
          assert before + ([i] + IndicesFrom(available, i + 1, now, PickLimit(maxMessages) - |indices|))
              == indices + IndicesFrom(available, i + 1, now, PickLimit(maxMessages) - |indices|);
          if |indices| >= max {
            return;
          }
        }
      }
    }

    /** Remove the selected messages from the last to the first; those over the limit are
        collected for the dead-letter queue, the others get a handle and fly. */
    method TakeSelected(p: Params, id: string, indices: seq<nat>, expiresAt: nat, nonces: seq<nat>)
      returns (received: seq<Received>, moves: seq<Stored>)
      requires Climbing(indices, 0, |available|) && |indices| <= |nonces|
      modifies this`available, this`inFlight
      ensures var entries := EntriesAt(old(available), indices);
              && available == RestOf(old(available), indices)
              && inFlight == Launch(p, old(inFlight), id, Kept(config, entries), nonces, expiresAt)
              && received == Answer(p, id, Kept(config, entries), nonces)
              && moves == Reversed(Doomed(config, entries))
    {
      hide RestOf, Climbing, EntriesAt, Answer, Doomed, Kept, Launch, Reversed, RemoveAt;
      ghost var entries := EntriesAt(available, indices);
      ghost var a := available;
      ghost var before := inFlight;
      received, moves := [], [];
      var j := |indices|;
      assert indices[j..] == [] && entries[j..] == [];
      NothingTaken(p, before, id, config, nonces, expiresAt);
      NoIndices(a);
      while j > 0
        invariant 0 <= j <= |indices|
        invariant Climbing(indices[j..], 0, |a|) && available == RestOf(a, indices[j..])
        invariant |Kept(config, entries[j..])| <= |nonces|
        invariant inFlight == Launch(p, before, id, Kept(config, entries[j..]), nonces, expiresAt)
        invariant Reversed(received) == Answer(p, id, Kept(config, entries[j..]), nonces)
        invariant |received| == |Kept(config, entries[j..])|
        invariant moves == Reversed(Doomed(config, entries[j..]))
      {
        j := j - 1;
        var i := indices[j];
        NextSelected(a, indices, j);
        assert entries[j..] == [entries[j]] + entries[j + 1..];
        OneTaken(p, before, id, config, entries[j], entries[j + 1..], nonces, expiresAt);
        var stored := available[i];
        assert stored == entries[j];
        available := RemoveAt(available, i);
        var message := stored.message.(receiveCount := Increment(stored.message.receiveCount));
        if config.dlq.Some? && message.receiveCount > config.dlq.value.maxReceiveCount {
          moves := moves + [stored];
        } else {
          var h := Generate(p, id, stored.message, nonces[|received|]);
          inFlight := inFlight[h := InFlight(stored.ticket, message, expiresAt)];
          ReversedLast(received, Received(message, h));
          received := received + [Received(message, h)];
        }
      }
      assert indices[0..] == indices && entries[0..] == entries;
      received := Reverse(received);
    }
  }

  lemma NothingTaken(p: Params, m: map<Handle, InFlight>, id: string, config: QueueConfig,
                     nonces: seq<nat>, expiresAt: nat)
    ensures Kept(config, []) == []
    ensures Launch(p, m, id, Kept(config, []), nonces, expiresAt) == m
    ensures Answer(p, id, Kept(config, []), nonces) == []
    ensures Reversed(Doomed(config, [])) == []
    ensures Reversed<Received>([]) == []
  {
  }

  lemma ReversedLast<T>(s: seq<T>, x: T)
    ensures Reversed(s + [x]) == [x] + Reversed(s)
  {
    ReversedAppend(s, [x]);
    assert Reversed([x]) == [x];
  }

  /** What one more entry in front adds. */
  lemma OneTaken(p: Params, m: map<Handle, InFlight>, id: string, config: QueueConfig, e: Stored,
                 rest: seq<Stored>, nonces: seq<nat>, expiresAt: nat)
    requires |rest| < |nonces|
    ensures if Dead(config, e)
            then && Kept(config, [e] + rest) == Kept(config, rest)
                 && Reversed(Doomed(config, [e] + rest)) == Reversed(Doomed(config, rest)) + [e]
            else var kept := Kept(config, rest);
                 var h := Ticketed(p, id, e.message, nonces[|kept|]);
                 && Kept(config, [e] + rest) == [e] + kept
                 && Launch(p, m, id, [e] + kept, nonces, expiresAt)
                    == Launch(p, m, id, kept, nonces, expiresAt)[h := InFlight(e.ticket, Bump(e.message), expiresAt)]
                 && Answer(p, id, [e] + kept, nonces) == [Received(Bump(e.message), h)] + Answer(p, id, kept, nonces)
                 && Doomed(config, [e] + rest) == Doomed(config, rest)
  {
    assert ([e] + rest)[1..] == rest;
    if Dead(config, e) {
      assert ([e] + Doomed(config, rest))[1..] == Doomed(config, rest);
    } else {
      assert ([e] + Kept(config, rest))[1..] == Kept(config, rest);
    }
  }

  lemma NextSelected(a: seq<Stored>, indices: seq<nat>, j: nat)
    requires Climbing(indices, 0, |a|) && j < |indices|
    ensures Climbing(indices[j..], 0, |a|) && Climbing(indices[j + 1..], 0, |a|)
    ensures var rest := RestOf(a, indices[j + 1..]);
            && indices[j] < |rest| && rest[indices[j]] == EntriesAt(a, indices)[j]
            && RestOf(a, indices[j..]) == RemoveAt(rest, indices[j])
  {
    var tail := indices[j + 1..];
    assert indices[j..][1..] == tail;
    assert Climbing(tail, 0, |a|);
    PrefixKept(a, tail, indices[j] + 1);
    var rest := RestOf(a, tail);
    assert rest[..indices[j] + 1][indices[j]] == a[..indices[j] + 1][indices[j]];
  }

  /** Reversing the answers in place. */
  method Reverse<T>(s: seq<T>) returns (r: seq<T>)
    ensures r == Reversed(s)
  {
    r := [];
    for i := 0 to |s|
      invariant r == Reversed(s[..i])
    {
      assert s[..i + 1] == s[..i] + [s[i]];
      ReversedAppend(s[..i], [s[i]]);
      assert Reversed([s[i]]) == [s[i]];
      r := [s[i]] + r;
    }
    assert s[..|s|] == s;
  }

  lemma CountStart(qs: Queues)
    ensures qs - (qs.Keys - qs.Keys) == qs
  {
  }

  lemma CountStep(qs: Queues, rest: set<string>, id: string)
    requires rest <= qs.Keys && id in rest
    ensures Total(qs - (qs.Keys - rest)) == Size(qs[id]) + Total(qs - (qs.Keys - (rest - {id})))
  {
    hide Total;
    TotalSplit(qs - (qs.Keys - rest), id);
    assert qs - (qs.Keys - rest) - {id} == qs - (qs.Keys - (rest - {id}));
  }

  lemma CountEnd(qs: Queues)
    ensures Total(qs - (qs.Keys - {})) == 0
  {
    assert qs - (qs.Keys - {}) == map[];
  }

  class InMemoryBackend {
    const params: Params
    var queues: map<string, QueueData>

    ghost predicate Valid()
      reads this
    {
      forall a, b :: a in queues && b in queues && a != b ==> queues[a] != queues[b]
    }

    ghost function View(): Queues
      reads this, queues.Values
    {
      map id | id in queues :: queues[id].View()
    }

    constructor (params: Params)
      ensures Valid() && View() == map[] && this.params == params
    {
      this.params := params;
      queues := map[];
    }

    // -------------------------------------------------------------- queues

    method CreateQueue(config: QueueConfig, now: nat) returns (created: bool)
      requires Valid()
      modifies this
      ensures Valid() && fresh(queues.Values - old(queues.Values))
      ensures created <==> config.id !in old(queues)
      ensures View() == if created then old(View())[config.id := NewQueue(config, now)] else old(View())
    {
      if config.id in queues {
        return false;
      }
      var queue := new QueueData(config, now);
      queues := queues[config.id := queue];
      created := true;
    }

    method UpdateQueue(config: QueueConfig) returns (found: bool)
      requires Valid()
      modifies queues.Values
      ensures found <==> config.id in queues
      ensures View() == if found then old(View())[config.id := old(View())[config.id].(config := config)] else old(View())
    {
      if config.id !in queues {
        return false;
      }
      var queue := queues[config.id];
      queue.config := config;
      found := true;
    }

    method DeleteQueue(id: string) returns (found: bool)
      requires Valid()
      modifies this
      ensures Valid() && queues.Values <= old(queues.Values)
      ensures found <==> id in old(queues)
      ensures View() == old(View()) - {id}
    {
      found := id in queues;
      queues := queues - {id};
    }

    // -------------------------------------------------------------- capacity

    method TotalMessageCount() returns (total: nat)
      ensures total == Total(View())
    {
      hide Total;
      total := 0;
      var rest := queues.Keys;
      ghost var qs := View();
      assert qs.Keys == queues.Keys;
      CountStart(qs);
      while rest != {}
        invariant rest <= queues.Keys
        invariant total + Total(qs - (qs.Keys - rest)) == Total(qs)
        decreases rest
      {
        var id :| id in rest;
        CountStep(qs, rest, id);
        total := total + |queues[id].available| + |queues[id].inFlight|;
        rest := rest - {id};
      }
      CountEnd(qs);
    }

    /** The queue with the oldest access among those with something available. */
    method LeastRecentlyUsed() returns (oldest: Option<string>)
      ensures oldest.None? <==> NothingAvailable(View())
      ensures oldest.Some? ==> Victim(Lru, View(), oldest.value)
      ensures oldest.Some? ==> oldest.value in queues && queues[oldest.value].available != []
      ensures oldest.Some? ==> forall id :: id in queues && queues[id].available != [] ==>
                queues[oldest.value].lastAccess <= queues[id].lastAccess
    {
      oldest := None;
      var rest := queues.Keys;
      while rest != {}
        invariant rest <= queues.Keys
        invariant oldest.None? ==> forall id :: id in queues && id !in rest ==> queues[id].available == []
        invariant oldest.Some? ==>
                    && oldest.value in queues && queues[oldest.value].available != []
                    && forall id :: id in queues && id !in rest && queues[id].available != [] ==>
                         queues[oldest.value].lastAccess <= queues[id].lastAccess
        decreases rest
      {
        var id :| id in rest;
        rest := rest - {id};
        if queues[id].available != [] && (oldest.None? || queues[id].lastAccess < queues[oldest.value].lastAccess) {
          oldest := Some(id);
        }
      }
      assert oldest.Some? ==> View()[oldest.value].available != [];
    }

    /** The queue whose front message was sent first. */
    method OldestFront() returns (oldest: Option<string>)
      ensures oldest.None? <==> NothingAvailable(View())
      ensures oldest.Some? ==> Victim(Fifo, View(), oldest.value)
      ensures oldest.Some? ==> oldest.value in queues && queues[oldest.value].available != []
      ensures oldest.Some? ==> forall id :: id in queues && queues[id].available != [] ==>
                queues[oldest.value].available[0].message.sentAt <= queues[id].available[0].message.sentAt
    {
      oldest := None;
      var rest := queues.Keys;
      while rest != {}
        invariant rest <= queues.Keys
        invariant oldest.None? ==> forall id :: id in queues && id !in rest ==> queues[id].available == []
        invariant oldest.Some? ==>
                    && oldest.value in queues && queues[oldest.value].available != []
                    && forall id :: id in queues && id !in rest && queues[id].available != [] ==>
                         queues[oldest.value].available[0].message.sentAt <= queues[id].available[0].message.sentAt
        decreases rest
      {
        var id :| id in rest;
        rest := rest - {id};
        if queues[id].available != [] {
          if oldest.None? ||
             queues[id].available[0].message.sentAt < queues[oldest.value].available[0].message.sentAt {
            oldest := Some(id);
          }
        }
      }
      assert oldest.Some? ==> View()[oldest.value].available != [];
    }

    /** Nothing below the limit; at the limit reject, or evict one message if there is one. */
    method MaybeEvict() returns (rejected: bool, victim: Option<string>)
      requires Valid()
      modifies queues.Values
      ensures EvictStep(params, old(View()), rejected, victim)
      ensures View() == AfterEviction(params, old(View()), rejected, victim)
      ensures rejected <==> Total(old(View())) >= params.maxMessages && params.policy.RejectNew?
      ensures victim.None? ==> View() == old(View())
      ensures victim.Some? ==>
                && victim.value in queues && old(queues[victim.value].available) != []
                && queues[victim.value].available == old(queues[victim.value].available)[1..]
    {
      hide Total, Victim, NothingAvailable;
      victim := None;
      var total := TotalMessageCount();
      if total < params.maxMessages {
        return false, None;
      }
      match params.policy {
        case RejectNew => return true, None;
        case Lru => victim := LeastRecentlyUsed();
        case Fifo => victim := OldestFront();
      }
      rejected := false;
      if victim.Some? {
        PopFront(victim.value);
      }
    }

    method PopFront(id: string)
      requires Valid() && id in queues && queues[id].available != []
      modifies queues.Values
      ensures View() == EvictFront(old(View()), id)
    {
      var queue := queues[id];
      queue.available := queue.available[1..];
    }

    // -------------------------------------------------------------- sending

    /** The batch, message by message under one lock; the first refusal ends it. */
    method SendAll(queue: QueueData, messages: seq<Message>, rs: seq<Reads>, ticket: nat)
      returns (sent: seq<Message>, refused: bool)
      requires |rs| == |messages|
      modifies queue
      ensures var result := SendBatch(params, old(queue.View()), messages, rs, ticket);
              queue.View() == result.queue && sent == result.sent && refused == result.refused
    {
      hide SendBatch, SendOne;
      sent := [];
      var used := 0;
      ghost var start := queue.View();
      assert messages[0..] == messages && rs[0..] == rs;
      for i := 0 to |messages|
        invariant var whole := SendBatch(params, start, messages, rs, ticket);
                  var rest := SendBatch(params, queue.View(), messages[i..], rs[i..], ticket + used);
                  whole.queue == rest.queue && whole.sent == sent + rest.sent && whole.refused == rest.refused
      {
        assert messages[i..][0] == messages[i] && messages[i..][1..] == messages[i + 1..];
        assert rs[i..][0] == rs[i] && rs[i..][1..] == rs[i + 1..];
        SendBatchStep(params, queue.View(), messages[i..], rs[i..], ticket + used);
        var outcome := queue.SendLocked(params, messages[i], rs[i], ticket + used);
        if outcome.Refused? {
          return sent, true;
        }
        if outcome.Sent? {
          used := used + 1;
        }
        sent := sent + [outcome.message];
      }
      refused := false;
      SendBatchEnd(params, queue.View(), messages[|messages|..], rs[|messages|..], ticket + used);
    }

    /** A send of one or more messages: eviction is decided, and done, before it is known whether
        the queue exists or the messages are accepted. */
    method SendMessages(id: string, messages: seq<Message>, rs: seq<Reads>, ticket: nat)
      returns (reply: SendReply, victim: Option<string>)
      requires Valid() && |rs| == |messages|
      modifies queues.Values
      ensures SendStep(params, old(View()), id, messages, rs, ticket, victim, reply, View())
    {
      hide SendBatch, EvictStep, AfterEviction, Total;
      var rejected;
      rejected, victim := MaybeEvict();
      ghost var qs := View();
      if rejected {
        return StorageFull, victim;
      }
      if id !in queues {
        return NoSuchQueue, victim;
      }
      var queue := queues[id];
      assert queue.View() == qs[id];
      var sent, refused := SendAll(queue, messages, rs, ticket);
      assert View() == qs[id := queue.View()];
      reply := if refused then MissingDedupId(sent) else Accepted(sent);
    }

    // -------------------------------------------------------------- receiving

    /** Dead-letter moves, one at a time; a move to a queue that does not exist drops it. */
    method MoveAll(target: string, moves: seq<Stored>, stamps: seq<nat>, now: nat)
      requires Valid() && |moves| <= |stamps|
      modifies queues.Values
      ensures View() == DivertAll(old(View()), target, moves, stamps, now)
    {
      ghost var start := View();
      assert moves[0..] == moves && stamps[0..] == stamps;
      for i := 0 to |moves|
        invariant DivertAll(View(), target, moves[i..], stamps[i..], now) == DivertAll(start, target, moves, stamps, now)
      {
        assert moves[i..][0] == moves[i] && moves[i..][1..] == moves[i + 1..];
        assert stamps[i..][0] == stamps[i] && stamps[i..][1..] == stamps[i + 1..];
        ghost var before := View();
        MoveOne(target, moves[i], stamps[i], now);
        assert View() == Divert(before, target, moves[i], stamps[i], now);
      }
    }

    method MoveOne(target: string, e: Stored, stamp: nat, now: nat)
      requires Valid()
      modifies queues.Values
      ensures View() == Divert(old(View()), target, e, stamp, now)
    {
      if target in queues {
        var copy := e.message.(receiveCount := 0, sentAt := stamp, queueId := target);
        var queue := queues[target];
        queue.available := queue.available + [Stored(e.ticket, copy, now)];
      }
    }

    method ReceiveMessages(id: string, request: Request, clocks: ReceiveReads, nonces: seq<nat>)
      returns (received: Option<seq<Received>>, order: seq<Handle>)
      requires Valid() && RECEIVE_LIMIT <= |nonces| && RECEIVE_LIMIT <= |clocks.stamps|
      modifies queues.Values
      ensures received.None? <==> id !in queues
      ensures id !in queues ==> View() == old(View())
      ensures id in queues ==>
                && ExpiryOrder(old(View())[id], order, clocks.now)
                && var result := Receive(params, old(View()), id, request, clocks, order, nonces);
                   View() == result.queues && received == Some(result.received)
    {
      order := [];
      if id !in queues {
        return None, [];
      }
      hide Served, ReturnedBy, MovedBy, Answer, DivertAll, Doomed, Reversed;
      var queue := queues[id];
      ghost var qs := View();
      var answers, moves;
      answers, moves, order := Serve(queue, id, request, clocks, nonces);
      assert View() == qs[id := queue.View()];
      if queue.config.dlq.Some? {
        MoveAll(queue.config.dlq.value.target, moves, clocks.stamps, clocks.now);
      } else {
        NothingMoved(qs[id], request, clocks, order);
        NoMoves(View(), TargetOf(queue.config), moves, clocks.stamps, clocks.now);
      }
      received := Some(answers);
    }

    /** The part of a receive that touches only its own queue. */
    method Serve(queue: QueueData, id: string, request: Request, clocks: ReceiveReads, nonces: seq<nat>)
      returns (received: seq<Received>, moves: seq<Stored>, order: seq<Handle>)
      requires RECEIVE_LIMIT <= |nonces|
      modifies queue
      ensures ExpiryOrder(old(queue.View()), order, clocks.now)
      ensures queue.View() == Served(params, old(queue.View()), id, request, clocks, order, nonces)
      ensures received == Answer(params, id, ReturnedBy(old(queue.View()), request, clocks, order), nonces)
      ensures moves == MovedBy(old(queue.View()), request, clocks, order)
      ensures queue.config == old(queue.config)
    {
      hide Pick, Kept, Doomed, Reversed, Launch, Answer, LandAll, RestOf, IndicesFrom, EntriesAt;
      ghost var start := queue.View();
      queue.lastAccess := clocks.access;
      var timeout := if request.visibilityTimeout.Some? then request.visibilityTimeout.value
                     else queue.config.visibilityTimeout;
      var count;
      count, order := queue.ReturnExpired(clocks.now);
      LandAllMeta(start.(lastAccess := clocks.access), order, clocks.now);
      var indices := queue.VisibleIndices(clocks.now, request.maxMessages);
      IndicesPick(queue.available, 0, clocks.now, PickLimit(request.maxMessages));
      assert queue.available[0..] == queue.available;
      received, moves := queue.TakeSelected(params, id, indices, clocks.now + timeout * SECOND, nonces);
    }

    // -------------------------------------------------------------- handles

    method CheckHandle(id: string, h: Handle) returns (fault: Option<Fault>)
      ensures fault == HandleFault(params, View(), id, h)
    {
      var data := Parse(params, h);
      if data.None? || data.value.queueId != id {
        return Some(InvalidReceiptHandle);
      }
      if id !in queues {
        return Some(QueueNotFound);
      }
      if h !in queues[id].inFlight {
        return Some(InvalidReceiptHandle);
      }
      fault := None;
    }

    method DeleteMessage(id: string, h: Handle) returns (fault: Option<Fault>)
      requires Valid()
      modifies queues.Values
      ensures fault == HandleFault(params, old(View()), id, h)
      ensures View() == Delete(params, old(View()), id, h)
      ensures fault.Some? ==> View() == old(View())
      ensures fault.None? ==>
                && id in queues && h in old(queues[id].inFlight)
                && View() == old(View())[id := old(View())[id].(inFlight := old(queues[id].inFlight) - {h})]
    {
      fault := CheckHandle(id, h);
      if fault.None? {
        var queue := queues[id];
        queue.inFlight := queue.inFlight - {h};
      }
    }

    method ChangeVisibility(id: string, h: Handle, timeout: u32, now: nat) returns (fault: Option<Fault>)
      requires Valid()
      modifies queues.Values
      ensures fault == HandleFault(params, old(View()), id, h)
      ensures View() == Change(params, old(View()), id, h, timeout, now)
    {
      fault := CheckHandle(id, h);
      if fault.None? {
        var queue := queues[id];
        queue.inFlight := queue.inFlight[h := queue.inFlight[h].(expiresAt := now + timeout * SECOND)];
      }
    }

    method PurgeQueue(id: string) returns (found: bool)
      requires Valid()
      modifies queues.Values
      ensures found <==> id in queues
      ensures View() == if found then old(View())[id := Purge(old(View())[id])] else old(View())
      ensures found ==> queues[id].available == [] && queues[id].inFlight == map[]
    {
      found := id in queues;
      if found {
        var queue := queues[id];
        queue.available := [];
        queue.inFlight := map[];
      }
    }

    method ProcessExpiredVisibility(id: string, now: nat) returns (count: Option<nat>, order: seq<Handle>)
      requires Valid()
      modifies queues.Values
      ensures count.Some? <==> id in queues
      ensures id !in queues ==> View() == old(View())
      ensures id in queues ==>
                && ExpiryOrder(old(View())[id], order, now) && count == Some(|order|)
                && View() == old(View())[id := Sweep(old(View())[id], order, now)]
    {
      if id !in queues {
        return None, [];
      }
      var queue := queues[id];
      var n;
      n, order := queue.ReturnExpired(now);
      count := Some(n);
    }
  }

  lemma NothingMoved(q: Queue, request: Request, r: ReceiveReads, order: seq<Handle>)
    requires Landable(q, order) && q.config.dlq.None?
    ensures MovedBy(q, request, r, order) == []
  {
    NothingDoomed(q.config, Selection(q, request, r, order).taken);
  }
}

/** Forgetting old deduplication ids changes nothing: over every run a FIFO queue with its
    pruned cache decides exactly as if it remembered every send it ever accepted. */
module Dedup {
  import opened Types
  import opened Sequences
  import opened QueueModel
  import opened History
  import opened Receiving
  import opened Runs
  import opened Ordering

  /** The decision with a full memory: the id was accepted inside the window. */
  ghost predicate Remembered(log: seq<Accept>, id: string, now: nat) {
    exists i :: 0 <= i < |log| && log[i].id == id && log[i].at > now - DEDUP_WINDOW
  }

  /** Two accepted sends with one id are at least a window apart. */
  ghost predicate Spaced(log: seq<Accept>) {
    forall i, j :: 0 <= i < j < |log| && log[i].id == log[j].id ==> log[j].at >= log[i].at + DEDUP_WINDOW
  }

  /** What the cache has kept of the log: the latest time for each id it holds, and nothing
      inside the window is missing. */
  ghost predicate Faithful(cache: map<string, nat>, log: seq<Accept>, clock: nat) {
    && (forall id :: id in cache ==> exists i :: 0 <= i < |log| && log[i] == Accept(id, cache[id]))
    && (forall i :: 0 <= i < |log| ==>
          && log[i].at <= clock
          && if log[i].id in cache then log[i].at <= cache[log[i].id] else log[i].at <= clock - DEDUP_WINDOW)
  }

  ghost predicate LogState(s: Store) {
    forall id :: id in s.queues && id in s.accepts ==>
      Faithful(s.queues[id].dedupCache, s.accepts[id], s.clock) && Spaced(s.accepts[id])
  }

  // ---------------------------------------------------------------- one cache

  lemma SameDecision(cache: map<string, nat>, log: seq<Accept>, clock: nat, id: string, now: nat)
    requires Faithful(cache, log, clock) && clock <= now
    ensures RecentlySeen(cache, id, now) <==> Remembered(log, id, now)
  {
    if RecentlySeen(cache, id, now) {
      var i :| 0 <= i < |log| && log[i] == Accept(id, cache[id]);
    }
  }

  lemma AcceptFaithful(cache: map<string, nat>, log: seq<Accept>, clock: nat, id: string, at: nat)
    requires Faithful(cache, log, clock) && clock <= at
    ensures Faithful(cache[id := at], log + [Accept(id, at)], at)
  {
    var log' := log + [Accept(id, at)];
    var cache' := cache[id := at];
    forall x | x in cache'
      ensures exists i :: 0 <= i < |log'| && log'[i] == Accept(x, cache'[x])
    {
      if x == id {
        assert log'[|log|] == Accept(x, at);
      } else {
        var i :| 0 <= i < |log| && log[i] == Accept(x, cache[x]);
        assert log'[i] == Accept(x, cache[x]);
      }
    }
  }

  lemma PruneFaithful(cache: map<string, nat>, log: seq<Accept>, clock: nat, now: nat)
    requires Faithful(cache, log, clock) && clock <= now
    ensures Faithful(Prune(cache, now), log, now)
  {
  }

  lemma LaterFaithful(cache: map<string, nat>, log: seq<Accept>, clock: nat, now: nat)
    requires Faithful(cache, log, clock) && clock <= now
    ensures Faithful(cache, log, now)
  {
  }

  lemma AcceptSpaced(log: seq<Accept>, id: string, now: nat, at: nat)
    requires Spaced(log) && !Remembered(log, id, now) && now <= at
    ensures Spaced(log + [Accept(id, at)])
  {
    var log' := log + [Accept(id, at)];
    forall i | 0 <= i < |log| && log[i].id == id
      ensures at >= log[i].at + DEDUP_WINDOW
    {
    }
    forall i, j | 0 <= i < j < |log'| && log'[i].id == log'[j].id
      ensures log'[j].at >= log'[i].at + DEDUP_WINDOW
    {
      assert log'[i] == log[i];
    }
  }

  // ---------------------------------------------------------------- steps

  /** The id a send to a FIFO queue is deduplicated by. */
  ghost function KeyOf(p: Params, s: Store, id: string, m: Message): Option<string>
    requires id in s.queues
  {
    DedupId(p, s.queues[id].config, m)
  }

  lemma PushLog(p: Params, s: Store, x: string, m: Message, r: Reads)
    requires Resting(s) && LogState(s) && x in s.queues && OrderedReads(r, s.clock)
    ensures LogState(PushS(p, s, x, m, r).(clock := r.stamp))
  {
    hide Inv, Faithful, Spaced, Remembered, Prune;
    var s' := PushS(p, s, x, m, r).(clock := r.stamp);
    forall id | id in s'.queues && id in s'.accepts
      ensures Faithful(s'.queues[id].dedupCache, s'.accepts[id], s'.clock) && Spaced(s'.accepts[id])
    {
      if id == x {
        PushedLog(p, s, s', x, m, r);
      } else {
        LaterFaithful(s.queues[id].dedupCache, s.accepts[id], s.clock, r.stamp);
      }
    }
  }

  lemma PushedLog(p: Params, s: Store, s': Store, x: string, m: Message, r: Reads)
    requires Resting(s) && LogState(s) && x in s.queues && OrderedReads(r, s.clock)
    requires s' == PushS(p, s, x, m, r).(clock := r.stamp)
    ensures x in s'.queues && x in s'.accepts
    ensures Faithful(s'.queues[x].dedupCache, s'.accepts[x], s'.clock) && Spaced(s'.accepts[x])
  {
    hide Inv, Faithful, Spaced, Remembered, Prune;
    var q, log := s.queues[x], s.accepts[x];
    var id := KeyOf(p, s, x, m);
    if q.config.queueType.SqsFifo? && id.Some? && !RecentlySeen(q.dedupCache, id.value, r.cutoff) {
      SameDecision(q.dedupCache, log, s.clock, id.value, r.cutoff);
      AcceptSpaced(log, id.value, r.cutoff, r.accept);
      AcceptFaithful(q.dedupCache, log, s.clock, id.value, r.accept);
      var log' := log + [Accept(id.value, r.accept)];
      PruneFaithful(q.dedupCache[id.value := r.accept], log', r.accept, r.prune);
      LaterFaithful(Prune(q.dedupCache[id.value := r.accept], r.prune), log', r.prune, r.stamp);
    } else {
      LaterFaithful(q.dedupCache, log, s.clock, r.stamp);
    }
  }

  /** Every queue that persists keeps its cache and its log. */
  lemma CachesStay(p: Params, s: Store, e: Event)
    requires Enabled(s, e) && !e.Push?
    ensures var s' := Apply(p, s, e);
            forall id :: id in s'.queues ==>
              if id in s.queues && id in s.accepts
              then id in s'.accepts && s'.queues[id].dedupCache == s.queues[id].dedupCache && s'.accepts[id] == s.accepts[id]
              else id in s'.accepts && s'.queues[id].dedupCache == map[] && s'.accepts[id] == []
  {
    hide Inv, DrainS, LandAllS, ReceiveS, ParseHandle, ExpiryOrder, Callable;
    match e
    case RemoveQueue(x) => if x in s.queues { DrainEffect(s, x, QueueRemoved); }
    case PurgeQueue(x) => if x in s.queues { DrainEffect(s, x, Purged); }
    case SweepQueue(x, order, now) =>
      if x in s.queues {
        SweepMeta(s, x, order, now);
        SweepAccepts(s, x, order, now);
      }
    case ReceiveMessages(c, end) => CachesReceived(p, s, e);
    case _ =>
  }

  lemma CachesReceived(p: Params, s: Store, e: Event)
    requires Enabled(s, e) && e.ReceiveMessages?
    ensures var s' := Apply(p, s, e);
            s'.accepts == s.accepts && s'.queues.Keys == s.queues.Keys
            && forall id :: id in s.queues ==> s'.queues[id].dedupCache == s.queues[id].dedupCache
  {
    hide Inv, DrainS, LandAllS, ReceiveS, ParseHandle, ExpiryOrder, Callable;
    if e.call.id in s.queues {
      ReceiveReady(s, e.call, e.end);
      ReceivedMeta(p, s, e.call);
      ReceiveAccepts(p, s, e.call);
    }
  }

  lemma SweepAccepts(s: Store, x: string, order: seq<Handle>, now: nat)
    requires Inv(s) && x in s.queues && ExpiryOrder(s.queues[x], order, now)
    ensures LandAllS(s, x, order, now).accepts == s.accepts
  {
    hide Inv, LandAllS, LandedAll;
    LandAllEffect(s, x, order, now);
  }

  lemma ReceiveAccepts(p: Params, s: Store, c: Call)
    requires Callable(s, c)
    ensures ReceiveS(p, s, c).accepts == s.accepts
  {
    hide Inv, Landable, Distinct, Unused, ReceiveS, Receive, Deliveries, Selected, Returned, ReceivedAll;
    ReceiveEffect(p, s, c);
  }

  lemma StepLog(p: Params, s: Store, e: Event)
    requires Enabled(s, e) && LogState(s)
    ensures LogState(Apply(p, s, e))
  {
    hide Inv, DrainS, LandAllS, ReceiveS, ParseHandle, ExpiryOrder, PushS, Faithful, Spaced, Evolves, Supplied, Unused;
    var s' := Apply(p, s, e);
    assert s.clock <= s'.clock by { StepClock(p, s, e); }
    if e.Push? && e.id in s.queues {
      PushLog(p, s, e.id, e.message, e.clocks);
    } else {
      if !e.Push? { CachesStay(p, s, e); }
      forall id | id in s'.queues && id in s'.accepts
        ensures Faithful(s'.queues[id].dedupCache, s'.accepts[id], s'.clock) && Spaced(s'.accepts[id])
      {
        if id in s.queues && id in s.accepts {
          LaterFaithful(s.queues[id].dedupCache, s.accepts[id], s.clock, s'.clock);
        } else {
          NewLog(s'.clock);
        }
      }
    }
  }

  lemma NewLog(clock: nat)
    ensures Faithful(map[], [], clock) && Spaced([])
  {
  }

  lemma StepClock(p: Params, s: Store, e: Event)
    requires Enabled(s, e)
    ensures s.clock <= Apply(p, s, e).clock
  {
    hide Enabled, Apply;
    StepKeeps(p, s, e);
  }

  lemma {:induction false} RunLog(p: Params, s: Store, es: seq<Event>)
    requires Resting(s) && Run(p, s, es) && LogState(s)
    ensures LogState(After(p, s, es))
    decreases |es|
  {
    hide Resting, LogState, Apply;
    if es != [] {
      StepKeeps(p, s, es[0]);
      StepLog(p, s, es[0]);
      RunLog(p, Apply(p, s, es[0]), es[1..]);
    }
  }

  /** The pruned cache refines the full history, over every run: a send to a FIFO queue is
      skipped exactly when its id was accepted inside the window in this lifetime of the queue,
      and any two accepted sends with one id are at least five minutes apart. */
  lemma PruningIsInvisible(p: Params, es: seq<Event>, id: string, m: Message, r: Reads)
    requires Run(p, EMPTY, es) && OrderedReads(r, After(p, EMPTY, es).clock)
    requires id in After(p, EMPTY, es).queues && After(p, EMPTY, es).queues[id].config.queueType.SqsFifo?
    ensures var s := After(p, EMPTY, es);
            && id in s.accepts
            && Spaced(s.accepts[id])
            && var key := KeyOf(p, s, id, m);
               SendOne(p, s.queues[id], m, r, |s.ledger|).outcome
               == if key.None? then Refused
                  else if Remembered(s.accepts[id], key.value, r.cutoff) then Duplicate(m)
                  else Sent(m.(sequence := Some(s.queues[id].nextSequence)))
  {
    hide Run, After, Inv, Spaced, Faithful, Remembered;
    StartRests();
    RunKeeps(p, EMPTY, es);
    RunLog(p, EMPTY, es);
    var s := After(p, EMPTY, es);
    var key := KeyOf(p, s, id, m);
    if key.Some? {
      SameDecision(s.queues[id].dedupCache, s.accepts[id], s.clock, key.value, r.cutoff);
    }
  }
}

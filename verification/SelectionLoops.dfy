/** The index bookkeeping of a receive: collecting the indices of the visible messages in order
    and removing them from the last to the first takes exactly what Pick takes. */
module SelectionLoops {
  import opened Types
  import opened Sequences
  import opened QueueModel

  /** The first `n` visible indices from `i` on. */
  function IndicesFrom(a: seq<Stored>, i: nat, now: nat, n: nat): (r: seq<nat>)
    ensures |r| <= n
    decreases |a| - i
  {
    if i >= |a| || n == 0 then []
    else if a[i].visibleAt <= now then [i] + IndicesFrom(a, i + 1, now, n - 1)
    else IndicesFrom(a, i + 1, now, n)
  }

  ghost predicate Climbing(indices: seq<nat>, from: nat, to: nat) {
    && (forall k :: 0 <= k < |indices| ==> from <= indices[k] < to)
    && (forall k, l :: 0 <= k < l < |indices| ==> indices[k] < indices[l])
  }

  lemma {:induction false} IndicesClimb(a: seq<Stored>, i: nat, now: nat, n: nat)
    ensures Climbing(IndicesFrom(a, i, now, n), i, |a|)
    decreases |a| - i
  {
    if i < |a| && n > 0 {
      IndicesClimb(a, i + 1, now, if a[i].visibleAt <= now then n - 1 else n);
    }
  }

  lemma {:induction false} Room(indices: seq<nat>, from: nat, to: nat)
    requires Climbing(indices, from, to)
    ensures indices != [] ==> indices[0] + |indices| <= to
  {
    if |indices| > 1 {
      assert Climbing(indices[1..], indices[0] + 1, to);
      Room(indices[1..], indices[0] + 1, to);
    }
  }

  /** What is left when the indices are removed from the last to the first. */
  function RestOf(a: seq<Stored>, indices: seq<nat>): (r: seq<Stored>)
    requires Climbing(indices, 0, |a|)
    ensures |r| == |a| - |indices|
  {
    if indices == [] then a
    else
      Room(indices, 0, |a|);
      assert Climbing(indices[1..], 0, |a|);
      RemoveAt(RestOf(a, indices[1..]), indices[0])
  }

  function EntriesAt(a: seq<Stored>, indices: seq<nat>): (r: seq<Stored>)
    requires Climbing(indices, 0, |a|)
    ensures |r| == |indices|
  {
    seq(|indices|, k requires 0 <= k < |indices| => a[indices[k]])
  }

  /** Removing later indices does not move an earlier entry. */
  lemma {:induction false} PrefixKept(a: seq<Stored>, indices: seq<nat>, i: nat)
    requires Climbing(indices, 0, |a|) && i <= |a| && forall k :: 0 <= k < |indices| ==> i <= indices[k]
    ensures i <= |RestOf(a, indices)| && RestOf(a, indices)[..i] == a[..i]
  {
    Room(indices, 0, |a|);
    if indices != [] {
      assert Climbing(indices[1..], 0, |a|);
      PrefixKept(a, indices[1..], i);
      var rest := RestOf(a, indices[1..]);
      assert RemoveAt(rest, indices[0])[..i] == rest[..i];
    }
  }

  lemma FirstIndex(a: seq<Stored>, i: nat, tail: seq<nat>, p: Picked)
    requires i < |a| && Climbing([i] + tail, 0, |a|) && Climbing(tail, 0, |a|)
    requires EntriesAt(a, tail) == p.taken && RestOf(a, tail) == a[..i + 1] + p.rest
    ensures EntriesAt(a, [i] + tail) == [a[i]] + p.taken
    ensures RestOf(a, [i] + tail) == a[..i] + p.rest
  {
    var indices := [i] + tail;
    assert indices[1..] == tail;
    assert RestOf(a, indices) == RemoveAt(a[..i + 1] + p.rest, i);
  }

  lemma {:induction false} IndicesPick(a: seq<Stored>, i: nat, now: nat, n: nat)
    requires i <= |a|
    ensures Climbing(IndicesFrom(a, i, now, n), 0, |a|)
    ensures var indices := IndicesFrom(a, i, now, n);
            var p := Pick(a[i..], now, n);
            && EntriesAt(a, indices) == p.taken
            && RestOf(a, indices) == a[..i] + p.rest
    decreases |a| - i
  {
    hide Climbing, RestOf, EntriesAt;
    IndicesClimb(a, i, now, n);
    ClimbsFromZero(IndicesFrom(a, i, now, n), i, |a|);
    if i < |a| && n > 0 {
      assert a[i..][1..] == a[i + 1..];
      assert a[..i + 1] == a[..i] + [a[i]];
      if a[i].visibleAt <= now {
        IndicesPick(a, i + 1, now, n - 1);
        FirstIndex(a, i, IndicesFrom(a, i + 1, now, n - 1), Pick(a[i + 1..], now, n - 1));
      } else {
        IndicesPick(a, i + 1, now, n);
      }
    } else {
      NoIndices(a);
      assert a[..i] + a[i..] == a;
    }
  }

  lemma ClimbsFromZero(indices: seq<nat>, from: nat, to: nat)
    requires Climbing(indices, from, to)
    ensures Climbing(indices, 0, to)
  {
  }

  lemma NoIndices(a: seq<Stored>)
    ensures Climbing([], 0, |a|) && EntriesAt(a, []) == [] && RestOf(a, []) == a
  {
  }

  /** A receive at `now` may pick the copy: it is visible, or its time in flight is over. */
  ghost predicate Deliverable(q: Queue, ticket: nat, now: nat) {
    || (exists i :: 0 <= i < |q.available| && q.available[i].ticket == ticket && q.available[i].visibleAt <= now)
    || (exists h :: h in q.inFlight && q.inFlight[h].ticket == ticket && q.inFlight[h].expiresAt <= now)
  }

  lemma LandInvisible(q: Queue, h: Handle, earlier: nat, now: nat, ticket: nat)
    requires h in q.inFlight && q.inFlight[h].expiresAt <= earlier <= now
    ensures Deliverable(Land(q, h, earlier), ticket, now) <==> Deliverable(q, ticket, now)
  {
    var q' := Land(q, h, earlier);
    var f := q.inFlight[h];
    assert q'.available[|q.available|] == Stored(f.ticket, f.message, earlier);
    assert forall i :: 0 <= i < |q.available| ==> q'.available[i] == q.available[i];
    if Deliverable(q, ticket, now) && !(exists i :: 0 <= i < |q.available| && q.available[i].ticket == ticket && q.available[i].visibleAt <= now) {
      var g :| g in q.inFlight && q.inFlight[g].ticket == ticket && q.inFlight[g].expiresAt <= now;
      assert g != h ==> g in q'.inFlight;
    }
  }

  lemma {:induction false} LandAllInvisible(q: Queue, order: seq<Handle>, earlier: nat, now: nat, ticket: nat)
    requires Landable(q, order) && earlier <= now
    requires forall h :: h in order ==> q.inFlight[h].expiresAt <= earlier
    ensures Deliverable(LandAll(q, order, earlier), ticket, now) <==> Deliverable(q, ticket, now)
    decreases |order|
  {
    if order != [] {
      LandInvisible(q, order[0], earlier, now, ticket);
      var tail := order[1..];
      assert forall i :: 0 <= i < |tail| ==> tail[i] == order[i + 1];
      assert forall h :: h in tail ==> h in order && h != order[0];
      hide Deliverable;
      LandAllInvisible(Land(q, order[0], earlier), tail, earlier, now, ticket);
    }
  }

  /** A sweep at an earlier moment changes nothing about what can be delivered at a later one. */
  lemma SweepInvisible(q: Queue, order: seq<Handle>, earlier: nat, now: nat)
    requires ExpiryOrder(q, order, earlier) && earlier <= now
    ensures forall ticket: nat :: Deliverable(LandAll(q, order, earlier), ticket, now) <==> Deliverable(q, ticket, now)
  {
    forall ticket: nat
      ensures Deliverable(LandAll(q, order, earlier), ticket, now) <==> Deliverable(q, ticket, now)
    {
      LandAllInvisible(q, order, earlier, now, ticket);
    }
  }
}

/** The delivery queue shared by the push workers: a binary heap ordered by due time. */
module PushQueue {
  import opened Types

  const MILLISECOND: nat := 1_000_000

  function Parent(i: int): int
    requires 0 < i
  {
    (i - 1) / 2
  }

  ghost predicate HeapOrdered(h: seq<Task>) {
    forall i :: 0 < i < |h| ==> h[Parent(i)].due <= h[i].due
  }

  ghost predicate Earliest(bag: multiset<Task>, t: Task) {
    t in bag && forall u :: u in bag ==> t.due <= u.due
  }

  /** What one poll at `now` may do to the waiting tasks: nothing exactly when none is due,
      otherwise take one that no other task is due before. */
  ghost predicate Polled(bag: multiset<Task>, now: nat, result: Option<Task>, rest: multiset<Task>) {
    match result
    case None => rest == bag && forall t :: t in bag ==> now < t.due
    case Some(t) => Earliest(bag, t) && t.due <= now && rest == bag - multiset{t}
  }

  lemma {:induction false} RootIsEarliest(h: seq<Task>, i: nat)
    requires HeapOrdered(h) && i < |h|
    ensures h[0].due <= h[i].due
  {
    if i > 0 {
      RootIsEarliest(h, Parent(i));
    }
  }

  lemma RootOfBag(h: seq<Task>)
    requires HeapOrdered(h) && h != []
    ensures Earliest(multiset(h), h[0])
  {
    forall u | u in multiset(h)
      ensures h[0].due <= u.due
    {
      var i :| 0 <= i < |h| && h[i] == u;
      RootIsEarliest(h, i);
    }
  }

  function Swapped(h: seq<Task>, i: nat, j: nat): (r: seq<Task>)
    requires i < j < |h|
    ensures |r| == |h| && r[i] == h[j] && r[j] == h[i]
    ensures forall k :: 0 <= k < |h| && k != i && k != j ==> r[k] == h[k]
  {
    h[i := h[j]][j := h[i]]
  }

  lemma SwappedKeeps(h: seq<Task>, i: nat, j: nat)
    requires i < j < |h|
    ensures multiset(Swapped(h, i, j)) == multiset(h)
  {
    assert h == h[..i] + [h[i]] + h[i + 1..j] + [h[j]] + h[j + 1..];
    assert Swapped(h, i, j) == h[..i] + [h[j]] + h[i + 1..j] + [h[i]] + h[j + 1..];
  }

  /** Ordered but for the task at i, which may be due before its parent. */
  ghost predicate Rising(h: seq<Task>, i: nat) {
    && (forall k :: 0 < k < |h| && k != i ==> h[Parent(k)].due <= h[k].due)
    && (forall k :: 0 < k < |h| && Parent(k) == i && 0 < i < |h| ==> h[Parent(i)].due <= h[k].due)
  }

  /** Ordered but for the task at i, which may be due after its children. */
  ghost predicate Sinking(h: seq<Task>, i: nat) {
    && (forall k :: 0 < k < |h| && Parent(k) != i ==> h[Parent(k)].due <= h[k].due)
    && (forall k :: 0 < k < |h| && Parent(k) == i && 0 < i < |h| ==> h[Parent(i)].due <= h[k].due)
  }

  lemma RiseStep(h: seq<Task>, i: nat)
    requires 0 < i < |h| && Rising(h, i) && h[i].due < h[Parent(i)].due
    ensures Rising(Swapped(h, Parent(i), i), Parent(i))
  {
  }

  lemma SinkStep(h: seq<Task>, i: nat, child: nat)
    requires 0 < child < |h| && Parent(child) == i && Sinking(h, i) && h[child].due < h[i].due
    requires forall k :: 0 < k < |h| && Parent(k) == i ==> h[child].due <= h[k].due
    ensures Sinking(Swapped(h, i, child), child)
  {
  }

  lemma Risen(h: seq<Task>, i: nat)
    requires i < |h| && Rising(h, i) && (i > 0 ==> h[Parent(i)].due <= h[i].due)
    ensures HeapOrdered(h)
  {
  }

  lemma Sunk(h: seq<Task>, i: nat)
    requires i < |h| && Sinking(h, i)
    requires forall k :: 0 < k < |h| && Parent(k) == i ==> h[i].due <= h[k].due
    ensures HeapOrdered(h)
  {
  }

  lemma NewLastRises(h: seq<Task>)
    requires h != [] && HeapOrdered(h[..|h| - 1])
    ensures Rising(h, |h| - 1)
  {
    var front := h[..|h| - 1];
    forall k | 0 < k < |front|
      ensures h[Parent(k)].due <= h[k].due
    {
      assert front[Parent(k)].due <= front[k].due;
    }
  }

  /** The child of i that is due first. */
  function FirstChild(h: seq<Task>, i: nat): (child: nat)
    requires 2 * i + 1 < |h|
    ensures 0 < child < |h| && Parent(child) == i
    ensures forall k :: 0 < k < |h| && Parent(k) == i ==> h[child].due <= h[k].due
  {
    var left := 2 * i + 1;
    assert forall k :: 0 < k && Parent(k) == i ==> k == left || k == left + 1;
    if left + 1 < |h| && h[left + 1].due < h[left].due then left + 1 else left
  }

  /** Moves the last task up until its parent is not due after it. */
  method SiftUp(h: seq<Task>) returns (r: seq<Task>)
    requires h != [] && HeapOrdered(h[..|h| - 1])
    ensures HeapOrdered(r) && multiset(r) == multiset(h)
  {
    hide HeapOrdered, Rising, Swapped;
    r := h;
    var i := |h| - 1;
    NewLastRises(h);
    while i > 0 && r[i].due < r[Parent(i)].due
      invariant 0 <= i < |r| == |h|
      invariant multiset(r) == multiset(h) && Rising(r, i)
    {
      SwappedKeeps(r, Parent(i), i);
      RiseStep(r, i);
      r := Swapped(r, Parent(i), i);
      i := Parent(i);
    }
    Risen(r, i);
  }

  /** Moves the first task down until no child is due before it. */
  method SiftDown(h: seq<Task>) returns (r: seq<Task>)
    requires h != [] && Sinking(h, 0)
    ensures HeapOrdered(r) && multiset(r) == multiset(h)
  {
    hide HeapOrdered, Sinking, Swapped, FirstChild;
    r := h;
    var i := 0;
    while 2 * i + 1 < |r|
      invariant 0 <= i < |r| == |h|
      invariant multiset(r) == multiset(h) && Sinking(r, i)
      decreases |r| - i
    {
      var child := FirstChild(r, i);
      if r[i].due <= r[child].due {
        Sunk(r, i);
        return;
      }
      SwappedKeeps(r, i, child);
      SinkStep(r, i, child);
      r := Swapped(r, i, child);
      i := child;
    }
    Sunk(r, i);
  }

  class DeliveryQueue {
    var heap: seq<Task>

    ghost predicate Valid()
      reads this
    {
      HeapOrdered(heap)
    }

    ghost function Bag(): multiset<Task>
      reads this
    {
      multiset(heap)
    }

    constructor ()
      ensures Valid() && Bag() == multiset{}
    {
      heap := [];
    }

    method Enqueue(task: Task)
      requires Valid()
      modifies this
      ensures Valid() && Bag() == old(Bag()) + multiset{task}
    {
      assert (heap + [task])[..|heap|] == heap;
      heap := SiftUp(heap + [task]);
    }

    method DequeueReady(now: nat) returns (task: Option<Task>)
      requires Valid()
      modifies this
      ensures Valid() && Polled(old(Bag()), now, task, Bag())
    {
      task := None;
      if |heap| > 0 {
        RootOfBag(heap);
        if heap[0].due <= now {
          task := Some(heap[0]);
          Pop();
        }
      }
    }

    /** Removes the first task: the last one takes its place and moves down. */
    method Pop()
      requires Valid() && heap != []
      modifies this
      ensures Valid() && Bag() == old(Bag()) - multiset{old(heap)[0]}
    {
      var last := |heap| - 1;
      assert heap == [heap[0]] + heap[1..];
      if last == 0 {
        heap := [];
      } else {
        var moved := [heap[last]] + heap[1..last];
        assert heap[1..] == heap[1..last] + [heap[last]];
        assert forall k :: 0 < k < last ==> moved[k] == heap[k];
        heap := SiftDown(moved);
      }
    }

    /** How long a worker that found nothing due sleeps: until the first task is due, a
        millisecond when one has become due meanwhile, and without limit when there is none. */
    method NextWait(now: nat) returns (wait: Option<nat>)
      requires Valid()
      ensures wait.None? <==> Bag() == multiset{}
      ensures wait.Some? ==> wait.value > 0
      ensures wait.Some? && (forall t :: t in Bag() ==> now < t.due) ==>
                && (forall t :: t in Bag() ==> now + wait.value <= t.due)
                && (exists t :: t in Bag() && t.due == now + wait.value)
      ensures wait.Some? && (exists t :: t in Bag() && t.due <= now) ==> wait.value == MILLISECOND
    {
      if |heap| == 0 {
        return None;
      }
      RootOfBag(heap);
      assert heap[0] in Bag();
      if heap[0].due > now {
        wait := Some(heap[0].due - now);
      } else {
        wait := Some(MILLISECOND);
      }
    }
  }
}

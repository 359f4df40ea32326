/** The timer queue: a binary heap on expiry times, kept in a vector. */
module Timers {
  import opened PreciseTime

  datatype Action = Timeout(transId: int) | Application(tag: int)

  datatype Timer = Timer(id: int, interval: Time, expiry: Time, action: Action, frequent: bool)

  function Parent(i: nat): nat
    requires i > 0
  {
    (i - 1) / 2
  }

  predicate Ordered(q: seq<Timer>, i: nat)
    requires 0 < i < |q|
  {
    AtMost(q[Parent(i)].expiry, q[i].expiry)
  }

  predicate IsHeap(q: seq<Timer>) {
    forall i | 0 < i < |q| :: Ordered(q, i)
  }

  /** Heap order below position `low`. */
  predicate HeapFrom(q: seq<Timer>, low: nat) {
    forall i | 0 < i < |q| && Parent(i) >= low :: Ordered(q, i)
  }

  /** Heap order except between the new element at `i` and its parent. */
  predicate HeapButNew(q: seq<Timer>, i: nat) {
    && i < |q|
    && (forall j | 0 < j < |q| && j != i :: Ordered(q, j))
    && (forall j | 0 < j < |q| && i > 0 && Parent(j) == i :: AtMost(q[Parent(i)].expiry, q[j].expiry))
  }

  lemma NewMovesUp(q: seq<Timer>, i: nat)
    requires HeapButNew(q, i) && i > 0 && Greater(q[Parent(i)].expiry, q[i].expiry)
    ensures HeapButNew(q[i := q[Parent(i)]][Parent(i) := q[i]], Parent(i))
  {
    var parent := Parent(i);
    var q' := q[i := q[parent]][parent := q[i]];
    assert parent > 0 ==> Ordered(q, parent);
    forall j | 0 < j < |q'| && j != parent
      ensures Ordered(q', j)
    {
      assert j != i ==> Ordered(q, j);
    }
    forall j | 0 < j < |q'| && parent > 0 && Parent(j) == parent
      ensures AtMost(q'[Parent(parent)].expiry, q'[j].expiry)
    {
      assert j != i ==> Ordered(q, j);
    }
  }

  /** Heap order below `low` except between `hole` and its children, which may expire before it
      but not before its parent. */
  predicate HeapWithHole(q: seq<Timer>, low: nat, hole: nat) {
    && low <= hole < |q| && (hole > low ==> Parent(hole) >= low)
    && (forall j | 0 < j < |q| && Parent(j) >= low && Parent(j) != hole :: Ordered(q, j))
    && (forall j | 0 < j < |q| && hole > low && Parent(j) == hole :: AtMost(q[Parent(hole)].expiry, q[j].expiry))
  }

  lemma HoleMovesDown(q: seq<Timer>, low: nat, hole: nat, child: nat)
    requires HeapWithHole(q, low, hole) && 0 < child < |q| && Parent(child) == hole
    requires forall j | 0 < j < |q| && Parent(j) == hole :: AtMost(q[child].expiry, q[j].expiry)
    requires Greater(q[hole].expiry, q[child].expiry)
    ensures HeapWithHole(q[hole := q[child]][child := q[hole]], low, child)
  {
    var q' := q[hole := q[child]][child := q[hole]];
    forall j | 0 < j < |q'| && Parent(j) >= low && Parent(j) != child
      ensures Ordered(q', j)
    {
      assert Parent(j) != hole ==> Ordered(q, j);
    }
    forall j | 0 < j < |q'| && Parent(j) == child
      ensures AtMost(q'[hole].expiry, q'[j].expiry)
    {
      assert Ordered(q, j);
    }
  }

  /** The front expires first. */
  lemma {:induction false} FrontIsFirst(q: seq<Timer>, i: nat)
    requires IsHeap(q) && i < |q|
    ensures AtMost(q[0].expiry, q[i].expiry)
    decreases i
  {
    if i > 0 {
      FrontIsFirst(q, Parent(i));
      assert Ordered(q, i);
    }
  }

  lemma SwapKeepsContents(q: seq<Timer>, i: nat, j: nat)
    requires i < |q| && j < |q|
    ensures multiset(q[i := q[j]][j := q[i]]) == multiset(q)
  {
  }

  class TimerManager {
    var queue: seq<Timer>
    var nextId: int

    ghost predicate Valid()
      reads this
    {
      IsHeap(queue)
    }

    ghost function Contents(): multiset<Timer>
      reads this`queue
    {
      multiset(queue)
    }

    constructor ()
      ensures Valid() && queue == [] && nextId == 1
    {
      queue, nextId := [], 1;
    }

    method Swap(i: nat, j: nat)
      requires i < |queue| && j < |queue|
      modifies this`queue
      ensures queue == old(queue)[i := old(queue)[j]][j := old(queue)[i]]
      ensures multiset(queue) == multiset(old(queue))
    {
      SwapKeepsContents(queue, i, j);
      queue := queue[i := queue[j]][j := queue[i]];
    }

    /** The new last element moves up to its place. */
    method PushHeap()
      requires queue != [] && IsHeap(queue[..|queue| - 1])
      modifies this`queue
      ensures Valid() && multiset(queue) == multiset(old(queue)) && |queue| == |old(queue)|
      ensures AtMost(old(queue)[0].expiry, old(queue)[|old(queue)| - 1].expiry) ==> queue[0] == old(queue)[0]
    {
      var i := |queue| - 1;
      ghost var front := queue[..i];
      forall j | 0 < j < i
        ensures Ordered(queue, j)
      {
        assert Ordered(front, j);
      }
      while i > 0 && Greater(queue[Parent(i)].expiry, queue[i].expiry)
        invariant 0 <= i < |queue| == |old(queue)| && multiset(queue) == multiset(old(queue))
        invariant queue[i] == old(queue)[|queue| - 1] && (i > 0 ==> queue[0] == old(queue)[0])
        invariant i == 0 ==> |queue| == 1 || Greater(old(queue)[0].expiry, queue[0].expiry)
        invariant HeapButNew(queue, i)
      {
        NewMovesUp(queue, i);
        Swap(i, Parent(i));
        i := Parent(i);
      }
    }

    /** The element at `low` moves down to its place. */
    method SiftDown(low: nat)
      requires low < |queue| && HeapFrom(queue, low + 1)
      modifies this`queue
      ensures HeapFrom(queue, low) && multiset(queue) == multiset(old(queue)) && |queue| == |old(queue)|
    {
      var i := low;
      while 2 * i + 1 < |queue|
        invariant |queue| == |old(queue)| && multiset(queue) == multiset(old(queue))
        invariant HeapWithHole(queue, low, i)
        decreases |queue| - i
      {
        var child := 2 * i + 1;
        if child + 1 < |queue| && Greater(queue[child].expiry, queue[child + 1].expiry) {
          child := child + 1;
        }
        if !Greater(queue[i].expiry, queue[child].expiry) {
          break;
        }
        HoleMovesDown(queue, low, i, child);
        Swap(i, child);
        i := child;
      }
    }

    /** The front leaves the queue. */
    method PopHeap()
      requires Valid() && queue != []
      modifies this`queue
      ensures Valid() && Contents() == old(Contents()) - multiset{old(queue)[0]}
    {
      var last := |queue| - 1;
      ghost var q := queue;
      queue := queue[0 := queue[last]][..last];
      RemoveFront(q, last);
      if queue != [] {
        forall i | 0 < i < |queue| && Parent(i) >= 1
          ensures Ordered(queue, i)
        {
          assert Ordered(q, i);
        }
        SiftDown(0);
      }
      assert HeapFrom(queue, 0) ==> IsHeap(queue);
    }

    method MakeHeap()
      modifies this`queue
      ensures Valid() && Contents() == old(Contents())
    {
      var i := |queue|;
      while i > 0
        invariant 0 <= i <= |queue| && HeapFrom(queue, i) && Contents() == old(Contents())
      {
        i := i - 1;
        SiftDown(i);
      }
    }

    method Push(t: Timer)
      requires Valid()
      modifies this`queue
      ensures Valid() && Contents() == old(Contents()) + multiset{t} && |queue| == |old(queue)| + 1
      ensures old(queue) != [] && AtMost(old(queue)[0].expiry, t.expiry) ==> queue[0] == old(queue)[0]
    {
      ghost var q := queue;
      queue := queue + [t];
      assert queue[..|queue| - 1] == q;
      PushHeap();
    }

    /** `now` is the reading of the clock. A delay below a second is replaced by the interval. */
    method RegisterTimer(interval: Time, action: Action, frequent: bool, delay: Time, now: Time) returns (id: int)
      requires Valid()
      modifies this
      ensures Valid() && id == old(nextId) && nextId == old(nextId) + 1 && |queue| == |old(queue)| + 1
      ensures Contents() == old(Contents()) + multiset{NewTimer(id, interval, action, frequent, delay, now)}
      ensures old(queue) != [] && AtMost(old(queue)[0].expiry, NewTimer(id, interval, action, frequent, delay, now).expiry) ==>
                queue[0] == old(queue)[0]
    {
      var delay' := if delay.seconds == 0 then interval else delay;
      id := nextId;
      nextId := nextId + 1;
      Push(Timer(id, interval, Plus(now, delay'), action, frequent));
    }

    /** Removes the timer with this id, of which there is at most one. */
    method RemoveTimer(id: int)
      requires Valid() && (forall i, j | 0 <= i < j < |queue| :: queue[i].id != queue[j].id)
      modifies this`queue
      ensures Valid()
      ensures forall t: Timer :: Contents()[t] == if t.id == id then 0 else old(Contents())[t]
    {
      var i := 0;
      while i < |queue| && queue[i].id != id
        invariant 0 <= i <= |queue| && forall j | 0 <= j < i :: queue[j].id != id
      {
        i := i + 1;
      }
      ghost var q := queue;
      if i == |queue| {
        forall t | t in q
          ensures t.id != id
        {
        }
        return;
      }
      queue := queue[..i] + queue[i + 1..];
      RemoveAt(q, i);
      MakeHeap();
    }
  }

  function NewTimer(id: int, interval: Time, action: Action, frequent: bool, delay: Time, now: Time): Timer {
    Timer(id, interval, Plus(now, if delay.seconds == 0 then interval else delay), action, frequent)
  }

  lemma RemoveFront(q: seq<Timer>, last: nat)
    requires last == |q| - 1
    ensures multiset(q[0 := q[last]][..last]) == multiset(q) - multiset{q[0]}
  {
    var q' := q[0 := q[last]][last := q[0]];
    SwapKeepsContents(q, 0, last);
    assert q' == q[0 := q[last]][..last] + [q[0]];
  }

  lemma RemoveAt(q: seq<Timer>, i: nat)
    requires i < |q| && (forall j, k | 0 <= j < k < |q| :: q[j].id != q[k].id)
    ensures forall t: Timer :: multiset(q[..i] + q[i + 1..])[t] == if t.id == q[i].id then 0 else multiset(q)[t]
  {
    assert q == q[..i] + [q[i]] + q[i + 1..];
    var rest := q[..i] + q[i + 1..];
    forall t: Timer
      ensures multiset(rest)[t] == if t.id == q[i].id then 0 else multiset(q)[t]
    {
      assert multiset(q)[t] == multiset(rest)[t] + multiset{q[i]}[t];
      if t.id == q[i].id {
        assert t !in rest;
      }
    }
  }
}

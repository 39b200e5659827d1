/** What a timer's operations mean for the items pending on it, whatever identifies an item. */
module TimerSpec {
  import opened Sequences

  const UINT64_MAX: nat := 0xFFFF_FFFF_FFFF_FFFF
  const INT_MAX: nat := 0x7FFF_FFFF

  /** Due items taken earliest first, with nothing earlier left behind. */
  ghost predicate IsDuePrefix<K>(due: map<K, nat>, now: nat, batch: seq<K>) {
    && Distinct(batch)
    && (forall x :: x in batch ==> x in due && due[x] <= now)
    && (forall i, j :: 0 <= i < j < |batch| ==> due[batch[i]] <= due[batch[j]])
    && (forall x, y :: x in batch && y in due && y !in batch ==> due[x] <= due[y])
  }

  /** The batch removed at time `now` into a buffer of `capacity` slots. */
  ghost predicate IsDueBatch<K>(due: map<K, nat>, now: nat, capacity: nat, batch: seq<K>) {
    && IsDuePrefix(due, now, batch)
    && |batch| <= capacity
    && (|batch| < capacity ==> forall y :: y in due && y !in batch ==> now < due[y])
  }

  ghost function DueAt<K>(due: map<K, nat>, now: nat): set<K> {
    set x | x in due && due[x] <= now
  }

  lemma EmptyPrefix<K>(due: map<K, nat>, now: nat)
    ensures IsDuePrefix(due, now, []) && due - Elements([]) == due
  {
    assert Elements<K>([]) == {};
  }

  lemma ExtendPrefix<K>(due: map<K, nat>, now: nat, batch: seq<K>, x: K)
    requires IsDuePrefix(due, now, batch)
    requires x in due && x !in batch && due[x] <= now
    requires forall y :: y in due && y !in batch ==> due[x] <= due[y]
    ensures IsDuePrefix(due, now, batch + [x])
  {
    var b := batch + [x];
    forall i, j | 0 <= i < j < |b|
      ensures b[i] != b[j] && due[b[i]] <= due[b[j]]
    {
      assert b[i] in batch;
    }
    forall y | y in due && y !in b
      ensures y !in batch
    {
      assert batch <= b;
    }
  }

  /** The batch fills the buffer or holds every due item, whichever is fewer. */
  lemma BatchSize<K>(due: map<K, nat>, now: nat, capacity: nat, batch: seq<K>)
    requires IsDueBatch(due, now, capacity, batch)
    ensures |batch| == if capacity < |DueAt(due, now)| then capacity else |DueAt(due, now)|
  {
    DistinctSize(batch);
    assert Elements(batch) <= DueAt(due, now);
    SubsetSize(Elements(batch), DueAt(due, now));
    if |batch| < capacity {
      assert Elements(batch) == DueAt(due, now);
    }
  }

  ghost function Wait(due: nat, now: nat): nat {
    if due > now then due - now else 0
  }

  /** The epoll timeout: -1 with nothing finite pending, otherwise the wait for the earliest item. */
  ghost predicate IsTimeout<K>(due: map<K, nat>, now: nat, timeout: int) {
    if forall x :: x in due ==> due[x] == UINT64_MAX then timeout == -1
    else
      && (exists x :: x in due && due[x] != UINT64_MAX && timeout == Wait(due[x], now))
      && (forall x :: x in due ==> timeout <= Wait(due[x], now))
  }

  lemma TimeoutIsUnique<K>(due: map<K, nat>, now: nat, a: int, b: int)
    requires IsTimeout(due, now, a) && IsTimeout(due, now, b)
    ensures a == b
  {
  }

  /** Waiting out the timeout makes some item due; no shorter wait does. */
  lemma TimeoutIsExact<K>(due: map<K, nat>, now: nat, timeout: int, later: nat)
    requires IsTimeout(due, now, timeout) && now <= later < UINT64_MAX
    ensures DueAt(due, later) != {} <==> timeout >= 0 && now + timeout <= later
  {
    if x :| x in DueAt(due, later) {
      assert x in due && due[x] != UINT64_MAX;
    }
    if timeout >= 0 && now + timeout <= later {
      var x :| x in due && due[x] != UINT64_MAX && timeout == Wait(due[x], now);
      assert x in DueAt(due, later);
    }
  }
}

/** Timer.cxx: timer items kept in the pointer heap by due time. */
module Timers {
  import opened HeapShape
  import opened PointerHeap
  import opened Sequences
  import opened TimerSpec
  import HeapPath

  /** The conversion of a 64-bit difference to the int that calculateTimeout returns. */
  function ToInt(n: nat): int {
    var low := n % 0x1_0000_0000;
    if low <= INT_MAX then low else low - 0x1_0000_0000
  }

  class Timer {
    const heap: Heap
    ghost var clock: nat
    /** The pending items and their due times. */
    ghost var pending: map<HeapNode, nat>

    /** No finite due time lies further ahead of the last clock reading than INT_MAX. */
    ghost predicate Valid()
      reads this, heap, heap.pos.Keys
    {
      && heap.Valid()
      && pending == DuesOf(heap.pos.Keys)
      && clock + INT_MAX < UINT64_MAX
      && forall x :: x in heap.pos.Keys ==> x.dueTime == UINT64_MAX || x.dueTime <= clock + INT_MAX
    }

    constructor ()
      ensures Valid() && pending == map[] && clock == 0 && fresh(heap)
    {
      heap := new Heap();
      clock, pending := 0, map[];
    }

    method Earliest() returns (item: HeapNode?)
      requires Valid()
      ensures if item == null then pending == map[] else IsEarliest(item)
    {
      item := heap.Min();
    }

    lemma Bounded(now: nat)
      requires Valid() && clock <= now && now + INT_MAX < UINT64_MAX
      ensures forall x <- pending :: pending[x] == UINT64_MAX || pending[x] <= now + INT_MAX
      ensures pending.Keys == heap.pos.Keys
    {
    }

    ghost method SetPending(due: map<HeapNode, nat>)
      requires heap.Valid() && clock + INT_MAX < UINT64_MAX && due == DuesOf(heap.pos.Keys)
      requires forall x <- due :: due[x] == UINT64_MAX || due[x] <= clock + INT_MAX
      modifies this`pending
      ensures Valid() && pending == due
    {
      hide PointerHeap.Heap.Valid;
      assert forall x :: x in heap.pos.Keys ==> x in due && due[x] == x.dueTime;
      pending := due;
    }

    method AddItem(item: HeapNode, duration: int, now: nat)
      requires Valid() && item !in pending && clock <= now && now + INT_MAX < UINT64_MAX
      requires duration <= INT_MAX && heap.nelts + 1 < HeapPath.UINT_RANGE
      modifies this, heap, heap.pos.Keys`left, heap.pos.Keys`right, heap.pos.Keys`parent, item
      ensures Valid() && clock == now
      ensures pending == old(pending)[item := if duration >= 0 then now + duration else UINT64_MAX]
    {
      hide PointerHeap.Heap.Valid;
      Bounded(now);
      clock := now;
      item.dueTime := if duration >= 0 then now + duration else UINT64_MAX;
      var _ := heap.Insert(item);
      SetPending(pending[item := if duration >= 0 then now + duration else UINT64_MAX]);
    }

    method RemoveItem(item: HeapNode)
      requires Valid() && item in pending
      modifies this`pending, heap, heap.pos.Keys`left, heap.pos.Keys`right, heap.pos.Keys`parent
      ensures Valid() && pending == old(pending) - {item}
    {
      Bounded(clock);
      hide PointerHeap.Heap.Valid;
      var _, _ := heap.Remove(item);
      SetPending(pending - {item});
    }

    /** `batch` has been taken off the items of `due`, earliest first, and the rest is still pending. */
    ghost predicate Drained(due: map<HeapNode, nat>, now: nat, batch: seq<HeapNode>)
      reads this, heap, heap.pos.Keys
    {
      Valid() && clock == now && pending == due - Elements(batch) && IsDuePrefix(due, now, batch)
    }

    ghost predicate IsEarliest(item: HeapNode)
      reads this, item
    {
      item in pending && item.dueTime == pending[item] && forall y <- pending :: pending[item] <= pending[y]
    }

    /** Moves the earliest item, which is due, from the heap to the next free slot of the buffer. */
    method TakeDue(item: HeapNode, now: nat, ghost due: map<HeapNode, nat>, ghost batch: seq<HeapNode>)
      requires Drained(due, now, batch) && IsEarliest(item) && item.dueTime <= now
      modifies this`pending, heap, due.Keys`left, due.Keys`right, due.Keys`parent
      ensures Drained(due, now, batch + [item])
    {
      hide PointerHeap.Heap.Valid;
      forall y | y in due && y !in batch
        ensures due[item] <= due[y]
      {
        assert y in pending && pending[y] == due[y];
      }
      assert item in due && item !in batch && pending[item] == due[item];
      ExtendPrefix(due, now, batch, item);
      assert heap.pos.Keys == pending.Keys;
      RemoveItem(item);
    }

    lemma StillValid(due: map<HeapNode, nat>, now: nat, batch: seq<HeapNode>)
      requires Drained(due, now, batch)
      ensures Valid()
    {
    }

    lemma NothingLeftDue(due: map<HeapNode, nat>, now: nat, batch: seq<HeapNode>, item: HeapNode?)
      requires Drained(due, now, batch)
      requires if item == null then pending == map[] else IsEarliest(item) && now < item.dueTime
      ensures forall y :: y in due && y !in batch ==> now < due[y]
    {
      forall y | y in due && y !in batch
        ensures now < due[y]
      {
        assert y in pending && pending[y] == due[y];
      }
    }

    method Drain(first: HeapNode, buffer: array<HeapNode?>, now: nat, ghost due: map<HeapNode, nat>)
      returns (count: nat, ghost batch: seq<HeapNode>)
      requires Drained(due, now, []) && IsEarliest(first) && buffer.Length > 0
      modifies this`pending, heap, due.Keys`left, due.Keys`right, due.Keys`parent, buffer
      ensures Drained(due, now, batch) && count <= buffer.Length && buffer[..count] == batch
      ensures count < buffer.Length ==> forall y :: y in due && y !in batch ==> now < due[y]
    {
      hide *;
      var item: HeapNode? := first;
      count, batch := 0, [];
      while true
        invariant Drained(due, now, batch) && item != null && IsEarliest(item)
        invariant count == |batch| < buffer.Length && buffer[..count] == batch
        decreases buffer.Length - count
      {
        if item.dueTime > now {
          NothingLeftDue(due, now, batch, item);
          break;
        }
        TakeDue(item, now, due, batch);
        buffer[count] := item;
        count, batch := count + 1, batch + [item];
        if count == buffer.Length {
          break;
        }
        StillValid(due, now, batch);
        item := Earliest();
        if item == null {
          NothingLeftDue(due, now, batch, item);
          break;
        }
      }
    }

    method RemoveDueItems(buffer: array<HeapNode?>, now: nat) returns (count: nat, ghost batch: seq<HeapNode>)
      requires Valid() && clock <= now && now + INT_MAX < UINT64_MAX
      modifies this`clock, this`pending, heap, heap.pos.Keys`left, heap.pos.Keys`right, heap.pos.Keys`parent, buffer
      ensures Valid() && clock == now
      ensures count <= buffer.Length && buffer[..count] == batch
      ensures IsDueBatch(old(pending), now, buffer.Length, batch)
      ensures pending == old(pending) - Elements(batch)
    {
      hide PointerHeap.Heap.Valid, IsDuePrefix, DuesOf;
      Bounded(now);
      clock := now;
      count, batch := 0, [];
      ghost var due := pending;
      EmptyPrefix(due, now);
      if buffer.Length == 0 {
        return;
      }
      var item := Earliest();
      if item == null {
        return;
      }
      count, batch := Drain(item, buffer, now, due);
    }

    method CalculateTimeout(now: nat) returns (timeout: int)
      requires Valid() && clock <= now && now + INT_MAX < UINT64_MAX
      modifies this`clock
      ensures Valid() && clock == now
      ensures IsTimeout(pending, now, timeout) && -1 <= timeout <= 0x7FFF_FFFF
    {
      hide PointerHeap.Heap.Valid;
      Bounded(now);
      clock := now;
      var item := Earliest();
      if item == null {
        return -1;
      }
      assert pending[item] == item.dueTime;
      if item.dueTime == UINT64_MAX {
        return -1;
      }
      timeout := if item.dueTime > now then ToInt(item.dueTime - now) else 0;
    }
  }
}

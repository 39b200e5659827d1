/** The timer item inside each fiber: Scheduler.cxx's way from fibers to Timer.cxx's heap and back. */
module FiberTimers {
  import opened HeapShape
  import opened Sequences
  import PollPlaces
  import S = SchedulerSpec
  import T = TimerSpec
  import Timers
  import HeapPath

  type Fid = PollPlaces.Fid

  /** Timer items and fibers belong to each other one to one. */
  ghost predicate Paired(timerItem: map<Fid, HeapNode>, container: map<HeapNode, Fid>) {
    && (forall f :: f in timerItem ==> timerItem[f] in container && container[timerItem[f]] == f)
    && (forall x :: x in container ==> container[x] in timerItem && timerItem[container[x]] == x)
  }

  /** `due` is the heap's content told by fiber. */
  ghost predicate Mirrored(due: map<Fid, nat>, pending: map<HeapNode, nat>, timerItem: map<Fid, HeapNode>, container: map<HeapNode, Fid>) {
    && (forall f :: f in due ==> f in timerItem && timerItem[f] in pending && pending[timerItem[f]] == due[f])
    && (forall x :: x in pending ==> x in container && container[x] in due)
  }

  ghost predicate Matched(due: map<Fid, nat>, pending: map<HeapNode, nat>, timerItem: map<Fid, HeapNode>, container: map<HeapNode, Fid>) {
    Paired(timerItem, container) && Mirrored(due, pending, timerItem, container)
  }

  lemma MatchedAdd(due: map<Fid, nat>, pending: map<HeapNode, nat>, timerItem: map<Fid, HeapNode>,
                 container: map<HeapNode, Fid>, f: Fid, time: nat)
    requires Matched(due, pending, timerItem, container) && f in timerItem && f !in due
    ensures timerItem[f] in container && timerItem[f] !in pending && pending.Keys <= container.Keys
    ensures Matched(due[f := time], pending[timerItem[f] := time], timerItem, container)
  {
  }

  lemma MatchedRemove(due: map<Fid, nat>, pending: map<HeapNode, nat>, timerItem: map<Fid, HeapNode>,
                    container: map<HeapNode, Fid>, f: Fid)
    requires Matched(due, pending, timerItem, container) && f in due
    ensures f in timerItem && timerItem[f] in pending && pending.Keys <= container.Keys
    ensures Matched(due - {f}, pending - {timerItem[f]}, timerItem, container)
  {
  }

  function FibersOf(items: seq<HeapNode>, container: map<HeapNode, Fid>): seq<Fid>
    requires forall x :: x in items ==> x in container
  {
    seq(|items|, i requires 0 <= i < |items| => assert items[i] in items; container[items[i]])
  }

  /** A batch of due items is a batch of due fibers, and taking the items takes the fibers. */
  lemma MatchedBatch(due: map<Fid, nat>, pending: map<HeapNode, nat>, timerItem: map<Fid, HeapNode>, container: map<HeapNode, Fid>,
                   now: nat, capacity: nat, items: seq<HeapNode>)
    requires Matched(due, pending, timerItem, container) && T.IsDueBatch(pending, now, capacity, items)
    ensures pending.Keys <= container.Keys && forall x :: x in items ==> x in container
    ensures T.IsDueBatch(due, now, capacity, FibersOf(items, container))
    ensures Matched(due - Elements(FibersOf(items, container)), pending - Elements(items), timerItem, container)
  {
    var fs := FibersOf(items, container);
    forall i | 0 <= i < |fs|
      ensures items[i] in pending && fs[i] == container[items[i]] && fs[i] in due && timerItem[fs[i]] == items[i] && due[fs[i]] == pending[items[i]]
    {
      assert items[i] in items;
    }
    forall f: Fid | f in due
      ensures f in fs <==> timerItem[f] in items
    {
      if timerItem[f] in items {
        var i :| 0 <= i < |items| && items[i] == timerItem[f];
        assert fs[i] == f;
      }
    }
  }

  lemma {:induction false} MatchedSize(due: map<Fid, nat>, pending: map<HeapNode, nat>, timerItem: map<Fid, HeapNode>,
                                       container: map<HeapNode, Fid>)
    requires Matched(due, pending, timerItem, container)
    ensures |pending| == |due|
    decreases |due|
  {
    if f :| f in due {
      MatchedRemove(due, pending, timerItem, container, f);
      MatchedSize(due - {f}, pending - {timerItem[f]}, timerItem, container);
    }
  }

  lemma MatchedTimeout(due: map<Fid, nat>, pending: map<HeapNode, nat>, timerItem: map<Fid, HeapNode>, container: map<HeapNode, Fid>,
                       now: nat)
    requires Matched(due, pending, timerItem, container)
    ensures forall timeout :: T.IsTimeout(pending, now, timeout) ==> T.IsTimeout(due, now, timeout)
  {
    forall f | f in due
      ensures timerItem[f] in pending && pending[timerItem[f]] == due[f]
    {
    }
    forall x | x in pending
      ensures container[x] in due && due[container[x]] == pending[x]
    {
    }
  }

  class FiberTimers {
    const timer: Timers.Timer
    var timerItem: map<Fid, HeapNode>
    var container: map<HeapNode, Fid>
    /** The fibers whose items are in the heap, with their due times. */
    ghost var due: map<Fid, nat>

    ghost predicate Valid()
      reads this, timer, timer.heap, timer.heap.pos.Keys
    {
      timer.Valid() && Matched(due, timer.pending, timerItem, container)
    }

    constructor ()
      ensures Valid() && due == map[] && timerItem == map[] && timer.clock == 0
      ensures fresh(timer) && fresh(timer.heap)
    {
      timer := new Timers.Timer();
      timerItem, container, due := map[], map[], map[];
    }

    lemma PendingNodes()
      requires timer.Valid()
      ensures timer.heap.pos.Keys == timer.pending.Keys
    {
    }

    /** The heap's element count is the number of fibers with a pending timer. */
    lemma CountIsSize()
      requires Valid()
      ensures timer.heap.nelts == |due|
    {
      var order := timer.heap.order;
      forall i, j | 0 <= i < j < |order|
        ensures order[i] != order[j]
      {
        assert timer.heap.pos[order[i]] == i;
      }
      DistinctSize(order);
      assert Elements(order) == timer.pending.Keys;
      MatchedSize(due, timer.pending, timerItem, container);
    }

    lemma PendingContained()
      requires Valid()
      ensures timer.pending.Keys <= container.Keys
    {
    }

    /** The fibers around the first `count` items of the buffer. */
    method TakeFibers(buffer: array<HeapNode?>, count: nat, ghost items: seq<HeapNode>) returns (batch: seq<Fid>)
      requires count <= buffer.Length && buffer[..count] == items && forall x :: x in items ==> x in container
      ensures batch == FibersOf(items, container)
    {
      batch := [];
      for i := 0 to count
        invariant batch == FibersOf(items, container)[..i]
      {
        assert buffer[..count][i] == items[i] && items[i] in items;
        batch := batch + [container[buffer[i]]];
      }
    }

    /** CreateFiber's part: a fresh item for a new fiber. */
    method CreateItem(f: Fid)
      requires Valid() && f !in timerItem
      modifies this`timerItem, this`container
      ensures Valid() && due == old(due) && timerItem.Keys == old(timerItem).Keys + {f}
      ensures fresh(container.Keys - old(container).Keys)
    {
      hide Timers.Timer.Valid;
      var item := new HeapNode();
      timerItem, container := timerItem[f := item], container[item := f];
    }

    ghost method SetDue(d: map<Fid, nat>)
      requires timer.Valid()
      modifies this`due
      ensures timer.Valid() && due == d
    {
      hide *;
      due := d;
    }

    method AddItem(f: Fid, duration: int, now: nat)
      requires Valid() && f in timerItem && f !in due
      requires timer.clock <= now && now + T.INT_MAX < T.UINT64_MAX && duration <= T.INT_MAX
      requires timer.heap.nelts + 1 < HeapPath.UINT_RANGE
      modifies this`due, timer, timer.heap, container.Keys
      ensures Valid() && timer.clock == now
      ensures due == old(due)[f := if duration >= 0 then now + duration else T.UINT64_MAX]
    {
      PendingNodes();
      MatchedAdd(due, timer.pending, timerItem, container, f, S.DueTime(duration, now));
      hide *;
      timer.AddItem(timerItem[f], duration, now);
      SetDue(due[f := S.DueTime(duration, now)]);
    }

    method RemoveItem(f: Fid)
      requires Valid() && f in due
      modifies this`due, timer`pending, timer.heap, container.Keys
      ensures Valid() && due == old(due) - {f}
    {
      PendingNodes();
      MatchedRemove(due, timer.pending, timerItem, container, f);
      hide *;
      timer.RemoveItem(timerItem[f]);
      SetDue(due - {f});
    }

    /** DestroyFiber's part: the item goes with its fiber. */
    method DestroyItem(f: Fid)
      requires Valid() && f in timerItem && f !in due
      modifies this`timerItem, this`container
      ensures Valid() && timerItem == old(timerItem) - {f} && container.Keys <= old(container.Keys)
    {
      hide Timers.Timer.Valid;
      var item := timerItem[f];
      timerItem, container := timerItem - {f}, container - {item};
    }

    method CalculateTimeout(now: nat) returns (timeout: int)
      requires Valid() && timer.clock <= now && now + T.INT_MAX < T.UINT64_MAX
      modifies timer`clock
      ensures Valid() && timer.clock == now && T.IsTimeout(due, now, timeout)
    {
      MatchedTimeout(due, timer.pending, timerItem, container, now);
      hide *;
      timeout := timer.CalculateTimeout(now);
    }

    method RemoveDueItems(now: nat) returns (batch: seq<Fid>)
      requires Valid() && timer.clock <= now && now + T.INT_MAX < T.UINT64_MAX
      modifies this`due, timer, timer.heap, container.Keys
      ensures Valid() && timer.clock == now
      ensures T.IsDueBatch(old(due), now, 1024, batch) && due == old(due) - Elements(batch)
    {
      PendingNodes();
      PendingContained();
      hide *;
      var buffer := new HeapNode?[S.BATCH](_ => null);
      ghost var pending := timer.pending;
      var count, items := timer.RemoveDueItems(buffer, now);
      MatchedBatch(due, pending, timerItem, container, now, buffer.Length, items);
      batch := TakeFibers(buffer, count, items);
      SetDue(due - Elements(batch));
    }
  }
}

/** The intrusive rings of queue.h: circular doubly linked lists through a header item. */
module Rings {
  import opened Sequences

  class QueueItem {
    var next: QueueItem
    var prev: QueueItem

    constructor ()
      ensures Ring([this])
    {
      next, prev := this, this;
    }
  }

  function After(i: int, n: int): int {
    if i + 1 == n then 0 else i + 1
  }

  function Before(i: int, n: int): int {
    if i == 0 then n - 1 else i - 1
  }

  ghost predicate LinkedAt(c: seq<QueueItem>, i: int)
    requires 0 <= i < |c|
    reads c[i]
  {
    c[i].next == c[After(i, |c|)] && c[i].prev == c[Before(i, |c|)]
  }

  lemma DistinctWithout(c: seq<QueueItem>, e: seq<QueueItem>)
    requires Distinct(c + e) && e != []
    ensures Distinct(c + e[1..])
  {
    var all, d := c + e, c + e[1..];
    assert forall i :: 0 <= i < |c| ==> c[i] == all[i];
    assert forall i :: 0 <= i < |e| ==> e[i] == all[|c| + i];
    assert forall i :: 0 <= i < |d| ==> d[i] == if i < |c| then all[i] else all[i + 1];
  }

  lemma DistinctApart(c: seq<QueueItem>, e: seq<QueueItem>)
    requires Distinct(c + e)
    ensures Distinct(c) && Distinct(e)
    ensures forall i, j :: 0 <= i < |c| && 0 <= j < |e| ==> c[i] != e[j]
  {
    forall i, j | 0 <= i < |c| && 0 <= j < |e|
      ensures c[i] != e[j]
    {
      assert (c + e)[i] == c[i] && (c + e)[|c| + j] == e[j];
    }
    assert forall i :: 0 <= i < |c| ==> c[i] == (c + e)[i];
    assert forall i :: 0 <= i < |e| ==> e[i] == (c + e)[|c| + i];
  }

  lemma DistinctSplit(c: seq<QueueItem>, n: QueueItem, j: nat)
    requires Distinct(c) && n !in c && j <= |c|
    ensures Distinct(c[..j]) && Distinct([n] + c[j..])
  {
    assert forall i :: 0 < i < |c| - j + 1 ==> ([n] + c[j..])[i] == c[j + i - 1];
  }

  /** The cycle c is linked both ways round; c[0] is the header and the rest the queued items. */
  ghost predicate Ring(c: seq<QueueItem>)
    reads c
  {
    c != [] && Distinct(c) && forall i :: 0 <= i < |c| ==> LinkedAt(c, i)
  }

  method Init(q: QueueItem)
    modifies q
    ensures Ring([q])
  {
    q.next := q;
    q.prev := q;
  }

  method InsertHead(h: QueueItem, q: QueueItem, ghost s: seq<QueueItem>)
    requires Ring([h] + s) && q !in [h] + s
    modifies q, [h] + s
    ensures Ring([h, q] + s)
  {
    ghost var c, d := [h] + s, [h, q] + s;
    assert c[0] == h && forall i :: 1 < i < |d| ==> d[i] == c[i - 1];
    assert LinkedAt(c, 0) && LinkedAt(c, After(0, |c|));
    q.next := h.next;
    q.prev := h;
    q.next.prev := q;
    h.next := q;
    forall i | 0 <= i < |d|
      ensures LinkedAt(d, i)
    {
      assert i > 1 ==> old(LinkedAt(c, i - 1));
    }
  }

  method InsertTail(h: QueueItem, q: QueueItem, ghost s: seq<QueueItem>)
    requires Ring([h] + s) && q !in [h] + s
    modifies q, [h] + s
    ensures Ring([h] + s + [q])
  {
    ghost var c, d := [h] + s, [h] + s + [q];
    assert LinkedAt(c, 0) && LinkedAt(c, |s|);
    q.next := h;
    q.prev := h.prev;
    q.prev.next := q;
    h.prev := q;
    forall i | 0 <= i < |d|
      ensures LinkedAt(d, i)
    {
      assert i <= |s| ==> old(LinkedAt(c, i));
    }
  }

  method Remove(q: QueueItem, ghost c: seq<QueueItem>, ghost k: nat)
    requires Ring(c) && 0 < k < |c| && q == c[k]
    modifies c
    ensures Ring(c[..k] + c[k + 1..])
    ensures q.next == old(q.next) && q.prev == old(q.prev)
    ensures q.next == q.prev <==> |c| == 2
    ensures |c| == 2 ==> q.next == c[0]
  {
    ghost var d := c[..k] + c[k + 1..];
    assert LinkedAt(c, k) && LinkedAt(c, k - 1) && LinkedAt(c, After(k, |c|));
    q.prev.next := q.next;
    q.next.prev := q.prev;
    forall i | 0 <= i < |d|
      ensures LinkedAt(d, i)
    {
      assert i < k ==> old(LinkedAt(c, i));
      assert i >= k ==> old(LinkedAt(c, i + 1));
    }
  }

  /** Appends the items of ring n to ring h.  An empty n leaves h as it was; n itself is left dangling. */
  method Add(h: QueueItem, n: QueueItem, ghost s: seq<QueueItem>, ghost t: seq<QueueItem>)
    requires Ring([h] + s) && Ring([n] + t) && Distinct([h] + s + ([n] + t))
    modifies [h] + s, [n] + t
    ensures Ring([h] + s + t)
  {
    ghost var c, e, d := [h] + s, [n] + t, [h] + s + t;
    DistinctWithout(c, e);
    assert d == c + e[1..];
    DistinctApart(c, e);
    assert LinkedAt(c, 0) && LinkedAt(c, |s|) && LinkedAt(e, 0) && LinkedAt(e, |t|);
    assert t != [] ==> LinkedAt(e, 1);
    h.prev.next := n.next;
    n.next.prev := h.prev;
    h.prev := n.prev;
    h.prev.next := h;
    forall i | 0 <= i < |d|
      ensures LinkedAt(d, i)
    {
      assert i <= |s| ==> old(LinkedAt(c, i));
      assert i > |s| ==> old(LinkedAt(e, i - |s|));
    }
  }

  method SplitLinks(h: QueueItem, q: QueueItem, n: QueueItem)
    requires n != h && n != h.prev && n != q && n != q.prev
    requires q != h ==> h.prev != h && h.prev != q.prev && q.prev != q
    requires q == h ==> h.prev.next == h
    modifies n, h`prev, q`prev, h.prev`next, q.prev`next
    ensures n.prev == old(h.prev) && n.next == q && q.prev == n
    ensures q != h ==> old(h.prev).next == n && h.prev == old(q.prev) && h.prev.next == h
    ensures q == h && old(h.next == h) ==> h.next == h
  {
    n.prev := h.prev;
    n.prev.next := n;
    n.next := q;
    h.prev := q.prev;
    h.prev.next := h;
    q.prev := n;
  }

  /** Cuts cycle c before position j; n becomes the header of everything from there on.
      The result is two rings exactly when q is an item: with q the header itself, n adopts it. */
  method Split(h: QueueItem, q: QueueItem, n: QueueItem, ghost c: seq<QueueItem>, ghost j: nat)
    requires Ring(c) && h == c[0] && n !in c && j < |c| && q == c[j]
    modifies c, n
    ensures Ring(c[..j]) && Ring([n] + c[j..]) <==> q != h
    ensures q == h ==> n.next == h && h.prev == n
  {
    ghost var d, e := c[..j], [n] + c[j..];
    DistinctSplit(c, n, j);
    assert LinkedAt(c, 0) && LinkedAt(c, j) && LinkedAt(c, |c| - 1);
    assert j > 0 ==> LinkedAt(c, j - 1);
    SplitLinks(h, q, n);
    if q != h {
      forall i | 0 <= i < |d|
        ensures LinkedAt(d, i)
      {
        assert old(LinkedAt(c, i));
      }
      forall i | 0 <= i < |e|
        ensures LinkedAt(e, i)
      {
        assert i > 0 ==> old(LinkedAt(c, j + i - 1));
      }
    }
  }

  /** The walk from the header visits each item once, in order. */
  method Foreach(h: QueueItem, ghost c: seq<QueueItem>) returns (visited: seq<QueueItem>)
    requires Ring(c) && h == c[0]
    ensures visited == c[1..]
  {
    visited := [];
    assert LinkedAt(c, 0);
    var q := h.next;
    while q != h
      invariant |visited| < |c| && visited == c[1..][..|visited|] && q == c[After(|visited|, |c|)]
      decreases |c| - |visited|
    {
      visited := visited + [q];
      assert LinkedAt(c, |visited|);
      q := q.next;
    }
  }

  /** The flush loop: each item is turned into a self-loop after its successor was read, the header last. */
  method ResetAll(h: QueueItem, ghost c: seq<QueueItem>)
    requires Ring(c) && h == c[0] && h.next != h
    modifies c
    ensures forall i :: 0 <= i < |c| ==> Ring([c[i]])
  {
    assert LinkedAt(c, 0);
    forall i | 0 <= i < |c|
      ensures c[i].next == c[After(i, |c|)]
    {
      assert LinkedAt(c, i);
    }
    var q := h.next;
    ghost var k := 1;
    while true
      invariant 1 <= k < |c| && q == c[k]
      invariant forall i :: 1 <= i < k ==> Ring([c[i]])
      invariant forall i :: k <= i < |c| ==> c[i].next == c[After(i, |c|)]
      decreases |c| - k
    {
      var item := q;
      q := q.next;
      Init(item);
      k := k + 1;
      if q == h {
        break;
      }
    }
    Init(h);
  }

  /** Takes an awaiter out of one of a watcher's two rings.  Its own stale links tell whether that ring
      is now empty, and if so which header it belonged to. */
  method RemoveAwaiter(item: QueueItem, h0: QueueItem, h1: QueueItem,
                       ghost c0: seq<QueueItem>, ghost c1: seq<QueueItem>, ghost k: nat) returns (emptied: int)
    requires Ring(c0) && Ring(c1) && c0[0] == h0 && c1[0] == h1 && Distinct(c0 + c1)
    requires 0 < k < |c0 + c1| && k != |c0| && item == (c0 + c1)[k]
    modifies c0, c1
    ensures k < |c0| ==> Ring(c0[..k] + c0[k + 1..]) && Ring(c1) && emptied == if |c0| == 2 then 0 else -1
    ensures k > |c0| ==>
      var j := k - |c0|; Ring(c1[..j] + c1[j + 1..]) && Ring(c0) && emptied == if |c1| == 2 then 1 else -1
  {
    DistinctApart(c0, c1);
    Remove(item, if k < |c0| then c0 else c1, if k < |c0| then k else k - |c0|);
    emptied := -1;
    if item.next == item.prev {
      emptied := if item.next == h0 then 0 else 1;
    }
  }
}

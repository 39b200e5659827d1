/** What the interest cache in front of epoll means: watchers, their awaiters, the dirty list
    and the interest the kernel holds, for awaiters of any type. */
module PollSpec {
  import opened Sequences

  datatype IOEvent = Readability | Writability

  type Flags = set<IOEvent>

  /** `flags` is what the kernel was told, `pending` what it should be told. */
  datatype Watcher<A> = Watcher(flags: Flags, pending: Flags, readers: seq<A>, writers: seq<A>) {
    function Awaiters(e: IOEvent): seq<A> {
      if e.Readability? then readers else writers
    }

    function WithAwaiters(e: IOEvent, q: seq<A>): Watcher<A> {
      if e.Readability? then this.(readers := q) else this.(writers := q)
    }
  }

  datatype Poll<A> = Poll(watchers: map<int, Watcher<A>>, dirty: seq<int>, kernel: map<int, Flags>)

  /** One entry of epoll_wait's answer; `broken` stands for EPOLLERR or EPOLLHUP. */
  datatype Event = Event(fd: int, flags: Flags, broken: bool)

  // ----- the operations -----

  function Marked(dirty: seq<int>, fd: int): seq<int> {
    if fd in dirty then dirty else dirty + [fd]
  }

  function Create<A>(p: Poll<A>, fd: int): Poll<A> {
    p.(watchers := p.watchers[fd := Watcher({}, {}, [], [])])
  }

  function Destroy<A>(p: Poll<A>, fd: int): Poll<A>
    requires fd in p.watchers
  {
    Poll(p.watchers - {fd}, Without(p.dirty, fd), if p.watchers[fd].flags != {} then p.kernel - {fd} else p.kernel)
  }

  function AddAwaiter<A>(p: Poll<A>, a: A, fd: int, e: IOEvent): Poll<A>
    requires fd in p.watchers
  {
    var w := p.watchers[fd];
    var w' := w.WithAwaiters(e, w.Awaiters(e) + [a]);
    if e in w.pending then p.(watchers := p.watchers[fd := w'])
    else p.(watchers := p.watchers[fd := w'.(pending := w.pending + {e})], dirty := Marked(p.dirty, fd))
  }

  predicate Awaits<A(==)>(p: Poll<A>, a: A, fd: int) {
    fd in p.watchers && (a in p.watchers[fd].readers || a in p.watchers[fd].writers)
  }

  function RemoveAwaiter<A(==)>(p: Poll<A>, a: A, fd: int): Poll<A>
    requires Awaits(p, a, fd)
  {
    var w := p.watchers[fd];
    var e := if a in w.readers then Readability else Writability;
    var q := Without(w.Awaiters(e), a);
    if q != [] then p.(watchers := p.watchers[fd := w.WithAwaiters(e, q)])
    else p.(watchers := p.watchers[fd := w.WithAwaiters(e, q).(pending := w.pending - {e})], dirty := Marked(p.dirty, fd))
  }

  /** Also yields the awaiters let go, readers before writers. */
  function RemoveAwaiters<A>(p: Poll<A>, fd: int): (Poll<A>, seq<A>)
    requires fd in p.watchers
  {
    var w := p.watchers[fd];
    if w.pending == {} then (p, [])
    else (p.(watchers := p.watchers[fd := Watcher(w.flags, {}, [], [])], dirty := Marked(p.dirty, fd)), w.readers + w.writers)
  }

  datatype Ctl = Add | Mod | Del

  function CtlFor(flags: Flags, pending: Flags): Ctl {
    if flags == {} then Add else if pending == {} then Del else Mod
  }

  /** The kernel refuses to add a registered descriptor and to change or delete an unregistered one. */
  predicate Accepts(kernel: map<int, Flags>, fd: int, op: Ctl) {
    if op.Add? then fd !in kernel else fd in kernel
  }

  function Applied(kernel: map<int, Flags>, fd: int, op: Ctl, pending: Flags): map<int, Flags> {
    if op.Del? then kernel - {fd} else kernel[fd := pending]
  }

  function FlushOne<A>(p: Poll<A>, fd: int): Poll<A>
    requires fd in p.watchers
  {
    var w := p.watchers[fd];
    if w.flags == w.pending then p
    else Poll(p.watchers[fd := w.(flags := w.pending)], p.dirty, Applied(p.kernel, fd, CtlFor(w.flags, w.pending), w.pending))
  }

  // ----- the invariant between public calls -----

  function Other(e: IOEvent): IOEvent {
    if e.Readability? then Writability else Readability
  }

  /** Pending interest mirrors the awaiter queues, and no awaiter is queued twice. */
  ghost predicate WatcherInv<A>(w: Watcher<A>) {
    && (forall e :: e in w.pending <==> w.Awaiters(e) != [])
    && (forall e :: Distinct(w.Awaiters(e)))
    && (forall a, e :: a in w.Awaiters(e) ==> a !in w.Awaiters(Other(e)))
  }

  /** The kernel knows exactly the live watchers with interest, and knows it as the cache remembers it. */
  ghost predicate KernelMirrorsFlags<A>(p: Poll<A>) {
    && (forall fd :: fd in p.kernel ==> fd in p.watchers && p.kernel[fd] == p.watchers[fd].flags)
    && (forall fd :: fd in p.watchers ==> (p.watchers[fd].flags != {} <==> fd in p.kernel))
  }

  ghost predicate Inv<A>(p: Poll<A>) {
    && (forall fd :: fd in p.watchers ==> WatcherInv(p.watchers[fd]))
    && (forall fd :: fd in p.watchers && p.watchers[fd].flags != p.watchers[fd].pending ==> fd in p.dirty)
    && (forall fd :: fd in p.dirty ==> fd in p.watchers)
    && Distinct(p.dirty)
    && KernelMirrorsFlags(p)
  }

  lemma CreateKeepsInv<A>(p: Poll<A>, fd: int)
    requires Inv(p) && fd !in p.watchers
    ensures Inv(Create(p, fd))
  {
    assert WatcherInv(Create(p, fd).watchers[fd]);
  }

  lemma DestroyKeepsInv<A>(p: Poll<A>, fd: int)
    requires Inv(p) && fd in p.watchers
    ensures p.watchers[fd].flags != {} ==> Accepts(p.kernel, fd, Del)
    ensures Inv(Destroy(p, fd)) && fd !in Destroy(p, fd).kernel
  {
    WithoutIs(p.dirty, fd);
  }

  lemma WithAwaitersKeepsInv<A>(w: Watcher<A>, e: IOEvent, q: seq<A>, pending: Flags)
    requires WatcherInv(w) && Distinct(q) && pending == if q == [] then w.pending - {e} else w.pending + {e}
    requires forall a :: a in q ==> a !in w.Awaiters(Other(e))
    ensures WatcherInv(w.WithAwaiters(e, q).(pending := pending))
  {
    var w' := w.WithAwaiters(e, q).(pending := pending);
    forall e'
      ensures e' in w'.pending <==> w'.Awaiters(e') != []
    {
      assert e' != e ==> w'.Awaiters(e') == w.Awaiters(e');
    }
  }

  /** Replacing a watcher and listing it as dirty whenever its flags may now differ keeps the invariant. */
  lemma UpdateKeepsInv<A>(p: Poll<A>, fd: int, w: Watcher<A>, dirty: seq<int>)
    requires Inv(p) && fd in p.watchers && WatcherInv(w) && w.flags == p.watchers[fd].flags
    requires dirty == Marked(p.dirty, fd) || (dirty == p.dirty && w.pending == p.watchers[fd].pending)
    ensures Inv(p.(watchers := p.watchers[fd := w], dirty := dirty))
  {
  }

  lemma AddAwaiterKeepsInv<A>(p: Poll<A>, a: A, fd: int, e: IOEvent)
    requires Inv(p) && fd in p.watchers && !Awaits(p, a, fd)
    ensures Inv(AddAwaiter(p, a, fd, e))
  {
    var w := p.watchers[fd];
    WithAwaitersKeepsInv(w, e, w.Awaiters(e) + [a], w.pending + {e});
    UpdateKeepsInv(p, fd, AddAwaiter(p, a, fd, e).watchers[fd], AddAwaiter(p, a, fd, e).dirty);
  }

  /** Leaving a queue keeps the other awaiters in order; the watcher is marked once its queue is empty. */
  lemma RemoveAwaiterKeepsInv<A>(p: Poll<A>, a: A, fd: int)
    requires Inv(p) && Awaits(p, a, fd)
    ensures Inv(RemoveAwaiter(p, a, fd))
  {
    var w, p' := p.watchers[fd], RemoveAwaiter(p, a, fd);
    assert WatcherInv(w);
    var e := if a in w.readers then Readability else Writability;
    WithoutIs(w.Awaiters(e), a);
    var q := Without(w.Awaiters(e), a);
    WithAwaitersKeepsInv(w, e, q, if q == [] then w.pending - {e} else w.pending + {e});
    assert q != [] ==> w.pending + {e} == w.pending;
    UpdateKeepsInv(p, fd, p'.watchers[fd], p'.dirty);
  }

  lemma RemoveAwaitersKeepsInv<A>(p: Poll<A>, fd: int)
    requires Inv(p) && fd in p.watchers
    ensures var (p', out) := RemoveAwaiters(p, fd);
      Inv(p') && p'.watchers[fd].readers == p'.watchers[fd].writers == [] && out == p.watchers[fd].readers + p.watchers[fd].writers
  {
    var w := p.watchers[fd];
    assert WatcherInv(w);
    if w.pending == {} {
      assert w.Awaiters(Readability) == w.Awaiters(Writability) == [];
    } else {
      UpdateKeepsInv(p, fd, Watcher(w.flags, {}, [], []), Marked(p.dirty, fd));
    }
  }

  // ----- flushing the dirty list -----

  function FlushAll<A>(p: Poll<A>, fds: seq<int>): Poll<A>
    requires forall fd :: fd in fds ==> fd in p.watchers
    decreases |fds|
  {
    if fds == [] then p else FlushAll(FlushOne(p, fds[0]), fds[1..])
  }

  ghost predicate CtlLegal<A>(p: Poll<A>, fd: int)
    requires fd in p.watchers
  {
    var w := p.watchers[fd];
    w.flags != w.pending ==> Accepts(p.kernel, fd, CtlFor(w.flags, w.pending))
  }

  /** Every epoll_ctl call the flush makes is one the kernel accepts. */
  ghost predicate FlushLegal<A>(p: Poll<A>, fds: seq<int>)
    requires forall fd :: fd in fds ==> fd in p.watchers
    decreases |fds|
  {
    fds == [] || (CtlLegal(p, fds[0]) && FlushLegal(FlushOne(p, fds[0]), fds[1..]))
  }

  function Flush<A>(p: Poll<A>): Poll<A>
    requires forall fd :: fd in p.dirty ==> fd in p.watchers
  {
    FlushAll(p, p.dirty).(dirty := [])
  }

  lemma CtlIsLegal<A>(p: Poll<A>, fd: int)
    requires KernelMirrorsFlags(p) && fd in p.watchers
    ensures CtlLegal(p, fd) && KernelMirrorsFlags(FlushOne(p, fd)) && FlushOne(p, fd).dirty == p.dirty
  {
  }

  lemma {:induction false} FlushAllIs<A>(p: Poll<A>, fds: seq<int>)
    requires KernelMirrorsFlags(p) && forall fd :: fd in fds ==> fd in p.watchers
    ensures FlushLegal(p, fds)
    ensures var p' := FlushAll(p, fds);
      && KernelMirrorsFlags(p') && p'.watchers.Keys == p.watchers.Keys && p'.dirty == p.dirty
      && forall fd :: fd in p.watchers ==>
           p'.watchers[fd] == if fd in fds then p.watchers[fd].(flags := p.watchers[fd].pending) else p.watchers[fd]
    decreases |fds|
  {
    if fds != [] {
      FlushAllIs(FlushOne(p, fds[0]), fds[1..]);
      assert forall fd :: fd in fds <==> fd == fds[0] || fd in fds[1..];
    }
  }

  lemma FlushedWatcher<A>(w: Watcher<A>)
    requires WatcherInv(w)
    ensures WatcherInv(w.(flags := w.pending))
    ensures w.pending != {} <==> w.readers + w.writers != []
  {
    PendingIsInterest(w);
    assert forall e :: w.(flags := w.pending).Awaiters(e) == w.Awaiters(e);
  }

  /** After a flush the kernel holds exactly the current awaiters' interest, and no call was refused. */
  lemma FlushSound<A>(p: Poll<A>)
    requires Inv(p)
    ensures FlushLegal(p, p.dirty) && Inv(Flush(p)) && Flush(p).watchers.Keys == p.watchers.Keys
    ensures forall fd :: fd in p.watchers ==>
      && Flush(p).watchers[fd] == p.watchers[fd].(flags := p.watchers[fd].pending)
      && (fd in Flush(p).kernel <==> p.watchers[fd].readers + p.watchers[fd].writers != [])
      && (fd in Flush(p).kernel ==> Flush(p).kernel[fd] == Interest(p.watchers[fd].readers, p.watchers[fd].writers))
  {
    FlushAllIs(p, p.dirty);
    forall fd | fd in p.watchers
      ensures Flush(p).watchers[fd] == p.watchers[fd].(flags := p.watchers[fd].pending)
      ensures WatcherInv(Flush(p).watchers[fd])
      ensures p.watchers[fd].pending != {} <==> p.watchers[fd].readers + p.watchers[fd].writers != []
      ensures p.watchers[fd].pending == Interest(p.watchers[fd].readers, p.watchers[fd].writers)
    {
      FlushedWatcher(p.watchers[fd]);
      PendingIsInterest(p.watchers[fd]);
    }
  }

  // ----- dispatching the kernel's answer -----

  /** The first awaiter of a queue is let go. */
  function Release<A(==)>(p: Poll<A>, fd: int, e: IOEvent): (Poll<A>, seq<A>)
    requires fd in p.watchers && p.watchers[fd].Awaiters(e) != []
  {
    var a := p.watchers[fd].Awaiters(e)[0];
    (RemoveAwaiter(p, a, fd), [a])
  }

  /** Dispatching this event takes no head of an empty queue and touches no destroyed watcher. */
  predicate Dispatchable<A>(p: Poll<A>, ev: Event) {
    && ev.fd in p.watchers
    && (!ev.broken && Readability in ev.flags ==> p.watchers[ev.fd].readers != [])
    && (!ev.broken && Writability in ev.flags ==> p.watchers[ev.fd].writers != [])
  }

  function DispatchOne<A(==)>(p: Poll<A>, ev: Event): (Poll<A>, seq<A>)
    requires Dispatchable(p, ev)
  {
    if ev.broken then RemoveAwaiters(p, ev.fd)
    else
      var (p1, out1) := if Readability in ev.flags then Release(p, ev.fd, Readability) else (p, []);
      var (p2, out2) := if Writability in ev.flags then Release(p1, ev.fd, Writability) else (p1, []);
      (p2, out1 + out2)
  }

  // What an event should do to a watcher, said without naming the steps.

  function Interest<A>(readers: seq<A>, writers: seq<A>): Flags {
    (if readers != [] then {Readability} else {}) + (if writers != [] then {Writability} else {})
  }

  function Let<A>(q: seq<A>, e: IOEvent, ev: Event): nat
    requires !ev.broken && e in ev.flags ==> q != []
  {
    if ev.broken then |q| else if e in ev.flags then 1 else 0
  }

  function Served<A>(w: Watcher<A>, ev: Event): Watcher<A>
    requires !ev.broken && Readability in ev.flags ==> w.readers != []
    requires !ev.broken && Writability in ev.flags ==> w.writers != []
  {
    var readers := w.readers[Let(w.readers, Readability, ev)..];
    var writers := w.writers[Let(w.writers, Writability, ev)..];
    Watcher(w.flags, Interest(readers, writers), readers, writers)
  }

  function Released<A>(w: Watcher<A>, ev: Event): seq<A>
    requires !ev.broken && Readability in ev.flags ==> w.readers != []
    requires !ev.broken && Writability in ev.flags ==> w.writers != []
  {
    w.readers[..Let(w.readers, Readability, ev)] + w.writers[..Let(w.writers, Writability, ev)]
  }

  lemma PendingIsInterest<A>(w: Watcher<A>)
    requires WatcherInv(w)
    ensures w.pending == Interest(w.readers, w.writers)
  {
    assert w.Awaiters(Readability) == w.readers && w.Awaiters(Writability) == w.writers;
    forall e
      ensures e in w.pending <==> e in Interest(w.readers, w.writers)
    {
      assert e == Readability || e == Writability;
    }
  }

  lemma ReleaseIs<A>(p: Poll<A>, fd: int, e: IOEvent)
    requires Inv(p) && fd in p.watchers && p.watchers[fd].Awaiters(e) != []
    ensures var (p', out) := Release(p, fd, e); var w := p.watchers[fd];
      && Inv(p') && p'.kernel == p.kernel && out == w.Awaiters(e)[..1]
      && fd in p'.watchers && p'.watchers[fd].flags == w.flags
      && p'.watchers[fd].Awaiters(e) == w.Awaiters(e)[1..] && p'.watchers[fd].Awaiters(Other(e)) == w.Awaiters(Other(e))
      && p'.watchers == p.watchers[fd := p'.watchers[fd]]
  {
    var w := p.watchers[fd];
    var a := w.Awaiters(e)[0];
    assert WatcherInv(w);
    assert a in w.Awaiters(e) && a !in w.Awaiters(Other(e));
    RemoveAwaiterKeepsInv(p, a, fd);
    assert Without(w.Awaiters(e), a) == w.Awaiters(e)[1..];
  }

  lemma InvAt<A>(p: Poll<A>, fd: int)
    requires Inv(p) && fd in p.watchers
    ensures WatcherInv(p.watchers[fd]) && forall e :: Distinct(p.watchers[fd].Awaiters(e))
  {
  }

  lemma DispatchReadiness<A>(p: Poll<A>, ev: Event)
    requires Inv(p) && Dispatchable(p, ev) && !ev.broken
    ensures var (p', out) := DispatchOne(p, ev); var w := p.watchers[ev.fd];
      && Inv(p') && p'.kernel == p.kernel && out == Released(w, ev)
      && ev.fd in p'.watchers && p'.watchers == p.watchers[ev.fd := p'.watchers[ev.fd]]
      && p'.watchers[ev.fd].flags == w.flags
      && p'.watchers[ev.fd].readers == Served(w, ev).readers && p'.watchers[ev.fd].writers == Served(w, ev).writers
  {
    hide Inv, WatcherInv, Release, Interest;
    var (p1, out1) := if Readability in ev.flags then Release(p, ev.fd, Readability) else (p, []);
    if Readability in ev.flags {
      ReleaseIs(p, ev.fd, Readability);
    }
    if Writability in ev.flags {
      ReleaseIs(p1, ev.fd, Writability);
    }
  }

  /** One event lets go the first reader and the first writer as reported, or everyone on ERR or HUP. */
  lemma DispatchOneIs<A>(p: Poll<A>, ev: Event)
    requires Inv(p) && Dispatchable(p, ev)
    ensures var (p', out) := DispatchOne(p, ev);
      && Inv(p') && p'.kernel == p.kernel && out == Released(p.watchers[ev.fd], ev)
      && p'.watchers == p.watchers[ev.fd := Served(p.watchers[ev.fd], ev)]
  {
    hide Inv, WatcherInv, Release, Interest;
    var w, p' := p.watchers[ev.fd], DispatchOne(p, ev).0;
    if ev.broken {
      RemoveAwaitersKeepsInv(p, ev.fd);
      assert w.readers[|w.readers|..] == w.writers[|w.writers|..] == [];
      assert w.readers[..|w.readers|] == w.readers && w.writers[..|w.writers|] == w.writers;
    } else {
      DispatchReadiness(p, ev);
    }
    InvAt(p', ev.fd);
    PendingIsInterest(p'.watchers[ev.fd]);
    assert p'.watchers[ev.fd] == Served(w, ev);
  }

  ghost predicate DistinctFds(events: seq<Event>) {
    forall i, j :: 0 <= i < j < |events| ==> events[i].fd != events[j].fd
  }

  ghost function Fds(events: seq<Event>): set<int> {
    set ev | ev in events :: ev.fd
  }

  /** What epoll_wait may report: distinct registered descriptors, with events among those asked for. */
  ghost predicate Answer(kernel: map<int, Flags>, events: seq<Event>) {
    DistinctFds(events) && forall ev :: ev in events ==> ev.fd in kernel && ev.flags <= kernel[ev.fd]
  }

  ghost predicate Ready<A>(p: Poll<A>, events: seq<Event>) {
    Inv(p) && DistinctFds(events) && forall ev :: ev in events ==> Dispatchable(p, ev)
  }

  /** A legal answer to a flushed cache names only live watchers with the awaiters it releases. */
  lemma AnswerIsReady<A>(p: Poll<A>, events: seq<Event>)
    requires Inv(p) && p.dirty == [] && Answer(p.kernel, events)
    ensures Ready(p, events)
  {
    forall ev | ev in events
      ensures Dispatchable(p, ev)
    {
      PendingIsInterest(p.watchers[ev.fd]);
    }
  }

  lemma HeadFd(events: seq<Event>)
    requires DistinctFds(events) && events != []
    ensures DistinctFds(events[1..]) && events[0].fd !in Fds(events[1..]) && Fds(events) == {events[0].fd} + Fds(events[1..])
  {
    assert events == [events[0]] + events[1..];
  }

  lemma DispatchKeepsReady<A>(p: Poll<A>, events: seq<Event>)
    requires Ready(p, events) && events != []
    ensures Ready(DispatchOne(p, events[0]).0, events[1..])
  {
    DispatchOneIs(p, events[0]);
    HeadFd(events);
    forall ev | ev in events[1..]
      ensures Dispatchable(DispatchOne(p, events[0]).0, ev)
    {
      assert Dispatchable(p, ev) && ev.fd in Fds(events[1..]);
    }
  }

  ghost function DispatchAll<A>(p: Poll<A>, events: seq<Event>): (Poll<A>, seq<A>)
    requires Ready(p, events)
    decreases |events|
  {
    if events == [] then (p, [])
    else
      var (p1, out1) := DispatchOne(p, events[0]);
      DispatchKeepsReady(p, events);
      var (p2, out2) := DispatchAll(p1, events[1..]);
      (p2, out1 + out2)
  }

  /** The awaiters a whole answer releases, read off the watchers as they were before dispatch. */
  ghost function ReleasedBy<A>(p: Poll<A>, events: seq<Event>): seq<A>
    requires forall ev :: ev in events ==> Dispatchable(p, ev)
    decreases |events|
  {
    if events == [] then [] else ReleasedAt(p, events[0]) + ReleasedBy(p, events[1..])
  }

  ghost function ReleasedAt<A>(p: Poll<A>, ev: Event): seq<A>
    requires Dispatchable(p, ev)
  {
    Released(p.watchers[ev.fd], ev)
  }

  lemma {:induction false} ReleasedByFrame<A>(p: Poll<A>, p': Poll<A>, events: seq<Event>)
    requires forall ev :: ev in events ==> Dispatchable(p, ev) && Dispatchable(p', ev) && ReleasedAt(p, ev) == ReleasedAt(p', ev)
    ensures ReleasedBy(p, events) == ReleasedBy(p', events)
    decreases |events|
  {
    if events != [] {
      ReleasedByFrame(p, p', events[1..]);
    }
  }

  ghost predicate ServedAt<A>(p: Poll<A>, p': Poll<A>, ev: Event) {
    Dispatchable(p, ev) && ev.fd in p'.watchers && p'.watchers[ev.fd] == Served(p.watchers[ev.fd], ev)
  }

  /** Dispatch serves each reported watcher once, leaves the others alone, and outputs the released awaiters
      event by event. */
  lemma {:induction false} DispatchAllIs<A>(p: Poll<A>, events: seq<Event>)
    requires Ready(p, events)
    ensures var (p', out) := DispatchAll(p, events);
      && Inv(p') && p'.kernel == p.kernel && p'.watchers.Keys == p.watchers.Keys && out == ReleasedBy(p, events)
      && (forall ev :: ev in events ==> ServedAt(p, p', ev))
      && (forall fd :: fd in p.watchers && fd !in Fds(events) ==> p'.watchers[fd] == p.watchers[fd])
    decreases |events|
  {
    if events != [] {
      var p1, rest := DispatchOne(p, events[0]).0, events[1..];
      DispatchOneIs(p, events[0]);
      DispatchKeepsReady(p, events);
      HeadFd(events);
      DispatchAllIs(p1, rest);
      forall ev | ev in rest
        ensures ev.fd in Fds(rest) && p1.watchers[ev.fd] == p.watchers[ev.fd]
      {
      }
      ReleasedByFrame(p, p1, rest);
      var p' := DispatchAll(p1, rest).0;
      forall ev | ev in events
        ensures ServedAt(p, p', ev)
      {
        assert ev == events[0] || ev in rest;
        assert ev in rest ==> ServedAt(p1, p', ev);
      }
    }
  }

  /** No awaiter is lost or duplicated: each queue is what was released from its front, then what is left. */
  lemma Conserved<A>(w: Watcher<A>, ev: Event)
    requires !ev.broken && Readability in ev.flags ==> w.readers != []
    requires !ev.broken && Writability in ev.flags ==> w.writers != []
    ensures var r, w' := |w.readers| - |Served(w, ev).readers|, Served(w, ev);
      && w.readers == Released(w, ev)[..r] + w'.readers
      && w.writers == Released(w, ev)[r..] + w'.writers
    ensures ev.broken ==> Served(w, ev).readers == Served(w, ev).writers == [] && Released(w, ev) == w.readers + w.writers
  {
  }

  /** An awaiter that leaves before the next flush costs no system call: its watcher is as it was. */
  lemma AddThenRemove<A>(p: Poll<A>, a: A, fd: int, e: IOEvent)
    requires Inv(p) && fd in p.watchers && !Awaits(p, a, fd)
    ensures Awaits(AddAwaiter(p, a, fd, e), a, fd)
    ensures RemoveAwaiter(AddAwaiter(p, a, fd, e), a, fd).watchers == p.watchers
    ensures RemoveAwaiter(AddAwaiter(p, a, fd, e), a, fd).kernel == p.kernel
  {
    hide Without, Distinct, Inv, WatcherInv;
    var w, p1 := p.watchers[fd], AddAwaiter(p, a, fd, e);
    AddAwaiterKeepsInv(p, a, fd, e);
    InvAt(p, fd);
    InvAt(p1, fd);
    assert p1.watchers[fd].Awaiters(e) == w.Awaiters(e) + [a];
    WithoutLast(w.Awaiters(e), a);
    var w2 := RemoveAwaiter(p1, a, fd).watchers[fd];
    assert w2.readers == w.readers && w2.writers == w.writers && w2.flags == w.flags;
    PendingIsInterest(w);
    PendingIsInterest(p1.watchers[fd]);
  }

  // ----- a whole wait -----

  /** A legal outcome of epoll_wait on a flushed cache: interrupted, or a legal list of events. */
  ghost predicate LegalOutcome<A>(p: Poll<A>, outcome: Option<seq<Event>>)
    requires forall fd :: fd in p.dirty ==> fd in p.watchers
  {
    outcome.Some? ==> Answer(Flush(p).kernel, outcome.value)
  }

  lemma OutcomeIsReady<A>(p: Poll<A>, events: seq<Event>)
    requires Inv(p) && Answer(Flush(p).kernel, events)
    ensures Inv(Flush(p)) && Ready(Flush(p), events)
  {
    FlushSound(p);
    AnswerIsReady(Flush(p), events);
  }

  /** The cache and the released awaiters after a wait; an interrupted one only flushes. */
  ghost function Waited<A>(p: Poll<A>, outcome: Option<seq<Event>>): (Poll<A>, seq<A>)
    requires Inv(p) && LegalOutcome(p, outcome)
  {
    if outcome.None? then (Flush(p), [])
    else
      OutcomeIsReady(p, outcome.value);
      DispatchAll(Flush(p), outcome.value)
  }

  /** After any outcome the kernel holds exactly the interest of the awaiters as they were before the wait.  An
      interrupted wait has only written that back; otherwise each reported watcher has been served and no other. */
  lemma WaitedIs<A>(p: Poll<A>, outcome: Option<seq<Event>>)
    requires Inv(p) && LegalOutcome(p, outcome)
    ensures Inv(Waited(p, outcome).0) && Waited(p, outcome).0.watchers.Keys == p.watchers.Keys
    ensures forall fd :: fd in p.watchers ==>
      var w, kernel := p.watchers[fd], Waited(p, outcome).0.kernel;
      && (fd in kernel <==> w.readers + w.writers != [])
      && (fd in kernel ==> kernel[fd] == Interest(w.readers, w.writers))
    ensures outcome.None? ==> Waited(p, outcome).1 == [] && Waited(p, outcome).0.dirty == []
    ensures forall fd :: fd in p.watchers && (outcome.Some? ==> fd !in Fds(outcome.value)) ==>
      Waited(p, outcome).0.watchers[fd] == p.watchers[fd].(flags := p.watchers[fd].pending)
    ensures outcome.Some? ==>
      && (forall ev :: ev in outcome.value ==> ServedAfter(p, Waited(p, outcome).0, ev))
      && Waited(p, outcome).1 == LetGoAll(p, outcome.value)
  {
    hide Inv, Flush, DispatchAll, Interest, ServedAfter, LetGoAll, ReleasedBy;
    InvDirty(p);
    FlushSound(p);
    FlushedDirty(p);
    if outcome.Some? {
      OutcomeIsReady(p, outcome.value);
      DispatchAllIs(Flush(p), outcome.value);
      LetGoIs(p, Flush(p), outcome.value);
      forall ev | ev in outcome.value
        ensures ServedAfter(p, Waited(p, outcome).0, ev)
      {
        ServedIs(p, Flush(p), Waited(p, outcome).0, ev);
      }
    }
  }

  /** The watcher that an event names holds what serving that event leaves of its queues before the wait. */
  ghost predicate ServedAfter<A>(p: Poll<A>, p': Poll<A>, ev: Event) {
    && ev.fd in p.watchers && ev.fd in p'.watchers
    && var w, w' := p.watchers[ev.fd], p'.watchers[ev.fd];
       && w'.readers == w.readers[LetGo(w.readers, Readability, ev)..]
       && w'.writers == w.writers[LetGo(w.writers, Writability, ev)..]
  }

  /** How many awaiters of one kind an event lets go: all when broken, one when their event is reported. */
  function LetGo<A>(q: seq<A>, e: IOEvent, ev: Event): (n: nat)
    ensures n <= |q|
  {
    if ev.broken then |q| else if e in ev.flags && q != [] then 1 else 0
  }

  /** The awaiters let go by a list of events, in the order of the events, readers before writers. */
  function LetGoAll<A>(p: Poll<A>, events: seq<Event>): seq<A> {
    if events == [] then [] else
      (if events[0].fd in p.watchers then
         var w := p.watchers[events[0].fd];
         w.readers[..LetGo(w.readers, Readability, events[0])] + w.writers[..LetGo(w.writers, Writability, events[0])]
       else [])
      + LetGoAll(p, events[1..])
  }

  ghost predicate SameQueues<A>(p: Poll<A>, p': Poll<A>) {
    && p.watchers.Keys == p'.watchers.Keys
    && forall fd :: fd in p.watchers ==>
        p.watchers[fd].readers == p'.watchers[fd].readers && p.watchers[fd].writers == p'.watchers[fd].writers
  }

  lemma {:induction false} LetGoIs<A>(p: Poll<A>, flushed: Poll<A>, events: seq<Event>)
    requires SameQueues(p, flushed) && forall ev :: ev in events ==> Dispatchable(flushed, ev)
    ensures ReleasedBy(flushed, events) == LetGoAll(p, events)
    decreases |events|
  {
    if events != [] {
      LetGoIs(p, flushed, events[1..]);
      assert events[0] in events;
    }
  }

  lemma ServedIs<A>(p: Poll<A>, flushed: Poll<A>, p': Poll<A>, ev: Event)
    requires SameQueues(p, flushed) && ServedAt(flushed, p', ev)
    ensures ServedAfter(p, p', ev)
  {
  }

  lemma InvDirty<A>(p: Poll<A>)
    requires Inv(p)
    ensures forall fd :: fd in p.dirty ==> fd in p.watchers
  {
  }

  lemma FlushedDirty<A>(p: Poll<A>)
    requires forall fd :: fd in p.dirty ==> fd in p.watchers
    ensures Flush(p).dirty == []
  {
  }

  // ----- which watchers the next flush looks at -----

  /** Only the first awaiter of an event and the last one to leave give the flush something to do, once. */
  lemma DirtyOnChange<A>(p: Poll<A>, a: A, fd: int, e: IOEvent)
    requires Inv(p) && fd in p.watchers
    ensures !Awaits(p, a, fd) ==>
      AddAwaiter(p, a, fd, e).dirty == p.dirty + if p.watchers[fd].Awaiters(e) == [] && fd !in p.dirty then [fd] else []
    ensures a in p.watchers[fd].Awaiters(e) ==>
      RemoveAwaiter(p, a, fd).dirty == p.dirty + if p.watchers[fd].Awaiters(e) == [a] && fd !in p.dirty then [fd] else []
  {
    assert WatcherInv(p.watchers[fd]);
    var q := p.watchers[fd].Awaiters(e);
    if a in q {
      WithoutIs(q, a);
      assert a !in p.watchers[fd].Awaiters(Other(e));
      assert |q| == 1 ==> q == [q[0]] && q[0] == a;
      assert Without(q, a) == [] <==> q == [a];
    }
  }
}

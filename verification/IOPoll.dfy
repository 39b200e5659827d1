/** IOPoll.cxx: watchers cached in front of epoll, with a lazily flushed list of dirty ones. */
module IOPolling {
  import opened PollSpec
  import opened Sequences

  class IOWatcher<A> {
    const fd: int
    var eventFlags: Flags
    var pendingEventFlags: Flags
    var readers: seq<A>
    var writers: seq<A>

    constructor (fd: int)
      ensures this.fd == fd && Value() == Watcher({}, {}, [], [])
    {
      this.fd := fd;
      eventFlags, pendingEventFlags, readers, writers := {}, {}, [], [];
    }

    ghost function Value(): Watcher<A>
      reads this
    {
      Watcher(eventFlags, pendingEventFlags, readers, writers)
    }
  }

  /** The kernel's side of a registration: the events asked for and the watcher given as epoll_event.data. */
  datatype Registration<A> = Registration(flags: Flags, data: IOWatcher<A>)

  class IOPoll<A(==)> {
    var watchers: map<int, IOWatcher<A>>
    var dirtyWatcherQueue: seq<IOWatcher<A>>
    var kernel: map<int, Registration<A>>
    ghost var view: Poll<A>

    /** The objects hold exactly what `view` says, and every pointer leads to a live watcher. */
    ghost predicate Mirrors()
      reads this, watchers.Values
    {
      && watchers.Keys == view.watchers.Keys
      && (forall fd :: fd in watchers ==> watchers[fd].fd == fd && watchers[fd].Value() == view.watchers[fd])
      && |dirtyWatcherQueue| == |view.dirty|
      && (forall i :: 0 <= i < |view.dirty| ==> view.dirty[i] in watchers && dirtyWatcherQueue[i] == watchers[view.dirty[i]])
      && kernel.Keys == view.kernel.Keys
      && (forall fd :: fd in kernel ==> fd in watchers && kernel[fd] == Registration(view.kernel[fd], watchers[fd]))
    }

    ghost predicate Valid()
      reads this, watchers.Values
    {
      Mirrors() && Inv(view)
    }

    constructor ()
      ensures Valid() && view == Poll(map[], [], map[]) && watchers == map[]
    {
      watchers, dirtyWatcherQueue, kernel := map[], [], map[];
      view := Poll(map[], [], map[]);
    }

    method CreateWatcher(fd: int)
      requires Valid() && fd >= 0 && fd !in view.watchers
      modifies this
      ensures Valid() && view == Create(old(view), fd)
      ensures fresh(watchers.Values - old(watchers.Values))
    {
      CreateKeepsInv(view, fd);
      var watcher := new IOWatcher<A>(fd);
      watchers := watchers[fd := watcher];
      view := Create(view, fd);
    }

    /** epoll_ctl, which the kernel accepts only on descriptors registered or not as the operation needs. */
    method EpollCtl(op: Ctl, watcher: IOWatcher<A>, events: Flags)
      requires op.Add? ==> watcher.fd !in kernel
      requires !op.Add? ==> watcher.fd in kernel
      modifies this`kernel
      ensures kernel == if op.Del? then old(kernel) - {watcher.fd} else old(kernel)[watcher.fd := Registration(events, watcher)]
    {
      if op.Del? {
        kernel := kernel - {watcher.fd};
      } else {
        kernel := kernel[watcher.fd := Registration(events, watcher)];
      }
    }

    method UnlinkDirty(watcher: IOWatcher<A>)
      requires Valid() && watcher.fd in watchers && watcher == watchers[watcher.fd]
      modifies this`dirtyWatcherQueue
      ensures var fds := Without(view.dirty, watcher.fd);
        && |dirtyWatcherQueue| == |fds|
        && forall i :: 0 <= i < |fds| ==> fds[i] in watchers - {watcher.fd} && dirtyWatcherQueue[i] == watchers[fds[i]]
    {
      hide Inv, Without, Distinct;
      QueuedWatchers(watcher.fd);
      WithoutMirrors(view.dirty, dirtyWatcherQueue, watchers, watcher.fd);
      if watcher in dirtyWatcherQueue {
        dirtyWatcherQueue := Without(dirtyWatcherQueue, watcher);
      }
    }

    method DestroyWatcher(fd: int)
      requires Valid() && fd in view.watchers
      modifies this
      ensures Valid() && view == Destroy(old(view), fd) && watchers == old(watchers) - {fd}
    {
      hide Inv, Without, Distinct;
      DestroyKeepsInv(view, fd);
      var watcher := watchers[fd];
      QueuedWatchers(fd);
      UnlinkDirty(watcher);
      watchers := watchers - {fd};
      if watcher.eventFlags != {} {
        EpollCtl(Del, watcher, {});
      }
      view := Destroy(view, fd);
    }

    lemma QueuedWatchers(fd: int)
      requires Valid() && fd in watchers
      ensures watchers[fd] in dirtyWatcherQueue <==> fd in view.dirty
      ensures watchers[fd].eventFlags != {} <==> fd in kernel
      ensures Distinct(view.dirty)
    {
      QueuedIff(view.dirty, dirtyWatcherQueue, watchers, fd);
    }

    /** A watcher's queue item is linked into the dirty ring exactly when its descriptor is listed. */
    static lemma QueuedIff(fds: seq<int>, ws: seq<IOWatcher<A>>, live: map<int, IOWatcher<A>>, fd: int)
      requires |fds| == |ws| && fd in live
      requires forall i :: 0 <= i < |fds| ==> fds[i] in live && ws[i] == live[fds[i]]
      requires forall f :: f in live ==> live[f].fd == f
      ensures live[fd] in ws <==> fd in fds
    {
      if live[fd] in ws {
        var k :| 0 <= k < |ws| && ws[k] == live[fd];
        assert fds[k] == live[fds[k]].fd == fd;
      }
      if fd in fds {
        var k :| 0 <= k < |fds| && fds[k] == fd;
        assert ws[k] == live[fd];
      }
    }

    static lemma {:induction false} WithoutMirrors(fds: seq<int>, ws: seq<IOWatcher<A>>, live: map<int, IOWatcher<A>>, fd: int)
      requires |fds| == |ws| && fd in live && Distinct(fds)
      requires forall i :: 0 <= i < |fds| ==> fds[i] in live && ws[i] == live[fds[i]]
      requires forall f :: f in live ==> live[f].fd == f
      ensures var fds', ws' := Without(fds, fd), Without(ws, live[fd]);
        && |fds'| == |ws'|
        && forall i :: 0 <= i < |fds'| ==> fds'[i] in live - {fd} && ws'[i] == live[fds'[i]]
      ensures live[fd] !in ws ==> Without(ws, live[fd]) == ws
    {
      WithoutIs(fds, fd);
      if fds != [] {
        assert ws[0].fd == fds[0];
        assert forall i, j :: 0 <= i < j < |fds[1..]| ==> fds[1..][i] == fds[i + 1] && fds[1..][j] == fds[j + 1];
        WithoutMirrors(fds[1..], ws[1..], live, fd);
      }
    }

    /** Inserts a watcher at the tail of the dirty list unless its queue item is already linked. */
    method MarkDirty(watcher: IOWatcher<A>)
      requires Mirrors() && watcher.fd in watchers && watchers[watcher.fd] == watcher
      modifies this`dirtyWatcherQueue, this`view
      ensures Mirrors() && view == old(view).(dirty := Marked(old(view).dirty, watcher.fd))
    {
      QueuedIff(view.dirty, dirtyWatcherQueue, watchers, watcher.fd);
      if watcher !in dirtyWatcherQueue {
        dirtyWatcherQueue := dirtyWatcherQueue + [watcher];
        view := view.(dirty := view.dirty + [watcher.fd]);
      }
    }

    method AddEventAwaiter(a: A, fd: int, event: IOEvent)
      requires Valid() && fd in view.watchers && !Awaits(view, a, fd)
      modifies this`dirtyWatcherQueue, this`view, watchers.Values
      ensures Valid() && view == AddAwaiter(old(view), a, fd, event)
    {
      hide Inv;
      AddAwaiterKeepsInv(view, a, fd, event);
      var watcher := watchers[fd];
      if event.Readability? {
        watcher.readers := watcher.readers + [a];
      } else {
        watcher.writers := watcher.writers + [a];
      }
      if event !in watcher.pendingEventFlags {
        watcher.pendingEventFlags := watcher.pendingEventFlags + {event};
        view := view.(watchers := view.watchers[fd := watcher.Value()]);
        MarkDirty(watcher);
      } else {
        view := view.(watchers := view.watchers[fd := watcher.Value()]);
      }
    }

    method RemoveEventAwaiter(a: A, fd: int)
      requires Valid() && Awaits(view, a, fd)
      modifies this`dirtyWatcherQueue, this`view, watchers.Values
      ensures Valid() && view == RemoveAwaiter(old(view), a, fd)
    {
      hide Inv;
      RemoveAwaiterKeepsInv(view, a, fd);
      var watcher := watchers[fd];
      var event := Readability;
      if a in watcher.readers {
        watcher.readers := Without(watcher.readers, a);
      } else {
        event := Writability;
        watcher.writers := Without(watcher.writers, a);
      }
      if (if event.Readability? then watcher.readers else watcher.writers) == [] {
        watcher.pendingEventFlags := watcher.pendingEventFlags - {event};
        view := view.(watchers := view.watchers[fd := watcher.Value()]);
        MarkDirty(watcher);
      } else {
        view := view.(watchers := view.watchers[fd := watcher.Value()]);
      }
    }

    /** QUEUE_ADD for each non-empty awaiter ring, then QUEUE_INIT. */
    method TakeAll(watcher: IOWatcher<A>, queue: seq<A>) returns (queue': seq<A>)
      modifies watcher
      ensures queue' == queue + (old(watcher.readers) + old(watcher.writers))
      ensures watcher.Value() == Watcher(old(watcher.eventFlags), old(watcher.pendingEventFlags), [], [])
    {
      queue' := queue;
      if watcher.readers != [] {
        queue' := queue' + watcher.readers;
        watcher.readers := [];
      }
      if watcher.writers != [] {
        queue' := queue' + watcher.writers;
        watcher.writers := [];
      }
      assert queue' == queue + (old(watcher.readers) + old(watcher.writers));
    }

    /** Moves every awaiter of a descriptor, readers first, to the end of the caller's queue. */
    method RemoveEventAwaiters(fd: int, queue: seq<A>) returns (queue': seq<A>)
      requires Valid() && fd in view.watchers
      modifies this`dirtyWatcherQueue, this`view, watchers.Values
      ensures Valid() && (view, queue') == (RemoveAwaiters(old(view), fd).0, queue + RemoveAwaiters(old(view), fd).1)
    {
      hide Inv;
      RemoveAwaitersKeepsInv(view, fd);
      var watcher := watchers[fd];
      queue' := queue;
      if watcher.pendingEventFlags == {} {
        assert queue + [] == queue;
        return;
      }
      queue' := TakeAll(watcher, queue);
      watcher.pendingEventFlags := {};
      view := view.(watchers := view.watchers[fd := watcher.Value()]);
      MarkDirty(watcher);
    }

    ghost predicate Flushing()
      reads this, watchers.Values
    {
      Mirrors() && KernelMirrorsFlags(view)
    }

    /** Brings the kernel's interest in one watcher up to date; the kernel accepts the call. */
    method FlushWatcher(watcher: IOWatcher<A>)
      requires Flushing() && watcher.fd in watchers && watcher == watchers[watcher.fd]
      modifies this`kernel, this`view, watcher
      ensures Flushing() && view == FlushOne(old(view), watcher.fd) && view.dirty == old(view).dirty
    {
      CtlIsLegal(view, watcher.fd);
      hide KernelMirrorsFlags;
      if watcher.eventFlags == watcher.pendingEventFlags {
        return;
      }
      var op;
      if watcher.eventFlags == {} {
        op := Add;
      } else {
        if watcher.pendingEventFlags == {} {
          op := Del;
        } else {
          op := Mod;
        }
      }
      EpollCtl(op, watcher, watcher.pendingEventFlags);
      watcher.eventFlags := watcher.pendingEventFlags;
      view := FlushOne(view, watcher.fd);
    }

    lemma ReadyToFlush()
      requires Valid()
      ensures Flushing() && |dirtyWatcherQueue| == |view.dirty| && forall fd :: fd in view.dirty ==> fd in view.watchers
    {
    }

    lemma DirtyAt(i: nat)
      requires Flushing() && i < |dirtyWatcherQueue|
      ensures |dirtyWatcherQueue| == |view.dirty|
      ensures var w := dirtyWatcherQueue[i]; w.fd == view.dirty[i] && w.fd in watchers && w == watchers[w.fd]
    {
    }

    method FlushLoop()
      requires Flushing() && |dirtyWatcherQueue| == |view.dirty| && forall fd :: fd in view.dirty ==> fd in view.watchers
      modifies this`kernel, this`view, watchers.Values
      ensures Flushing() && view == FlushAll(old(view), old(view).dirty) && view.dirty == old(view).dirty
    {
      hide *;
      ghost var start := view;
      assert start.dirty[0..] == start.dirty;
      var i := 0;
      while i < |dirtyWatcherQueue|
        invariant Flushing() && i <= |dirtyWatcherQueue| == |start.dirty| && view.dirty == start.dirty
        invariant view.watchers.Keys == start.watchers.Keys
        invariant FlushAll(view, start.dirty[i..]) == FlushAll(start, start.dirty)
      {
        DirtyAt(i);
        FlushStep(view, start.dirty, i);
        FlushWatcher(dirtyWatcherQueue[i]);
        i := i + 1;
      }
      FlushDone(view, start.dirty, i);
    }

    static lemma FlushStep(p: Poll<A>, fds: seq<int>, i: nat)
      requires i < |fds| && forall fd :: fd in fds[i..] ==> fd in p.watchers
      ensures FlushAll(p, fds[i..]) == FlushAll(FlushOne(p, fds[i]), fds[i + 1..])
      ensures FlushOne(p, fds[i]).watchers.Keys == p.watchers.Keys
    {
      assert fds[i..][1..] == fds[i + 1..] && fds[i] in fds[i..];
    }

    static lemma FlushDone(p: Poll<A>, fds: seq<int>, i: nat)
      requires i == |fds|
      ensures fds[i..] == [] && FlushAll(p, fds[i..]) == p
    {
    }

    /** The flush over the dirty ring, whose links are all reset by the end. */
    method FlushDirty()
      requires Valid()
      modifies this`kernel, this`view, this`dirtyWatcherQueue, watchers.Values
      ensures Valid() && view == Flush(old(view))
    {
      hide Inv, Mirrors, KernelMirrorsFlags, FlushAll, FlushLegal;
      FlushSound(view);
      ReadyToFlush();
      if dirtyWatcherQueue != [] {
        FlushLoop();
        ClearDirty();
      } else {
        FlushDone(view, view.dirty, 0);
      }
    }

    method ClearDirty()
      requires Flushing()
      modifies this`view, this`dirtyWatcherQueue
      ensures Mirrors() && view == old(view).(dirty := [])
    {
      dirtyWatcherQueue := [];
      view := view.(dirty := []);
    }

    /** Lets the head of one awaiter queue go to the caller's queue. */
    method ReleaseHead(watcher: IOWatcher<A>, event: IOEvent, queue: seq<A>) returns (queue': seq<A>)
      requires Valid() && watcher.fd in watchers && watcher == watchers[watcher.fd]
      requires view.watchers[watcher.fd].Awaiters(event) != []
      modifies this`dirtyWatcherQueue, this`view, watchers.Values
      ensures Valid() && (view, queue') == (Release(old(view), watcher.fd, event).0, queue + Release(old(view), watcher.fd, event).1)
    {
      hide Inv;
      assert watcher.Value() == view.watchers[watcher.fd];
      var a := if event.Readability? then watcher.readers[0] else watcher.writers[0];
      RemoveEventAwaiter(a, watcher.fd);
      queue' := queue + [a];
    }

    method DispatchEvent(ev: Event, queue: seq<A>) returns (queue': seq<A>)
      requires Valid() && ev.fd in kernel && Dispatchable(view, ev)
      modifies this`dirtyWatcherQueue, this`view, watchers.Values
      ensures Valid() && (view, queue') == (DispatchOne(old(view), ev).0, queue + DispatchOne(old(view), ev).1)
    {
      hide Inv;
      DispatchOneIs(view, ev);
      var watcher := kernel[ev.fd].data;
      if ev.broken {
        queue' := RemoveEventAwaiters(watcher.fd, queue);
        return;
      }
      queue' := queue;
      if Readability in ev.flags {
        queue' := ReleaseHead(watcher, Readability, queue');
      }
      if Writability in ev.flags {
        queue' := ReleaseHead(watcher, Writability, queue');
      }
      assert queue' == queue + DispatchOne(old(view), ev).1;
    }

    method DispatchLoop(events: seq<Event>, queue: seq<A>) returns (queue': seq<A>)
      requires Valid() && Ready(view, events) && Fds(events) <= kernel.Keys
      modifies this`dirtyWatcherQueue, this`view, watchers.Values
      ensures Valid() && (view, queue') == (DispatchAll(old(view), events).0, queue + DispatchAll(old(view), events).1)
    {
      hide *;
      queue' := queue;
      ghost var start := view;
      assert events[0..] == events;
      var i := 0;
      while i < |events|
        invariant Valid() && i <= |events| && Ready(view, events[i..]) && kernel == old(kernel)
        invariant DispatchAll(start, events).0 == DispatchAll(view, events[i..]).0
        invariant queue + DispatchAll(start, events).1 == queue' + DispatchAll(view, events[i..]).1
      {
        DispatchStep(view, events, i);
        ghost var p1, out1 := DispatchOne(view, events[i]).0, DispatchOne(view, events[i]).1;
        assert queue' + (out1 + DispatchAll(p1, events[i + 1..]).1) == queue' + out1 + DispatchAll(p1, events[i + 1..]).1;
        queue' := DispatchEvent(events[i], queue');
        i := i + 1;
      }
      DispatchDone(view, events[i..]);
      assert queue' + [] == queue';
    }

    static lemma DispatchDone(p: Poll<A>, events: seq<Event>)
      ensures events == [] && Ready(p, events) ==> DispatchAll(p, events) == (p, [])
    {
    }

    static lemma DispatchStep(p: Poll<A>, events: seq<Event>, i: nat)
      requires i < |events| && Ready(p, events[i..])
      ensures Dispatchable(p, events[i]) && events[i].fd in Fds(events)
      ensures var (p1, out1) := DispatchOne(p, events[i]);
        && Ready(p1, events[i + 1..])
        && DispatchAll(p, events[i..]) == (DispatchAll(p1, events[i + 1..]).0, out1 + DispatchAll(p1, events[i + 1..]).1)
    {
      assert events[i..][0] == events[i] && events[i..][1..] == events[i + 1..];
      DispatchKeepsReady(p, events[i..]);
    }

    /** Flushes, waits and dispatches; false, with nobody released, when the wait was interrupted. */
    method WaitForEvents(outcome: Option<seq<Event>>, queue: seq<A>) returns (ok: bool, queue': seq<A>)
      requires Valid() && LegalOutcome(view, outcome)
      modifies this`kernel, this`view, this`dirtyWatcherQueue, watchers.Values
      ensures Valid() && (view, queue') == (Waited(old(view), outcome).0, queue + Waited(old(view), outcome).1)
      ensures ok <==> outcome.Some?
    {
      FlushDirty();
      if outcome.None? {
        assert queue + [] == queue;
        return false, queue;
      }
      OutcomeIsReady(old(view), outcome.value);
      queue' := DispatchLoop(outcome.value, queue);
      ok := true;
    }
  }
}
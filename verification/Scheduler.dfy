/** Scheduler.cxx: the scheduler's own queues and records on top of the timer and the interest cache. */
module Scheduling {
  import opened Sequences
  import opened PollSpec
  import opened PollPlaces
  import opened SchedulerSpec
  import opened FiberModes
  import T = TimerSpec
  import FiberTimers
  import opened FiberRuns
  import IOPolling
  import HeapPath

  class Scheduler {
    /** Where control is, which the source keeps in its jump buffers. */
    ghost var phase: Phase
    var fibers: map<Fid, Fiber>
    var fiberCount: nat
    var readyFiberQueue: seq<Fid>
    var deadFiberQueue: seq<Fid>
    var runningFiber: Option<Fid>
    const ioPoll: IOPolling.IOPoll<Fid>
    const timer: FiberTimers.FiberTimers
    ghost var modes: Modes

    ghost function View(): Sched
      reads this, ioPoll, timer
    {
      Sched(phase, fibers, fiberCount, readyFiberQueue, deadFiberQueue, runningFiber, ioPoll.view, timer.due)
    }

    /** The parts are sound on their own, and every fiber has its timer item. */
    ghost predicate Parts()
      reads this, ioPoll, ioPoll.watchers.Values, timer, timer.timer, timer.timer.heap, timer.timer.heap.pos.Keys
    {
      ioPoll.Valid() && timer.Valid() && timer.timerItem.Keys == fibers.Keys
    }

    ghost predicate Valid()
      reads this, ioPoll, ioPoll.watchers.Values, timer, timer.timer, timer.timer.heap, timer.timer.heap.pos.Keys
    {
      Parts() && Shows(View(), modes) && fiberCount < HeapPath.UINT_RANGE
    }

    constructor ()
      ensures Valid() && View() == Initial() && modes == map[]
    {
      phase, fibers, fiberCount, readyFiberQueue, deadFiberQueue, runningFiber := Outside, map[], 0, [], [], None;
      modes := map[];
      ioPoll := new IOPolling.IOPoll<Fid>();
      timer := new FiberTimers.FiberTimers();
      new;
      InitialShows();
    }

    static lemma InitialShows()
      ensures Shows(Initial(), map[])
    {
      assert PlacesOf(map[]) == map[];
    }

    // ----- single steps, each of which keeps the parts sound -----

    /** What the running fiber's call leaves in its record before the switch. */
    method SaveContext(record: Fiber) returns (f: Fid)
      requires Parts() && Active(View())
      modifies this`fibers
      ensures Parts() && f == View().running.value && View() == Saved(old(View()), record)
    {
      hide FiberTimers.FiberTimers.Valid, IOPolling.IOPoll.Valid;
      f := runningFiber.value;
      fibers := fibers[f := record];
      assert fibers.Keys == old(fibers.Keys);
    }

    /** The context saved where the running fiber will return with status 1. */
    function Context(): (record: Fiber)
      requires Active(View())
      reads this, ioPoll, timer
      ensures record == Parked(View())
    {
      Fiber(true, 1, fibers[runningFiber.value].fd)
    }

    predicate NoneReady()
      reads this, ioPoll, timer
      ensures NoneReady() <==> View().ready == []
    {
      readyFiberQueue == []
    }

    method PushReady(fs: seq<Fid>)
      requires Parts()
      modifies this`readyFiberQueue
      ensures Parts() && View() == old(View()).(ready := old(View()).ready + fs)
    {
      hide FiberTimers.FiberTimers.Valid, IOPolling.IOPoll.Valid;
      readyFiberQueue := readyFiberQueue + fs;
    }

    ghost method SetModes(m: Modes)
      requires Parts()
      modifies this`modes
      ensures Parts() && modes == m && View() == old(View())
    {
      hide FiberTimers.FiberTimers.Valid, IOPolling.IOPoll.Valid;
      modes := m;
    }

    /** executeFiber on the first ready fiber, or back to run's loop. */
    method SwitchFiber()
      requires Parts()
      modifies this`runningFiber, this`readyFiberQueue, this`phase
      ensures Parts() && View() == Switch(old(View()))
    {
      hide FiberTimers.FiberTimers.Valid, IOPolling.IOPoll.Valid;
      if readyFiberQueue == [] {
        runningFiber, phase := None, Reaping;
        return;
      }
      var fiber := readyFiberQueue[0];
      readyFiberQueue := readyFiberQueue[1..];
      runningFiber, phase := Some(fiber), InFiber;
    }

    /** The clock does not run backwards, and adding a wait to it does not overflow. */
    ghost predicate CanRead(now: nat)
      reads timer, timer.timer
    {
      timer.timer.clock <= now && now + T.INT_MAX < T.UINT64_MAX
    }

    method ArmTimer(f: Fid, duration: int, now: nat)
      requires Parts() && CanRead(now) && duration <= T.INT_MAX && f in View().fibers && f !in View().timers
      requires |View().timers| + 1 < HeapPath.UINT_RANGE
      modifies timer`due, timer.timer, timer.timer.heap, timer.container.Keys
      ensures Parts() && timer.timer.clock == now
      ensures View() == old(View()).(timers := old(View()).timers[f := DueTime(duration, now)])
    {
      hide FiberTimers.FiberTimers.Valid, IOPolling.IOPoll.Valid;
      timer.CountIsSize();
      timer.AddItem(f, duration, now);
    }

    method DisarmTimer(f: Fid)
      requires Parts() && f in View().timers
      modifies timer`due, timer.timer`pending, timer.timer.heap, timer.container.Keys
      ensures Parts() && View() == old(View()).(timers := old(View()).timers - {f})
    {
      hide FiberTimers.FiberTimers.Valid, IOPolling.IOPoll.Valid;
      timer.RemoveItem(f);
    }

    method QueueAwaiter(f: Fid, fd: int, e: IOEvent)
      requires Parts() && fd in View().poll.watchers && !Awaits(View().poll, f, fd)
      modifies ioPoll`dirtyWatcherQueue, ioPoll`view, ioPoll.watchers.Values
      ensures Parts() && View() == old(View()).(poll := AddAwaiter(old(View()).poll, f, fd, e))
    {
      hide FiberTimers.FiberTimers.Valid, IOPolling.IOPoll.Valid, AddAwaiter, Awaits;
      ioPoll.AddEventAwaiter(f, fd, e);
    }

    method PushDead(f: Fid)
      requires Parts()
      modifies this`deadFiberQueue
      ensures Parts() && View() == old(View()).(dead := old(View()).dead + [f])
    {
      hide FiberTimers.FiberTimers.Valid, IOPolling.IOPoll.Valid;
      deadFiberQueue := deadFiberQueue + [f];
    }

    // ----- the calls a fiber makes -----

    method YieldCurrentFiber()
      requires Valid() && Active(View())
      modifies this
      ensures Valid() && View() == Yield(old(View())) && modes == YieldModes(old(View()), old(modes))
    {
      hide Parts, Shows, View, Context, NoneReady;
      ghost var s := View();
      YieldShows(s, modes);
      if NoneReady() {
        return;
      }
      var f := SaveContext(Context());
      PushReady([f]);
      SwitchFiber();
      SetModes(YieldModes(s, modes));
    }

    method SuspendCurrentFiber()
      requires Valid() && Active(View())
      modifies this
      ensures Valid() && View() == Suspend(old(View())) && modes == StopModes(old(View()), old(modes), Suspended)
    {
      hide Parts, Shows, View, Context;
      ghost var s := View();
      SuspendShows(s, modes);
      var _ := SaveContext(Context());
      SwitchFiber();
      SetModes(StopModes(s, modes, Suspended));
    }

    method KillCurrentFiber()
      requires Valid() && Active(View())
      modifies this
      ensures View().fibers == old(View()).fibers[old(View()).running.value := Fiber(false, 0, Parked(old(View())).fd)]
      ensures Valid() && View() == Kill(old(View())) && modes == StopModes(old(View()), old(modes), Dead)
    {
      hide Parts, Shows, View, Context;
      ghost var s := View();
      KillShows(s, modes);
      var f := SaveContext(Context().(started := false, status := 0));
      PushDead(f);
      SwitchFiber();
      SetModes(StopModes(s, modes, Dead));
    }

    /** The running fiber is one of those counted and has no timer pending. */
    lemma NoTimerWhileRunning()
      requires Valid() && Active(View())
      ensures View().running.value !in View().timers
      ensures |View().timers| + 1 < HeapPath.UINT_RANGE
    {
      var f, s := View().running.value, View();
      assert s.timers.Keys <= modes.Keys - {f};
      SubsetSize(s.timers.Keys, modes.Keys - {f});
    }

    method SleepCurrentFiber(duration: int, now: nat)
      requires Valid() && Active(View()) && CanRead(now) && duration <= T.INT_MAX
      modifies this, timer`due, timer.timer, timer.timer.heap, timer.container.Keys
      ensures Valid() && timer.timer.clock == now
      ensures View().timers == old(View()).timers[old(View()).running.value := if duration >= 0 then now + duration else T.UINT64_MAX]
      ensures View() == Sleep(old(View()), DueTime(duration, now)) && modes == StopModes(old(View()), old(modes), Sleeping)
    {
      hide Parts, Shows, View, Context, CanRead;
      ghost var s := View();
      NoTimerWhileRunning();
      SleepShows(s, modes, DueTime(duration, now));
      var f := SaveContext(Context());
      ArmTimer(f, duration, now);
      SwitchFiber();
      SetModes(StopModes(s, modes, Sleeping));
    }

    method AwaitIOEvent(fd: int, e: IOEvent, timeout: int, now: nat)
      requires Valid() && Active(View()) && fd in View().poll.watchers && CanRead(now) && timeout <= T.INT_MAX
      modifies this, timer`due, timer.timer, timer.timer.heap, timer.container.Keys
      modifies ioPoll`dirtyWatcherQueue, ioPoll`view, ioPoll.watchers.Values
      ensures Valid() && timer.timer.clock == now
      ensures View().timers == old(View()).timers[old(View()).running.value := if timeout >= 0 then now + timeout else T.UINT64_MAX]
      ensures View() == Await(old(View()), fd, e, DueTime(timeout, now))
      ensures modes == StopModes(old(View()), old(modes), Awaiting(Place(fd, e)))
    {
      hide Parts, Shows, View, Context, CanRead, AddAwaiter, Awaits;
      ghost var s := View();
      NoTimerWhileRunning();
      AwaitShows(s, modes, fd, e, DueTime(timeout, now));
      var f := SaveContext(Context().(fd := fd));
      QueueAwaiter(f, fd, e);
      ArmTimer(f, timeout, now);
      SwitchFiber();
      SetModes(StopModes(s, modes, Awaiting(Place(fd, e))));
    }

    method ResumeFiber(fiber: Fid)
      requires Valid() && Active(View()) && fiber in modes && modes[fiber].Suspended?
      modifies this
      ensures Valid() && View() == Resume(old(View()), fiber) && modes == old(modes)[fiber := Ready(Plain)]
    {
      hide Parts, Shows, View;
      ResumeShows(View(), modes, fiber);
      ghost var m := modes[fiber := Ready(Plain)];
      PushReady([fiber]);
      SetModes(m);
    }

    // ----- callCoroutine -----

    /** A dead fiber is used again with its old record. */
    method TakeFiber() returns (f: Fid)
      requires Parts() && View().dead != []
      modifies this`deadFiberQueue
      ensures Parts() && f == old(View()).dead[0] && View() == old(View()).(dead := old(View()).dead[1..])
    {
      hide FiberTimers.FiberTimers.Valid, IOPolling.IOPoll.Valid;
      f := deadFiberQueue[0];
      deadFiberQueue := deadFiberQueue[1..];
    }

    method CreateFiber(newId: Fid)
      requires Parts() && newId !in View().fibers
      modifies this`fibers, this`fiberCount, timer`timerItem, timer`container
      ensures Parts() && fresh(timer.container.Keys - old(timer.container).Keys)
      ensures View() == old(View()).(fibers := old(View()).fibers[newId := Fiber(false, 0, -1)], fiberCount := old(View()).fiberCount + 1)
    {
      hide FiberTimers.FiberTimers.Valid, IOPolling.IOPoll.Valid;
      timer.CreateItem(newId);
      fibers, fiberCount := fibers[newId := Fiber(false, 0, -1)], fiberCount + 1;
    }

    predicate NoneDead()
      reads this, ioPoll, timer
      ensures NoneDead() <==> View().dead == []
    {
      deadFiberQueue == []
    }

    lemma Counted()
      requires Valid()
      ensures fiberCount == View().fiberCount && View().fibers.Keys == modes.Keys
    {
    }

    method CallCoroutine(newId: Fid)
      requires Valid() && (View().phase.Outside? || Active(View())) && newId !in modes && fiberCount + 1 < HeapPath.UINT_RANGE
      modifies this, timer`timerItem, timer`container
      ensures Valid() && fresh(timer.container.Keys - old(timer.container).Keys)
      ensures View() == Call(old(View()), newId) && modes == old(modes)[Callee(old(View()), newId) := Ready(Started)]
    {
      hide Parts, Shows, View, NoneDead;
      ghost var s := View();
      Counted();
      CallShows(s, modes, newId);
      var fiber := newId;
      if !NoneDead() {
        fiber := TakeFiber();
      } else {
        CreateFiber(newId);
      }
      PushReady([fiber]);
      SetModes(modes[fiber := Ready(Started)]);
      CallCounts(s, newId);
    }

    lemma CallCounts(s: Sched, newId: Fid)
      requires View() == Call(s, newId)
      ensures fiberCount <= s.fiberCount + 1
    {
    }

    // ----- watchIO and unwatchIO -----

    method AddWatcher(fd: int)
      requires Parts() && fd >= 0 && fd !in View().poll.watchers
      modifies ioPoll
      ensures Parts() && View() == Watch(old(View()), fd)
      ensures fresh(ioPoll.watchers.Values - old(ioPoll.watchers).Values)
    {
      hide FiberTimers.FiberTimers.Valid, IOPolling.IOPoll.Valid, Create;
      ioPoll.CreateWatcher(fd);
    }

    method WatchIO(fd: int)
      requires Valid() && Active(View()) && fd >= 0 && fd !in View().poll.watchers
      modifies ioPoll
      ensures Valid() && View() == Watch(old(View()), fd) && modes == old(modes)
      ensures fresh(ioPoll.watchers.Values - old(ioPoll.watchers).Values)
    {
      hide Parts, Shows, View, Create;
      WatchShows(View(), modes, fd);
      AddWatcher(fd);
    }

    method CutWatcher(fd: int) returns (fiberQueue: seq<Fid>)
      requires Parts() && fd in View().poll.watchers
      modifies ioPoll, ioPoll.watchers.Values
      ensures Parts()
      ensures fiberQueue == RemoveAwaiters(old(View()).poll, fd).1
      ensures View() == old(View()).(poll := Destroy(RemoveAwaiters(old(View()).poll, fd).0, fd))
    {
      hide FiberTimers.FiberTimers.Valid, IOPolling.IOPoll.Valid, Destroy;
      fiberQueue := ioPoll.RemoveEventAwaiters(fd, []);
      ioPoll.DestroyWatcher(fd);
    }

    method SetStatus(f: Fid, status: int)
      requires Parts() && f in View().fibers
      modifies this`fibers
      ensures Parts() && View() == old(View()).(fibers := old(View()).fibers[f := old(View()).fibers[f].(status := status)])
    {
      hide FiberTimers.FiberTimers.Valid, IOPolling.IOPoll.Valid;
      fibers := fibers[f := fibers[f].(status := status)];
      assert fibers.Keys == old(fibers.Keys);
    }

    static lemma DropNext(timers: map<Fid, nat>, fibers: map<Fid, Fiber>, fs: seq<Fid>, i: nat)
      requires Distinct(fs) && i < |fs| && fs[i] in timers
      ensures fs[i] in DropTimers(timers, fs[..i])
      ensures DropTimers(timers, fs[..i + 1]) == DropTimers(timers, fs[..i]) - {fs[i]}
      ensures var before := WithStatus(fibers, fs[..i], -EBADF);
        fs[i] in fibers ==>
          fs[i] in before && WithStatus(fibers, fs[..i + 1], -EBADF) == before[fs[i] := before[fs[i]].(status := -EBADF)]
    {
      assert fs[..i + 1] == fs[..i] + [fs[i]];
    }

    static lemma DropNone(timers: map<Fid, nat>, fibers: map<Fid, Fiber>, fs: seq<Fid>)
      ensures DropTimers(timers, fs[..0]) == timers && WithStatus(fibers, fs[..0], -EBADF) == fibers
      ensures fs[..|fs|] == fs
    {
    }

    method RejectAll(fiberQueue: seq<Fid>)
      requires Parts() && Distinct(fiberQueue)
      requires forall f :: f in fiberQueue ==> f in View().timers && f in View().fibers
      modifies this`fibers, timer`due, timer.timer`pending, timer.timer.heap, timer.container.Keys
      ensures Parts()
      ensures View() == old(View()).(
        timers := DropTimers(old(View()).timers, fiberQueue), fibers := WithStatus(old(View()).fibers, fiberQueue, -EBADF))
    {
      hide *;
      ghost var s := View();
      DropNone(s.timers, s.fibers, fiberQueue);
      var i := 0;
      while i < |fiberQueue|
        invariant i <= |fiberQueue| && Parts()
        invariant View() == s.(timers := DropTimers(s.timers, fiberQueue[..i]), fibers := WithStatus(s.fibers, fiberQueue[..i], -EBADF))
      {
        DropNext(s.timers, s.fibers, fiberQueue, i);
        DisarmTimer(fiberQueue[i]);
        SetStatus(fiberQueue[i], -EBADF);
        i := i + 1;
      }
    }

    method UnwatchIO(fd: int)
      requires Valid() && Active(View()) && fd in View().poll.watchers
      modifies this, ioPoll, ioPoll.watchers.Values, timer`due, timer.timer`pending, timer.timer.heap, timer.container.Keys
      ensures Valid() && View() == Unwatch(old(View()), fd)
      ensures modes == AllTo(old(modes), RemoveAwaiters(old(View()).poll, fd).1, Ready(Unwatched))
    {
      hide Parts, Shows, View, RemoveAwaiters, Destroy, DropTimers, WithStatus;
      ghost var s := View();
      UnwatchShows(s, modes, fd);
      Waiters(fd);
      var fiberQueue := CutWatcher(fd);
      RejectAll(fiberQueue);
      PushReady(fiberQueue);
      SetModes(AllTo(modes, fiberQueue, Ready(Unwatched)));
    }

    lemma Waiters(fd: int)
      requires Valid() && fd in View().poll.watchers
      ensures var out := RemoveAwaiters(View().poll, fd).1;
        Distinct(out) && forall f :: f in out ==> f in View().timers && f in View().fibers
    {
      UnwatchPoll(View().poll, modes, fd);
    }

    // ----- run -----

    ghost method GoTo(next: Phase)
      requires Parts()
      modifies this`phase
      ensures Parts() && View() == old(View()).(phase := next)
    {
      hide FiberTimers.FiberTimers.Valid, IOPolling.IOPoll.Valid;
      phase := next;
    }

    /** run up to its loop. */
    method Start()
      requires Valid() && View().phase.Outside?
      modifies this
      ensures Valid() && View() == Run(old(View())) && modes == old(modes)
      ensures View().phase == if old(modes) == map[] then Outside else Top
    {
      hide Parts, Shows, View;
      Counted();
      RunShows(View(), modes);
      RunPhase(View(), modes);
      if fiberCount == 0 {
        return;
      }
      GoTo(Top);
    }

    /** The loop's first stage: a ready fiber runs, if there is one. */
    method RunReadyFiber()
      requires Valid() && View().phase.Top?
      modifies this
      ensures Valid() && View() == Begin(old(View())) && modes == SwitchModes(old(View()).ready, old(modes))
    {
      hide Parts, Shows, View;
      ghost var s := View();
      BeginShows(s, modes);
      SwitchFiber();
      SetModes(SwitchModes(s.ready, modes));
    }

    method DestroyFiber(f: Fid)
      requires Parts() && f in View().fibers && f !in View().timers && View().fiberCount > 0
      modifies this`fibers, this`fiberCount, timer`timerItem, timer`container
      ensures Parts() && timer.container.Keys <= old(timer.container.Keys)
      ensures View() == old(View()).(fibers := old(View()).fibers - {f}, fiberCount := old(View()).fiberCount - 1)
    {
      hide FiberTimers.FiberTimers.Valid, IOPolling.IOPoll.Valid;
      timer.DestroyItem(f);
      fibers, fiberCount := fibers - {f}, fiberCount - 1;
    }

    static lemma ReapedNext(fibers: map<Fid, Fiber>, fs: seq<Fid>, i: nat)
      requires Distinct(fs) && i < |fs| && fs[i] in fibers
      ensures fs[i] in Reaped(fibers, fs[..i]) && Reaped(fibers, fs[..i + 1]) == Reaped(fibers, fs[..i]) - {fs[i]}
    {
      assert fs[..i + 1] == fs[..i] + [fs[i]];
    }

    static lemma ReapedNone(fibers: map<Fid, Fiber>, fs: seq<Fid>)
      ensures Reaped(fibers, fs[..0]) == fibers && fs[..|fs|] == fs
    {
    }

    method DestroyFibers(fs: seq<Fid>)
      requires Parts() && Distinct(fs) && |fs| <= View().fiberCount
      requires forall f :: f in fs ==> f in View().fibers && f !in View().timers
      modifies this`fibers, this`fiberCount, timer`timerItem, timer`container
      ensures Parts()
      ensures View() == old(View()).(fibers := Reaped(old(View()).fibers, fs), fiberCount := old(View()).fiberCount - |fs|)
    {
      hide *;
      ghost var s := View();
      ReapedNone(s.fibers, fs);
      var i := 0;
      while i < |fs|
        invariant i <= |fs| && Parts()
        invariant View() == s.(fibers := Reaped(s.fibers, fs[..i]), fiberCount := s.fiberCount - i)
      {
        ReapedNext(s.fibers, fs, i);
        DestroyFiber(fs[i]);
        i := i + 1;
      }
    }

    method ClearDead()
      requires Parts()
      modifies this`deadFiberQueue
      ensures Parts() && View() == old(View()).(dead := [])
    {
      hide FiberTimers.FiberTimers.Valid, IOPolling.IOPoll.Valid;
      deadFiberQueue := [];
    }

    lemma DeadFibers()
      requires Valid()
      ensures deadFiberQueue == View().dead && fiberCount == View().fiberCount
      ensures Distinct(deadFiberQueue) && forall f :: f in deadFiberQueue ==> f in View().fibers && f !in View().timers
    {
    }

    lemma Sizes()
      ensures deadFiberQueue == View().dead && fiberCount == View().fiberCount
    {
    }

    /** The loop's second stage: dead fibers are destroyed, and run returns when none are left. */
    method ReapDeadFibers() returns (done: bool)
      requires Valid() && View().phase.Reaping?
      modifies this, timer`timerItem, timer`container
      ensures |old(View()).dead| <= old(View()).fiberCount
      ensures Valid() && View() == Reap(old(View())) && modes == old(modes) - Elements(old(View()).dead)
      ensures done <==> View().phase.Outside?
    {
      hide Parts, Shows, View, Reaped;
      ghost var s := View();
      ReapShows(s, modes);
      DeadFibers();
      done := false;
      if deadFiberQueue != [] {
        DestroyFibers(deadFiberQueue);
        ClearDead();
        Sizes();
        done := fiberCount == 0;
      } else {
        ReapedNone(s.fibers, []);
      }
      GoTo(if done then Outside else Waiting);
      SetModes(modes - Elements(s.dead));
    }

    // ----- waiting -----

    method PollOnce(outcome: Option<seq<Event>>) returns (ok: bool, fiberQueue: seq<Fid>)
      requires Parts() && Inv(View().poll) && LegalOutcome(View().poll, outcome)
      modifies ioPoll`kernel, ioPoll`view, ioPoll`dirtyWatcherQueue, ioPoll.watchers.Values
      ensures Parts() && (ok <==> outcome.Some?)
      ensures fiberQueue == Waited(old(View()).poll, outcome).1
      ensures View() == old(View()).(poll := Waited(old(View()).poll, outcome).0)
    {
      hide FiberTimers.FiberTimers.Valid, IOPolling.IOPoll.Valid, Waited, LegalOutcome, Inv;
      ok, fiberQueue := ioPoll.WaitForEvents(outcome, []);
      assert [] + Waited(old(View()).poll, outcome).1 == Waited(old(View()).poll, outcome).1;
    }

    method ReadTimeout(now: nat) returns (timeout: int)
      requires Parts() && CanRead(now)
      modifies timer.timer`clock
      ensures Parts() && View() == old(View()) && timer.timer.clock == now && T.IsTimeout(View().timers, now, timeout)
    {
      hide FiberTimers.FiberTimers.Valid, IOPolling.IOPoll.Valid;
      timeout := timer.CalculateTimeout(now);
    }

    method DisarmAll(fiberQueue: seq<Fid>)
      requires Parts() && Distinct(fiberQueue) && forall f :: f in fiberQueue ==> f in View().timers
      modifies timer`due, timer.timer`pending, timer.timer.heap, timer.container.Keys
      ensures Parts()
      ensures View() == old(View()).(timers := DropTimers(old(View()).timers, fiberQueue))
    {
      hide *;
      ghost var s := View();
      DropNone(s.timers, s.fibers, fiberQueue);
      var i := 0;
      while i < |fiberQueue|
        invariant i <= |fiberQueue| && Parts()
        invariant View() == s.(timers := DropTimers(s.timers, fiberQueue[..i]))
      {
        DropNext(s.timers, s.fibers, fiberQueue, i);
        DisarmTimer(fiberQueue[i]);
        i := i + 1;
      }
    }

    lemma ReleasedFibers(outcome: Option<seq<Event>>)
      requires Valid() && View().phase.Waiting? && Inv(View().poll) && LegalOutcome(View().poll, outcome)
      ensures var out := Waited(View().poll, outcome).1;
        Distinct(out) && (forall f :: f in out ==> f in View().timers) && (outcome.None? ==> out == [])
    {
      hide Waited, Inv, Places;
      WaitPoll(View().poll, modes, outcome);
      WaitedIs(View().poll, outcome);
    }

    /** The loop's third stage, once round its inner loop: an interrupted wait is repeated. */
    method WaitForEvents(now: nat, outcome: Option<seq<Event>>) returns (ghost timeout: int)
      requires Valid() && View().phase.Waiting? && CanRead(now)
      requires Inv(View().poll) && LegalOutcome(View().poll, outcome)
      modifies this, timer`due, timer.timer`pending, timer.timer`clock, timer.timer.heap, timer.container.Keys
      modifies ioPoll`kernel, ioPoll`view, ioPoll`dirtyWatcherQueue, ioPoll.watchers.Values
      ensures timer.timer.clock == now && T.IsTimeout(old(View()).timers, now, timeout)
      ensures Valid() && View() == Wait(old(View()), outcome)
      ensures modes == AllTo(old(modes), Waited(old(View()).poll, outcome).1, Ready(Released))
    {
      hide Parts, Shows, View, Waited, LegalOutcome, Inv, DropTimers, CanRead;
      ghost var s := View();
      WaitShows(s, modes, outcome);
      ReleasedFibers(outcome);
      timeout := ReadTimeout(now);
      var ok, fiberQueue := PollOnce(outcome);
      if ok {
        DisarmAll(fiberQueue);
        PushReady(fiberQueue);
      }
      NothingDropped(s);
      GoTo(if ok then Expiring else Waiting);
      SetModes(AllTo(modes, fiberQueue, Ready(Released)));
    }

    static lemma NothingDropped(s: Sched)
      ensures DropTimers(s.timers, []) == s.timers && s.ready + [] == s.ready
    {
    }

    // ----- waking -----

    method WakeFiber(f: Fid)
      requires Parts() && CanWake(View(), f)
      modifies this`fibers, this`readyFiberQueue, ioPoll`dirtyWatcherQueue, ioPoll`view, ioPoll.watchers.Values
      ensures Parts() && View() == Wake(old(View()), f)
    {
      hide FiberTimers.FiberTimers.Valid, IOPolling.IOPoll.Valid, RemoveAwaiter, Awaits;
      if fibers[f].fd >= 0 {
        ioPoll.RemoveEventAwaiter(f, fibers[f].fd);
        fibers := fibers[f := Fiber(fibers[f].started, -ETIME, -1)];
        assert fibers.Keys == old(fibers.Keys);
      }
      readyFiberQueue := [f] + readyFiberQueue;
    }

    static lemma {:induction false} WakeBefore(s: Sched, batch: seq<Fid>, i: nat)
      requires CanWakeAll(s, batch) && i <= |batch|
      ensures CanWakeAll(s, batch[i..])
      ensures i > 0 ==> CanWakeAll(s, batch[i - 1..]) && CanWake(WakeAll(s, batch[i..]), batch[i - 1])
      ensures i > 0 ==> WakeAll(s, batch[i - 1..]) == Wake(WakeAll(s, batch[i..]), batch[i - 1])
    {
      if i == 0 {
        assert batch[i..] == batch;
      } else {
        WakeBefore(s, batch, i - 1);
        assert batch[i - 1..][1..] == batch[i..] && batch[i - 1..][0] == batch[i - 1];
      }
    }

    method WakeFibers(batch: seq<Fid>)
      requires Parts() && CanWakeAll(View(), batch)
      modifies this`fibers, this`readyFiberQueue, ioPoll`dirtyWatcherQueue, ioPoll`view, ioPoll.watchers.Values
      ensures Parts() && View() == WakeAll(old(View()), batch)
    {
      hide *;
      ghost var s := View();
      var i := |batch|;
      WakeNone(s, batch);
      while i > 0
        invariant 0 <= i <= |batch| && Parts() && CanWakeAll(s, batch[i..]) && View() == WakeAll(s, batch[i..])
      {
        WakeBefore(s, batch, i);
        i := i - 1;
        WakeFiber(batch[i]);
      }
      assert batch[0..] == batch;
    }

    static lemma WakeNone(s: Sched, batch: seq<Fid>)
      ensures batch[|batch|..] == [] && CanWakeAll(s, []) && WakeAll(s, []) == s
    {
    }

    method TakeDueFibers(now: nat) returns (batch: seq<Fid>)
      requires Parts() && CanRead(now)
      modifies timer`due, timer.timer, timer.timer.heap, timer.container.Keys
      ensures Parts() && timer.timer.clock == now && T.IsDueBatch(old(View()).timers, now, 1024, batch)
      ensures View() == Expired(old(View()), batch)
    {
      hide FiberTimers.FiberTimers.Valid, IOPolling.IOPoll.Valid, T.IsDueBatch;
      batch := timer.RemoveDueItems(now);
      assert timer.due == DropTimers(old(timer.due), batch);
    }

    /** The loop's last stage, legal as long as no fiber that sleeps with a stale descriptor is due. */
    method WakeDueFibers(now: nat) returns (batch: seq<Fid>)
      requires Valid() && View().phase.Expiring? && CanRead(now)
      requires forall f :: Stale(View(), modes, f) && f in View().timers ==> now < View().timers[f]
      modifies this, timer`due, timer.timer, timer.timer.heap, timer.container.Keys
      modifies ioPoll`dirtyWatcherQueue, ioPoll`view, ioPoll.watchers.Values
      ensures timer.timer.clock == now && T.IsDueBatch(old(View()).timers, now, 1024, batch)
      ensures CanWakeAll(Expired(old(View()), batch), batch)
      ensures Valid() && View() == Expire(old(View()), batch) && modes == ExpireModes(old(modes), batch)
    {
      hide Parts, Shows, View, CanWakeAll, WakeAll, CanRead, DropTimers;
      ghost var s := View();
      batch := TakeDueFibers(now);
      ExpireShows(s, modes, now, batch);
      WakeFibers(batch);
      GoTo(Top);
      SetModes(ExpireModes(modes, batch));
    }
  }
}

/** Scheduler.cxx as a state machine over fibers, queues, timers and the interest cache. */
module SchedulerSpec {
  import opened Sequences
  import opened PollSpec
  import opened PollPlaces
  import T = TimerSpec

  const ETIME: int := 62
  const EBADF: int := 9
  const BATCH: nat := 1024

  /** `started` stands for a saved context; `status` is what the fiber's setjmp returns next. */
  datatype Fiber = Fiber(started: bool, status: int, fd: int)

  /** Where control is: outside run, at one of run's stages, or in a fiber. */
  datatype Phase = Outside | Top | Reaping | Waiting | Expiring | InFiber

  datatype Sched = Sched(
    phase: Phase,
    fibers: map<Fid, Fiber>,
    fiberCount: nat,
    ready: seq<Fid>,
    dead: seq<Fid>,
    running: Option<Fid>,
    poll: Poll<Fid>,
    timers: map<Fid, nat>)

  // ----- the scheduler's operations -----

  function Initial(): Sched {
    Sched(Outside, map[], 0, [], [], None, Poll(map[], [], map[]), map[])
  }

  /** The fiber callCoroutine uses: the first dead one, or a new one. */
  function Callee(s: Sched, newId: Fid): Fid {
    if s.dead != [] then s.dead[0] else newId
  }

  function Call(s: Sched, newId: Fid): Sched {
    if s.dead != [] then s.(dead := s.dead[1..], ready := s.ready + [s.dead[0]])
    else s.(fibers := s.fibers[newId := Fiber(false, 0, -1)], fiberCount := s.fiberCount + 1, ready := s.ready + [newId])
  }

  /** Runs the first ready fiber, or returns to run's loop when there is none. */
  function Switch(s: Sched): Sched {
    if s.ready == [] then s.(running := None, phase := Reaping)
    else s.(running := Some(s.ready[0]), ready := s.ready[1..], phase := InFiber)
  }

  /** The running fiber leaves the processor with this record. */
  function Leave(s: Sched, record: Fiber): Sched
    requires s.running.Some?
  {
    s.(fibers := s.fibers[s.running.value := record], running := None)
  }

  /** The same before control has gone elsewhere. */
  function Saved(s: Sched, record: Fiber): Sched
    requires s.running.Some?
  {
    s.(fibers := s.fibers[s.running.value := record])
  }

  function Parked(s: Sched): Fiber
    requires s.running.Some? && s.running.value in s.fibers
  {
    Fiber(true, 1, s.fibers[s.running.value].fd)
  }

  predicate Active(s: Sched) {
    s.phase.InFiber? && s.running.Some? && s.running.value in s.fibers
  }

  function Yield(s: Sched): Sched
    requires Active(s)
  {
    if s.ready == [] then s
    else Switch(Leave(s, Parked(s)).(ready := s.ready + [s.running.value]))
  }

  function DueTime(duration: int, now: nat): nat {
    if duration >= 0 then now + duration else T.UINT64_MAX
  }

  function Sleep(s: Sched, due: nat): Sched
    requires Active(s)
  {
    Switch(Leave(s, Parked(s)).(timers := s.timers[s.running.value := due]))
  }

  function Kill(s: Sched): Sched
    requires Active(s)
  {
    Switch(Leave(s, Fiber(false, 0, s.fibers[s.running.value].fd)).(dead := s.dead + [s.running.value]))
  }

  function Await(s: Sched, fd: int, e: IOEvent, due: nat): Sched
    requires Active(s) && fd in s.poll.watchers
  {
    var f := s.running.value;
    Switch(Leave(s, Fiber(true, 1, fd)).(poll := AddAwaiter(s.poll, f, fd, e), timers := s.timers[f := due]))
  }

  function Suspend(s: Sched): Sched
    requires Active(s)
  {
    Switch(Leave(s, Parked(s)))
  }

  function Resume(s: Sched, g: Fid): Sched {
    s.(ready := s.ready + [g])
  }

  function WithStatus(fibers: map<Fid, Fiber>, fs: seq<Fid>, status: int): map<Fid, Fiber> {
    map f | f in fibers :: if f in fs then fibers[f].(status := status) else fibers[f]
  }

  /** The timers left when these fibers' items are removed. */
  function DropTimers(timers: map<Fid, nat>, fs: seq<Fid>): map<Fid, nat> {
    map f | f in timers && f !in fs :: timers[f]
  }

  function Watch(s: Sched, fd: int): Sched {
    s.(poll := Create(s.poll, fd))
  }

  function Unwatch(s: Sched, fd: int): Sched
    requires fd in s.poll.watchers
  {
    var (p, out) := RemoveAwaiters(s.poll, fd);
    s.(poll := Destroy(p, fd),
       timers := DropTimers(s.timers, out),
       fibers := WithStatus(s.fibers, out, -EBADF),
       ready := s.ready + out)
  }

  /** run up to its loop. */
  function Run(s: Sched): Sched {
    if s.fiberCount == 0 then s else s.(phase := Top)
  }

  function Begin(s: Sched): Sched {
    Switch(s)
  }

  function Reaped(fibers: map<Fid, Fiber>, fs: seq<Fid>): map<Fid, Fiber> {
    map f | f in fibers && f !in fs :: fibers[f]
  }

  /** Destroys the dead fibers; run returns when none are left. */
  function Reap(s: Sched): Sched
    requires |s.dead| <= s.fiberCount
  {
    var count := s.fiberCount - |s.dead|;
    s.(fibers := Reaped(s.fibers, s.dead),
       fiberCount := count,
       dead := [],
       phase := if s.dead != [] && count == 0 then Outside else Waiting)
  }

  /** Waits for I/O; released fibers lose their timers and join the ready queue. */
  ghost function Wait(s: Sched, outcome: Option<seq<Event>>): Sched
    requires Inv(s.poll) && LegalOutcome(s.poll, outcome)
  {
    var (p, out) := Waited(s.poll, outcome);
    s.(poll := p,
       timers := DropTimers(s.timers, out),
       ready := s.ready + out,
       phase := if outcome.None? then Waiting else Expiring)
  }

  /** Whether waking a due fiber is a legal step: with fd set, it must be on that descriptor's queues. */
  predicate CanWake(s: Sched, f: Fid) {
    f in s.fibers && (s.fibers[f].fd >= 0 ==> Awaits(s.poll, f, s.fibers[f].fd))
  }

  function Wake(s: Sched, f: Fid): Sched
    requires CanWake(s, f)
  {
    var s' := s.(ready := [f] + s.ready);
    if s.fibers[f].fd < 0 then s'
    else s'.(poll := RemoveAwaiter(s.poll, f, s.fibers[f].fd), fibers := s.fibers[f := Fiber(s.fibers[f].started, -ETIME, -1)])
  }

  /** The wake loop runs from the last due item to the first, each going to the head of the ready queue. */
  predicate CanWakeAll(s: Sched, batch: seq<Fid>)
    decreases |batch|, 0
  {
    batch == [] || (CanWakeAll(s, batch[1..]) && CanWake(WakeAll(s, batch[1..]), batch[0]))
  }

  function WakeAll(s: Sched, batch: seq<Fid>): Sched
    requires CanWakeAll(s, batch)
    decreases |batch|, 1
  {
    if batch == [] then s else Wake(WakeAll(s, batch[1..]), batch[0])
  }

  function Expired(s: Sched, batch: seq<Fid>): Sched {
    s.(timers := DropTimers(s.timers, batch))
  }

  function Expire(s: Sched, batch: seq<Fid>): Sched
    requires CanWakeAll(Expired(s, batch), batch)
  {
    WakeAll(Expired(s, batch), batch).(phase := Top)
  }
}

/** Whole runs of the scheduler: any legal sequence of fiber calls and loop stages. */
module FiberRuns {
  import opened Sequences
  import opened PollSpec
  import opened PollPlaces
  import opened SchedulerSpec
  import opened FiberModes
  import T = TimerSpec

  /** What a fiber may call, what run's loop may do next, and what the kernel and the clock may answer. */
  datatype Op =
    | OpCall(newId: Fid)
    | OpRun
    | OpBegin
    | OpYield
    | OpSleep(duration: int, now: nat)
    | OpKill
    | OpWatch(fd: int)
    | OpUnwatch(fd: int)
    | OpAwait(fd: int, event: IOEvent, timeout: int, now: nat)
    | OpSuspend
    | OpResume(g: Fid)
    | OpReap
    | OpWait(outcome: Option<seq<Event>>)
    | OpExpire(now: nat, batch: seq<Fid>)

  /** The asserted preconditions of the calls, and resumeFiber only on a suspended fiber. */
  ghost predicate Enabled(s: Sched, m: Modes, op: Op) {
    match op
    case OpCall(id) => (s.phase.Outside? || Active(s)) && id !in m
    case OpRun => s.phase.Outside?
    case OpBegin => s.phase.Top?
    case OpYield => Active(s)
    case OpSleep(_, _) => Active(s)
    case OpKill => Active(s)
    case OpWatch(fd) => Active(s) && fd >= 0 && fd !in s.poll.watchers
    case OpUnwatch(fd) => Active(s) && fd in s.poll.watchers
    case OpAwait(fd, _, _, _) => Active(s) && fd in s.poll.watchers
    case OpSuspend => Active(s)
    case OpResume(g) => Active(s) && g in m && m[g].Suspended?
    case OpReap => s.phase.Reaping? && |s.dead| <= s.fiberCount
    case OpWait(outcome) => s.phase.Waiting? && Inv(s.poll) && LegalOutcome(s.poll, outcome)
    case OpExpire(now, batch) => s.phase.Expiring? && T.IsDueBatch(s.timers, now, BATCH, batch)
  }

  /** The one step that can go wrong: waking a fiber that is not on the queue its record names. */
  predicate Faults(s: Sched, op: Op) {
    op.OpExpire? && !CanWakeAll(Expired(s, op.batch), op.batch)
  }

  ghost function Step(s: Sched, m: Modes, op: Op): Sched
    requires Enabled(s, m, op) && !Faults(s, op)
  {
    match op
    case OpCall(id) => Call(s, id)
    case OpRun => Run(s)
    case OpBegin => Begin(s)
    case OpYield => Yield(s)
    case OpSleep(duration, now) => Sleep(s, DueTime(duration, now))
    case OpKill => Kill(s)
    case OpWatch(fd) => Watch(s, fd)
    case OpUnwatch(fd) => Unwatch(s, fd)
    case OpAwait(fd, e, timeout, now) => Await(s, fd, e, DueTime(timeout, now))
    case OpSuspend => Suspend(s)
    case OpResume(g) => Resume(s, g)
    case OpReap => Reap(s)
    case OpWait(outcome) => Wait(s, outcome)
    case OpExpire(_, batch) => Expire(s, batch)
  }

  /** The modes after a step, said fiber by fiber without queues, rings or records. */
  ghost function StepModes(s: Sched, m: Modes, op: Op): Modes
    requires Enabled(s, m, op)
  {
    match op
    case OpCall(id) => m[Callee(s, id) := Ready(Started)]
    case OpRun => m
    case OpBegin => SwitchModes(s.ready, m)
    case OpYield => YieldModes(s, m)
    case OpSleep(_, _) => StopModes(s, m, Sleeping)
    case OpKill => StopModes(s, m, Dead)
    case OpWatch(_) => m
    case OpUnwatch(fd) => AllTo(m, RemoveAwaiters(s.poll, fd).1, Ready(Unwatched))
    case OpAwait(fd, e, _, _) => StopModes(s, m, Awaiting(Place(fd, e)))
    case OpSuspend => StopModes(s, m, Suspended)
    case OpResume(g) => m[g := Ready(Plain)]
    case OpReap => m - Elements(s.dead)
    case OpWait(outcome) => AllTo(m, Waited(s.poll, outcome).1, Ready(Released))
    case OpExpire(_, batch) => ExpireModes(m, batch)
  }

  lemma StepShows(s: Sched, m: Modes, op: Op)
    requires Shows(s, m) && Enabled(s, m, op) && !Faults(s, op)
    ensures Shows(Step(s, m, op), StepModes(s, m, op))
  {
    hide Shows, Inv, LegalOutcome, Waited;
    match op {
      case OpCall(id) => CallShows(s, m, id);
      case OpRun => RunShows(s, m);
      case OpBegin => BeginShows(s, m);
      case OpYield => YieldShows(s, m);
      case OpSleep(duration, now) => SleepShows(s, m, DueTime(duration, now));
      case OpKill => KillShows(s, m);
      case OpWatch(fd) => WatchShows(s, m, fd);
      case OpUnwatch(fd) => UnwatchShows(s, m, fd);
      case OpAwait(fd, e, timeout, now) => AwaitShows(s, m, fd, e, DueTime(timeout, now));
      case OpSuspend => SuspendShows(s, m);
      case OpResume(g) => ResumeShows(s, m, g);
      case OpReap => ReapShows(s, m);
      case OpWait(outcome) => WaitShows(s, m, outcome);
      case OpExpire(now, batch) => ExpireShows(s, m, now, batch);
    }
  }

  lemma RunShows(s: Sched, m: Modes)
    requires Shows(s, m) && s.phase.Outside?
    ensures Shows(Run(s), m)
  {
  }

  /** run returns at once exactly when there is no fiber, and otherwise enters its loop. */
  lemma RunPhase(s: Sched, m: Modes)
    requires Shows(s, m) && s.phase.Outside?
    ensures Run(s) == s.(phase := if m == map[] then Outside else Top)
  {
    if |m| == 0 {
      assert m.Keys == {};
    }
  }

  lemma BeginShows(s: Sched, m: Modes)
    requires Shows(s, m) && s.phase.Top?
    ensures Shows(Begin(s), SwitchModes(s.ready, m))
  {
    SwitchShows(s, m);
  }

  // ----- runs -----

  datatype State = State(s: Sched, m: Modes)

  ghost predicate IsRun(states: seq<State>, ops: seq<Op>) {
    && |states| == |ops| + 1
    && states[0] == State(Initial(), map[])
    && forall i :: 0 <= i < |ops| ==> Follows(states[i], ops[i], states[i + 1])
  }

  ghost predicate Follows(a: State, op: Op, b: State) {
    Enabled(a.s, a.m, op) && !Faults(a.s, op) && b == State(Step(a.s, a.m, op), StepModes(a.s, a.m, op))
  }

  /** In every run every fiber has one mode, and rings, records, timers, awaiter queues and the fiber count all
      agree with it at every step. */
  lemma {:induction false} EveryStateShows(states: seq<State>, ops: seq<Op>, i: nat)
    requires IsRun(states, ops) && i < |states|
    ensures Shows(states[i].s, states[i].m)
  {
    if i == 0 {
      InitialShows();
    } else {
      EveryStateShows(states, ops, i - 1);
      assert Follows(states[i - 1], ops[i - 1], states[i]);
      StepShows(states[i - 1].s, states[i - 1].m, ops[i - 1]);
    }
  }

  lemma InitialShows()
    ensures Shows(Initial(), map[])
  {
    assert PlacesOf(map[]) == map[];
  }

  /** A run goes wrong exactly when a stale sleeper's timer is in the batch that falls due. */
  lemma FaultsIff(states: seq<State>, ops: seq<Op>, i: nat, op: Op)
    requires IsRun(states, ops) && i < |states| && Enabled(states[i].s, states[i].m, op)
    ensures Faults(states[i].s, op) <==> op.OpExpire? && exists f :: f in op.batch && Stale(states[i].s, states[i].m, f)
  {
    EveryStateShows(states, ops, i);
    if op.OpExpire? {
      ExpireShows(states[i].s, states[i].m, op.now, op.batch);
    }
  }

  // ----- how a fiber's mode may change -----

  /** From ready the only way on is to run, so a waiter is woken once and its cause is never overwritten. */
  ghost predicate Arrow(a: Mode, b: Mode) {
    a == b ||
    match a
    case Running => !(b.Ready? && b.cause != Plain)
    case Ready(_) => b.Running?
    case Awaiting(_) => b.Ready? && (b.cause.Released? || b.cause.TimedOut? || b.cause.Unwatched?)
    case Sleeping => b == Ready(Plain)
    case Suspended => b == Ready(Plain)
    case Dead => b == Ready(Started)
  }

  lemma ReadyHead(s: Sched, m: Modes)
    requires Shows(s, m) && s.ready != []
    ensures s.ready[0] in m && m[s.ready[0]].Ready?
  {
    assert s.ready[0] in s.ready;
  }

  lemma StepArrow(s: Sched, m: Modes, op: Op, f: Fid)
    requires Shows(s, m) && Enabled(s, m, op) && f in m && f in StepModes(s, m, op)
    ensures Arrow(m[f], StepModes(s, m, op)[f])
  {
    if s.ready != [] {
      ReadyHead(s, m);
    }
    if s.dead != [] {
      assert s.dead[0] in s.dead;
    }
    match op {
      case OpUnwatch(fd) => UnwatchPoll(s.poll, m, fd);
      case OpWait(outcome) => WaitPoll(s.poll, m, outcome);
      case OpExpire(now, batch) => assert f in batch ==> f in s.timers;
      case _ =>
    }
  }

  /** A waiter leaves its queue only for its true cause: an event that covers its place, its own timer falling
      due, or its descriptor being unwatched, which spares no waiter of that descriptor. */
  lemma WokenForCause(s: Sched, m: Modes, op: Op, f: Fid)
    requires Shows(s, m) && Enabled(s, m, op) && f in m && m[f].Awaiting?
    ensures f in StepModes(s, m, op)
    ensures StepModes(s, m, op)[f] == m[f] ||
      (match op
       case OpWait(Some(events)) => StepModes(s, m, op)[f] == Ready(Released) && exists ev :: ev in events && Covers(ev, m[f].at)
       case OpExpire(now, batch) => StepModes(s, m, op)[f] == Ready(TimedOut) && f in s.timers && s.timers[f] <= now
       case OpUnwatch(fd) => StepModes(s, m, op)[f] == Ready(Unwatched) && m[f].at.fd == fd
       case _ => false)
    ensures op.OpUnwatch? && m[f].at.fd == op.fd ==> StepModes(s, m, op)[f] == Ready(Unwatched)
  {
    if s.ready != [] {
      ReadyHead(s, m);
    }
    if s.dead != [] {
      assert s.dead[0] in s.dead;
    }
    match op {
      case OpUnwatch(fd) => UnwatchPoll(s.poll, m, fd);
      case OpWait(outcome) => WaitPoll(s.poll, m, outcome);
      case OpExpire(now, batch) => assert f in batch ==> f in s.timers;
      case _ =>
    }
  }

  /** What awaitIOEvent returns, and errno when it returns -1. */
  function AwaitResult(status: int): (int, int) {
    if status < 0 then (-1, -status) else (0, 0)
  }

  /** The result tells the cause: -1 with errno 62 (ETIME) exactly after a timeout, -1 with errno 9 (EBADF) exactly
      after an unwatch, and 0 exactly otherwise. */
  lemma ResultIsCause(s: Sched, m: Modes, f: Fid)
    requires Shows(s, m) && f in m && m[f].Ready? && !m[f].cause.Started?
    ensures f in s.fibers && s.fibers[f].status != 0
    ensures AwaitResult(s.fibers[f].status) == (-1, 62) <==> m[f].cause.TimedOut?
    ensures AwaitResult(s.fibers[f].status) == (-1, 9) <==> m[f].cause.Unwatched?
    ensures AwaitResult(s.fibers[f].status) == (0, 0) <==> m[f].cause.Plain? || m[f].cause.Released?
  {
    assert RecordOk(s.fibers[f], m[f]);
  }

  /** Once ready, a fiber keeps its cause until it runs, however long the run goes on. */
  lemma {:induction false} CauseIsKept(states: seq<State>, ops: seq<Op>, i: nat, j: nat, f: Fid)
    requires IsRun(states, ops) && i <= j < |states|
    requires f in states[i].m && states[i].m[f].Ready?
    requires forall k :: i <= k <= j ==> f in states[k].m && !states[k].m[f].Running?
    ensures states[j].m[f] == states[i].m[f]
    decreases j - i
  {
    hide Shows, Enabled, Faults, Step, StepModes;
    if i < j {
      CauseIsKept(states, ops, i, j - 1, f);
      EveryStateShows(states, ops, j - 1);
      assert Follows(states[j - 1], ops[j - 1], states[j]);
      StepArrow(states[j - 1].s, states[j - 1].m, ops[j - 1], f);
    }
  }

  // ----- the order of wake-ups -----

  /** One round of run's loop queues due fibers first, in order of due time, then those already ready,
      then those released by I/O in the order the kernel reported them. */
  lemma WakeOrder(a: State, events: seq<Event>, b: State, now: nat, batch: seq<Fid>, c: State)
    requires Shows(a.s, a.m) && Follows(a, OpWait(Some(events)), b) && Follows(b, OpExpire(now, batch), c)
    ensures c.s.ready == batch + (a.s.ready + LetGoAll(a.s.poll, events))
    ensures Distinct(c.s.ready)
    ensures forall i, j :: 0 <= i < j < |batch| ==>
      batch[i] in b.s.timers && batch[j] in b.s.timers && b.s.timers[batch[i]] <= b.s.timers[batch[j]]
  {
    hide Inv, LegalOutcome, Waited, PollOk, RecordsOk, TimersOk, WakeAll, CanWakeAll;
    StepShows(a.s, a.m, OpWait(Some(events)));
    ExpireShows(b.s, b.m, now, batch);
    WaitOutput(a.s.poll, events);
  }

  lemma WaitOutput(p: Poll<Fid>, events: seq<Event>)
    requires Inv(p) && LegalOutcome(p, Some(events))
    ensures Waited(p, Some(events)).1 == LetGoAll(p, events)
  {
    WaitedIs(p, Some(events));
  }

  /** The ready queue is first-in first-out: a step lets its head run or leaves it in place, and adds only at the
      tail; due fibers alone go ahead of it. */
  lemma ReadyOrder(s: Sched, m: Modes, op: Op)
    requires Shows(s, m) && Enabled(s, m, op) && !Faults(s, op)
    ensures var s' := Step(s, m, op);
      || (op.OpExpire? && s'.ready == op.batch + s.ready)
      || (s.ready != [] && s'.running == Some(s.ready[0]) && s.ready[1..] <= s'.ready)
      || (!op.OpExpire? && s.ready <= s'.ready && (s'.running == s.running || (s'.running == None && s.ready == [])))
  {
    hide Inv, LegalOutcome, Waited, PollOk, RingsOk, RecordsOk, TimersOk, AddAwaiter, RemoveAwaiters, Create, Destroy;
    if op.OpExpire? {
      ExpireShows(s, m, op.now, op.batch);
    }
  }

  // ----- no fiber is woken early -----

  lemma ExpireKeepsDue(s: Sched, m: Modes, now: nat, batch: seq<Fid>)
    requires Shows(s, m) && s.phase.Expiring? && T.IsDueBatch(s.timers, now, BATCH, batch)
    requires CanWakeAll(Expired(s, batch), batch)
    ensures Expire(s, batch).timers == DropTimers(s.timers, batch)
  {
    hide RingsOk, PollOk, WakeAll, CanWakeAll;
    ExpiredShows(s, m, batch);
    WakeAllIff(Expired(s, batch), m, batch);
  }

  /** A fiber that goes on waiting keeps its due time. */
  lemma StepKeepsDue(s: Sched, m: Modes, op: Op, f: Fid)
    requires Shows(s, m) && Enabled(s, m, op) && !Faults(s, op)
    requires Waits(m, f) && f in StepModes(s, m, op) && StepModes(s, m, op)[f] == m[f]
    ensures f in s.timers && f in Step(s, m, op).timers && Step(s, m, op).timers[f] == s.timers[f]
  {
    hide Inv, LegalOutcome, Waited, PollOk, RecordsOk, Expire, CanWakeAll, AddAwaiter, RemoveAwaiters, Create, Destroy;
    if s.ready != [] {
      ReadyHead(s, m);
    }
    if op.OpExpire? {
      ExpireKeepsDue(s, m, op.now, op.batch);
    }
  }

  /** The duration the running fiber asks its timer for, and the clock reading it is added to. */
  function Asked(op: Op): Option<(int, nat)> {
    match op
    case OpSleep(duration, now) => Some((duration, now))
    case OpAwait(_, _, timeout, now) => Some((timeout, now))
    case _ => None
  }

  /** The fiber is due when its duration, which may be zero, is over, and never for a negative one. */
  ghost predicate DueAsAsked(timers: map<Fid, nat>, f: Fid, asked: (int, nat)) {
    f in timers && timers[f] == if asked.0 >= 0 then asked.1 + asked.0 else 0xFFFF_FFFF_FFFF_FFFF
  }

  lemma {:induction false} DueIsKept(states: seq<State>, ops: seq<Op>, i: nat, k: nat, f: Fid)
    requires IsRun(states, ops) && i < k < |states|
    requires Asked(ops[i]).Some? && states[i].s.running == Some(f)
    requires forall j :: i < j <= k ==> Waits(states[j].m, f) && states[j].m[f] == states[i + 1].m[f]
    ensures DueAsAsked(states[k].s.timers, f, Asked(ops[i]).value)
    decreases k
  {
    hide Shows, Faults, Step, StepModes, Enabled;
    assert Follows(states[k - 1], ops[k - 1], states[k]);
    EveryStateShows(states, ops, k - 1);
    if k == i + 1 {
      AskedIsSet(states[i].s, states[i].m, ops[i], f);
    } else {
      DueIsKept(states, ops, i, k - 1, f);
      StepKeepsDue(states[k - 1].s, states[k - 1].m, ops[k - 1], f);
    }
  }

  lemma AskedIsSet(s: Sched, m: Modes, op: Op, f: Fid)
    requires Shows(s, m) && Enabled(s, m, op) && !Faults(s, op) && Asked(op).Some? && s.running == Some(f)
    ensures DueAsAsked(Step(s, m, op).timers, f, Asked(op).value)
  {
    hide Inv, PollOk, RecordsOk, AddAwaiter;
  }

  /** A sleep or a wait for a duration is ended by its timer only once now + duration has come; one for a negative
      duration never is, before the clock reaches its very end. */
  lemma NeverWokenEarly(states: seq<State>, ops: seq<Op>, i: nat, k: nat, f: Fid)
    requires IsRun(states, ops) && i < k < |ops|
    requires Asked(ops[i]).Some? && states[i].s.running == Some(f)
    requires forall j :: i < j <= k ==> Waits(states[j].m, f) && states[j].m[f] == states[i + 1].m[f]
    requires f in states[k + 1].m && (states[k + 1].m[f] == Ready(Plain) || states[k + 1].m[f] == Ready(TimedOut))
    ensures ops[k].OpExpire?
    ensures var (duration, now) := Asked(ops[i]).value;
      if duration >= 0 then now + duration <= ops[k].now else 0xFFFF_FFFF_FFFF_FFFF <= ops[k].now
  {
    hide Shows, Faults, Step;
    DueIsKept(states, ops, i, k, f);
    EveryStateShows(states, ops, k);
    assert Follows(states[k], ops[k], states[k + 1]);
    EndedByTimer(states[k].s, states[k].m, ops[k], f);
  }

  /** And it is not kept waiting: once now + duration has come, an expiry of at most 1024 due fibers ends it. */
  lemma NeverLeftWaiting(states: seq<State>, ops: seq<Op>, i: nat, k: nat, f: Fid)
    requires IsRun(states, ops) && i < k < |ops| && ops[k].OpExpire?
    requires Asked(ops[i]).Some? && states[i].s.running == Some(f)
    requires forall j :: i < j <= k ==> Waits(states[j].m, f) && states[j].m[f] == states[i + 1].m[f]
    requires var (duration, now) := Asked(ops[i]).value; duration >= 0 && now + duration <= ops[k].now
    requires |T.DueAt(states[k].s.timers, ops[k].now)| <= 1024
    ensures f in states[k + 1].m
    ensures states[k + 1].m[f] == if ops[i].OpAwait? then Ready(TimedOut) else Ready(Plain)
  {
    hide Shows, Faults, Step;
    DueIsKept(states, ops, i, k, f);
    AskedMode(states, ops, i, f);
    EveryStateShows(states, ops, k);
    assert Follows(states[k], ops[k], states[k + 1]);
    DueAreWoken(states[k].s, states[k].m, ops[k].now, ops[k].batch, f);
  }

  lemma AskedMode(states: seq<State>, ops: seq<Op>, i: nat, f: Fid)
    requires IsRun(states, ops) && i < |ops| && Asked(ops[i]).Some? && states[i].s.running == Some(f)
    ensures f in states[i + 1].m
    ensures states[i + 1].m[f].Awaiting? <==> ops[i].OpAwait?
  {
    EveryStateShows(states, ops, i);
    assert Follows(states[i], ops[i], states[i + 1]);
    var s, m := states[i].s, states[i].m;
    hide Step, PollOk, RecordsOk;
    if s.ready != [] {
      ReadyHead(s, m);
    }
  }

  /** An expiry takes as many due fibers as there are, up to 1024; if that is all, exactly the due ones wake. */
  lemma DueAreWoken(s: Sched, m: Modes, now: nat, batch: seq<Fid>, f: Fid)
    requires Shows(s, m) && Enabled(s, m, OpExpire(now, batch)) && Waits(m, f)
    ensures f in s.timers && f in StepModes(s, m, OpExpire(now, batch))
    ensures |batch| == if 1024 < |T.DueAt(s.timers, now)| then 1024 else |T.DueAt(s.timers, now)|
    ensures now < s.timers[f] ==> StepModes(s, m, OpExpire(now, batch))[f] == m[f]
    ensures s.timers[f] <= now && |T.DueAt(s.timers, now)| <= 1024 ==>
      StepModes(s, m, OpExpire(now, batch))[f] == if m[f].Awaiting? then Ready(TimedOut) else Ready(Plain)
  {
    hide RingsOk, RecordsOk, PollOk;
    T.BatchSize(s.timers, now, BATCH, batch);
    DistinctSize(batch);
    assert Elements(batch) <= T.DueAt(s.timers, now);
    if |batch| == |T.DueAt(s.timers, now)| {
      SameSize(Elements(batch), T.DueAt(s.timers, now));
      assert f in T.DueAt(s.timers, now) ==> f in Elements(batch);
    }
  }

  lemma SameSize(a: set<Fid>, b: set<Fid>)
    requires a <= b && |a| == |b|
    ensures a == b
  {
    assert |b - a| == |b| - |a|;
  }

  lemma EndedByTimer(s: Sched, m: Modes, op: Op, f: Fid)
    requires Shows(s, m) && Enabled(s, m, op) && Waits(m, f) && f in StepModes(s, m, op)
    requires StepModes(s, m, op)[f] == Ready(Plain) || StepModes(s, m, op)[f] == Ready(TimedOut)
    ensures op.OpExpire? && f in s.timers && s.timers[f] <= op.now
  {
    hide Inv, LegalOutcome, Waited, PollOk, RecordsOk;
    if s.ready != [] {
      ReadyHead(s, m);
    }
  }

  /** run returns only when no fiber is left in any mode. */
  lemma RunReturnsEmpty(s: Sched, m: Modes)
    requires Shows(s, m) && Enabled(s, m, OpReap) && s.dead != []
    ensures Step(s, m, OpReap).phase.Outside? <==> StepModes(s, m, OpReap) == map[]
  {
    StepShows(s, m, OpReap);
    var m' := StepModes(s, m, OpReap);
    if |m'| == 0 {
      assert m'.Keys == {};
    }
  }

  // ----- stale descriptors -----

  /** No fiber sleeps while its record still names a descriptor. */
  predicate Disciplined(s: Sched, op: Op) {
    op.OpSleep? && Active(s) ==> s.fibers[s.running.value].fd < 0
  }

  ghost predicate NoStale(s: Sched, m: Modes) {
    forall f :: f in m ==> !Stale(s, m, f)
  }

  lemma ExpireKeepsNoStale(s: Sched, m: Modes, now: nat, batch: seq<Fid>)
    requires Shows(s, m) && s.phase.Expiring? && T.IsDueBatch(s.timers, now, BATCH, batch)
    requires CanWakeAll(Expired(s, batch), batch) && NoStale(s, m)
    ensures NoStale(Expire(s, batch), ExpireModes(m, batch))
  {
    hide RingsOk, PollOk, WakeAll, CanWakeAll;
    ExpiredShows(s, m, batch);
    WakeAllIff(Expired(s, batch), m, batch);
  }

  lemma StepKeepsNoStale(s: Sched, m: Modes, op: Op)
    requires Shows(s, m) && Enabled(s, m, op) && !Faults(s, op) && NoStale(s, m) && Disciplined(s, op)
    ensures NoStale(Step(s, m, op), StepModes(s, m, op))
  {
    hide Inv, LegalOutcome, Waited, PollOk, TimersOk, RingsOk, DropTimers, Expire, CanWakeAll, AddAwaiter, RemoveAwaiters, Create, Destroy;
    if s.ready != [] {
      ReadyHead(s, m);
    }
    if op.OpExpire? {
      ExpireKeepsNoStale(s, m, op.now, op.batch);
    }
  }

  /** A run in which no fiber sleeps with a stale descriptor never reaches an illegal wake-up. */
  lemma {:induction false} DisciplinedRunsNeverFault(states: seq<State>, ops: seq<Op>, i: nat, op: Op)
    requires IsRun(states, ops) && i < |states| && Enabled(states[i].s, states[i].m, op)
    requires forall k :: 0 <= k < i ==> Disciplined(states[k].s, ops[k])
    ensures NoStale(states[i].s, states[i].m) && !Faults(states[i].s, op)
  {
    DisciplinedNoStale(states, ops, i);
    FaultsIff(states, ops, i, op);
  }

  lemma {:induction false} DisciplinedNoStale(states: seq<State>, ops: seq<Op>, i: nat)
    requires IsRun(states, ops) && i < |states|
    requires forall k :: 0 <= k < i ==> Disciplined(states[k].s, ops[k])
    ensures NoStale(states[i].s, states[i].m)
  {
    if i > 0 {
      DisciplinedNoStale(states, ops, i - 1);
      EveryStateShows(states, ops, i - 1);
      assert Follows(states[i - 1], ops[i - 1], states[i]);
      StepKeepsNoStale(states[i - 1].s, states[i - 1].m, ops[i - 1]);
    }
  }

  // ----- the discipline is needed -----

  ghost function After(a: State, op: Op): State
    requires Enabled(a.s, a.m, op) && !Faults(a.s, op)
  {
    State(Step(a.s, a.m, op), StepModes(a.s, a.m, op))
  }

  lemma Extend(states: seq<State>, ops: seq<Op>, op: Op)
    requires IsRun(states, ops) && Enabled(states[|ops|].s, states[|ops|].m, op) && !Faults(states[|ops|].s, op)
    ensures IsRun(states + [After(states[|ops|], op)], ops + [op])
  {
    var states', ops' := states + [After(states[|ops|], op)], ops + [op];
    forall i | 0 <= i < |ops'|
      ensures Follows(states'[i], ops'[i], states'[i + 1])
    {
      assert i < |ops| ==> Follows(states[i], ops[i], states[i + 1]);
    }
  }

  /** The cache with descriptor 3 watched and nobody waiting. */
  const IDLE: Poll<Fid> := Poll(map[3 := Watcher({}, {}, [], [])], [], map[])

  /** A single fiber watches descriptor 3 and runs. */
  lemma RunToFiber() returns (states: seq<State>, ops: seq<Op>)
    ensures IsRun(states, ops)
    ensures states[|ops|] == State(
      Sched(InFiber, map[0 := Fiber(false, 0, -1)], 1, [], [], Some(0), IDLE, map[]),
      map[0 := Running])
  {
    states, ops := [State(Initial(), map[])], [];
    Extend(states, ops, OpCall(0));
    states, ops := states + [After(states[|ops|], OpCall(0))], ops + [OpCall(0)];
    Extend(states, ops, OpRun);
    states, ops := states + [After(states[|ops|], OpRun)], ops + [OpRun];
    Extend(states, ops, OpBegin);
    states, ops := states + [After(states[|ops|], OpBegin)], ops + [OpBegin];
    Extend(states, ops, OpWatch(3));
    states, ops := states + [After(states[|ops|], OpWatch(3))], ops + [OpWatch(3)];
  }

  /** The cache while fiber 0 waits to read descriptor 3, before the first flush. */
  const WAITING: Poll<Fid> := Poll(map[3 := Watcher({}, {Readability}, [0], [])], [3], map[])

  const READABLE: Event := Event(3, {Readability}, false)

  /** The cache once flushed, and once fiber 0 has been released. */
  const WATCHED: Poll<Fid> := Poll(map[3 := Watcher({Readability}, {Readability}, [0], [])], [], map[3 := {Readability}])
  const RELEASED: Poll<Fid> := Poll(map[3 := Watcher({Readability}, {}, [], [])], [3], map[3 := {Readability}])

  lemma FlushWaiting()
    ensures Flush(WAITING) == WATCHED
  {
    assert FlushOne(WAITING, 3) == WATCHED.(dirty := [3]);
    assert FlushAll(WAITING, [3]) == FlushAll(WATCHED.(dirty := [3]), []);
  }

  lemma DispatchReadable()
    requires PollSpec.Ready(WATCHED, [READABLE])
    ensures DispatchAll(WATCHED, [READABLE]) == (RELEASED, [0])
  {
    var none: Flags := {};
    assert {Readability} - {Readability} == none && Without([0], 0) == [] && [0] + [] == [0];
    assert RemoveAwaiter(WATCHED, 0, 3) == RELEASED;
    assert Release(WATCHED, 3, Readability) == (RELEASED, [0]);
    assert DispatchOne(WATCHED, READABLE) == (RELEASED, [0]);
    DispatchKeepsReady(WATCHED, [READABLE]);
    assert [READABLE][1..] == [] && [READABLE][0] == READABLE;
    assert DispatchAll(RELEASED, []) == (RELEASED, []);
  }

  lemma ReadinessReleases()
    requires Inv(WAITING)
    ensures LegalOutcome(WAITING, Some([READABLE])) && Waited(WAITING, Some([READABLE])) == (RELEASED, [0])
  {
    FlushWaiting();
    OutcomeIsReady(WAITING, [READABLE]);
    DispatchReadable();
  }

  lemma Prolong(states: seq<State>, ops: seq<Op>, op: Op) returns (states': seq<State>, ops': seq<Op>)
    requires IsRun(states, ops) && Enabled(states[|ops|].s, states[|ops|].m, op) && !Faults(states[|ops|].s, op)
    ensures IsRun(states', ops') && states'[|ops'|] == After(states[|ops|], op)
    ensures Shows(states'[|ops'|].s, states'[|ops'|].m) && Inv(states'[|ops'|].s.poll)
  {
    Extend(states, ops, op);
    states', ops' := states + [After(states[|ops|], op)], ops + [op];
    EveryStateShows(states', ops', |ops'|);
  }

  lemma AwaitCache()
    ensures AddAwaiter(IDLE, 0, 3, Readability) == WAITING
  {
    assert [] + [0] == [0] && [] + [3] == [3];
    var none: Flags := {};
    assert none + {Readability} == {Readability};
  }

  /** Fiber 0 waits until descriptor 3 is readable, with no other fiber to run. */
  lemma RunToWait() returns (states: seq<State>, ops: seq<Op>)
    ensures IsRun(states, ops) && Inv(WAITING)
    ensures states[|ops|] == State(
      Sched(Waiting, map[0 := Fiber(true, 1, 3)], 1, [], [], None, WAITING, map[0 := T.UINT64_MAX]),
      map[0 := Awaiting(Place(3, Readability))])
  {
    hide IsRun, Shows, Inv, AddAwaiter;
    states, ops := RunToFiber();
    AwaitCache();
    states, ops := Prolong(states, ops, OpAwait(3, Readability, -1, 0));
    states, ops := Prolong(states, ops, OpReap);
    assert states[|ops|].m == map[0 := Awaiting(Place(3, Readability))];
  }

  /** Fiber 0 is released, with its record still naming descriptor 3. */
  lemma RunToRelease() returns (states: seq<State>, ops: seq<Op>)
    ensures IsRun(states, ops)
    ensures var a := states[|ops|];
      && a.m == map[0 := Ready(Released)]
      && a.s == Sched(Expiring, map[0 := Fiber(true, 1, 3)], 1, [0], [], None, RELEASED, map[])
  {
    hide IsRun, Shows, Inv, LegalOutcome, Waited;
    states, ops := RunToWait();
    ReadinessReleases();
    states, ops := Prolong(states, ops, OpWait(Some([READABLE])));
    assert [] + [0] == [0];
  }

  /** Fiber 0 runs again. */
  lemma RunPastWait() returns (states: seq<State>, ops: seq<Op>)
    ensures IsRun(states, ops)
    ensures var a := states[|ops|];
      && a.m == map[0 := Running] && a.s.phase.InFiber? && a.s.fibers == map[0 := Fiber(true, 1, 3)]
      && a.s.fiberCount == 1 && a.s.ready == [] && a.s.dead == [] && a.s.running == Some(0) && a.s.timers == map[]
  {
    hide IsRun, Shows, Inv;
    states, ops := RunToRelease();
    states, ops := Prolong(states, ops, OpExpire(0, []));
    states, ops := Prolong(states, ops, OpBegin);
  }

  lemma QuietWait(s: Sched)
    requires Inv(s.poll)
    ensures LegalOutcome(s.poll, Some([])) && Waited(s.poll, Some([])).1 == []
  {
    OutcomeIsReady(s.poll, []);
  }

  /** Fiber 0 sleeps until time 5 and run waits, so its record is that of a sleeper with a descriptor. */
  lemma RunToSleep() returns (states: seq<State>, ops: seq<Op>)
    ensures IsRun(states, ops) && |states| == |ops| + 1 && Inv(states[|ops|].s.poll)
    ensures var a := states[|ops|];
      && a.m == map[0 := Sleeping] && a.s.phase.Waiting? && a.s.fibers == map[0 := Fiber(true, 1, 3)]
      && a.s.timers == map[0 := 5]
  {
    hide IsRun, Shows, Inv;
    states, ops := RunPastWait();
    states, ops := Prolong(states, ops, OpSleep(5, 0));
    states, ops := Prolong(states, ops, OpReap);
    assert states[|ops|].m == map[0 := Sleeping];
  }

  /** The discipline is needed: a fiber that reads a descriptor and then sleeps is woken illegally when its
      sleep ends, because its record still names the descriptor it no longer waits on. */
  lemma StaleSleeperFaults() returns (states: seq<State>, ops: seq<Op>, op: Op)
    ensures IsRun(states, ops)
    ensures Enabled(states[|ops|].s, states[|ops|].m, op) && Faults(states[|ops|].s, op)
  {
    hide IsRun, Shows, Inv, LegalOutcome, Waited, CanWakeAll;
    states, ops := RunToSleep();
    QuietWait(states[|ops|].s);
    states, ops := Prolong(states, ops, OpWait(Some([])));
    op := OpExpire(5, [0]);
    assert Stale(states[|ops|].s, states[|ops|].m, 0);
    FaultsIff(states, ops, |ops|, op);
    assert 0 in op.batch;
  }

  /** At this point of the run fiber 0 died, and nobody has waited for a descriptor since. */
  ghost predicate DiedAt(states: seq<State>, ops: seq<Op>, die: nat) {
    && die < |ops| < |states| && ops[die].OpKill? && states[die].s.running == Some(0)
    && forall l :: die <= l < |ops| ==> !ops[l].OpAwait?
  }

  lemma ProlongAfter(states: seq<State>, ops: seq<Op>, op: Op, die: nat) returns (states': seq<State>, ops': seq<Op>)
    requires IsRun(states, ops) && Enabled(states[|ops|].s, states[|ops|].m, op) && !Faults(states[|ops|].s, op)
    requires !op.OpAwait? && ((die == |ops| && op.OpKill? && states[|ops|].s.running == Some(0)) || DiedAt(states, ops, die))
    ensures IsRun(states', ops') && |states'| == |ops'| + 1 && states'[|ops'|] == After(states[|ops|], op)
    ensures Shows(states'[|ops'|].s, states'[|ops'|].m) && Inv(states'[|ops'|].s.poll)
    ensures DiedAt(states', ops', die)
  {
    hide Shows, Inv, Enabled, Faults, Step, StepModes;
    Extend(states, ops, op);
    states', ops' := states + [After(states[|ops|], op)], ops + [op];
    EveryStateShows(states', ops', |ops'|);
    InvShown(states'[|ops'|].s, states'[|ops'|].m);
  }

  lemma InvShown(s: Sched, m: Modes)
    requires Shows(s, m)
    ensures Inv(s.poll)
  {
  }

  /** Fiber 0 dies after its wait and fiber 1, which it called, calls a coroutine: fiber 0 is used again, with its old
      descriptor. */
  lemma RunToReuse() returns (states: seq<State>, ops: seq<Op>, die: nat)
    ensures IsRun(states, ops) && DiedAt(states, ops, die)
    ensures var a := states[|ops|];
      && a.m == map[0 := Running, 1 := Dead] && a.s.phase.InFiber? && a.s.running == Some(0)
      && a.s.fibers == map[0 := Fiber(false, 0, 3), 1 := Fiber(false, 0, -1)]
      && a.s.fiberCount == 2 && a.s.ready == [] && a.s.dead == [1] && a.s.timers == map[]
  {
    hide IsRun, Shows, Inv, DiedAt;
    states, ops := RunPastWait();
    states, ops := Prolong(states, ops, OpCall(1));
    die := |ops|;
    states, ops := ProlongAfter(states, ops, OpKill, die);
    states, ops := ProlongAfter(states, ops, OpCall(2), die);
    states, ops := ProlongAfter(states, ops, OpKill, die);
  }

  lemma RunToReusedSleep() returns (states: seq<State>, ops: seq<Op>, die: nat)
    ensures IsRun(states, ops) && DiedAt(states, ops, die)
    ensures var a := states[|ops|];
      && a.m == map[0 := Sleeping, 1 := Dead] && a.s.phase.Reaping? && a.s.running == None && a.s.dead == [1]
      && a.s.fibers == map[0 := Fiber(true, 1, 3), 1 := Fiber(false, 0, -1)] && a.s.fiberCount == 2
      && a.s.timers == map[0 := 5]
  {
    hide IsRun, Shows, Inv, DiedAt;
    states, ops, die := RunToReuse();
    states, ops := ProlongAfter(states, ops, OpSleep(5, 0), die);
  }

  lemma RunToReusedWait() returns (states: seq<State>, ops: seq<Op>, die: nat)
    ensures IsRun(states, ops) && |states| == |ops| + 1 && DiedAt(states, ops, die) && Inv(states[|ops|].s.poll)
    ensures var a := states[|ops|];
      && a.m == map[0 := Sleeping] && a.s.phase.Waiting? && a.s.fibers == map[0 := Fiber(true, 1, 3)]
      && a.s.timers == map[0 := 5]
  {
    hide IsRun, Shows, Inv, DiedAt;
    states, ops, die := RunToReusedSleep();
    states, ops := ProlongAfter(states, ops, OpReap, die);
    assert states[|ops|].m == map[0 := Sleeping];
  }

  /** Death does not help: a fiber that has waited for nothing since it died and was used again is woken illegally
      from its first sleep, because its record still names the descriptor of its former life. */
  lemma ReusedFiberFaults() returns (states: seq<State>, ops: seq<Op>, die: nat, op: Op)
    ensures IsRun(states, ops) && DiedAt(states, ops, die)
    ensures Enabled(states[|ops|].s, states[|ops|].m, op) && Faults(states[|ops|].s, op) && op.OpExpire? && op.batch == [0]
  {
    hide IsRun, Shows, Inv, LegalOutcome, Waited, CanWakeAll, DiedAt;
    states, ops, die := RunToReusedWait();
    QuietWait(states[|ops|].s);
    states, ops := ProlongAfter(states, ops, OpWait(Some([])), die);
    op := OpExpire(5, [0]);
    assert Stale(states[|ops|].s, states[|ops|].m, 0);
    FaultsIff(states, ops, |ops|, op);
    assert 0 in op.batch;
  }
}

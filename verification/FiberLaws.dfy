/** What one step of the scheduler does to control, to the queues and to the descriptors in the fibers' records. */
module FiberLaws {
  import opened Sequences
  import opened PollSpec
  import opened PollPlaces
  import opened SchedulerSpec
  import opened FiberModes
  import opened FiberRuns
  import T = TimerSpec

  // ----- where control goes -----

  ghost predicate AnyReady(m: Modes) {
    exists f :: f in m && m[f].Ready?
  }

  ghost predicate AnyDead(m: Modes) {
    exists f :: f in m && m[f].Dead?
  }

  lemma QueuesTell(s: Sched, m: Modes)
    requires Shows(s, m)
    ensures s.ready != [] <==> AnyReady(m)
    ensures s.dead != [] <==> AnyDead(m)
    ensures s.fiberCount == |m| && (s.dead != [] ==> s.dead[0] in m)
  {
    if s.ready != [] {
      assert s.ready[0] in s.ready;
    }
    if s.dead != [] {
      assert s.dead[0] in s.dead;
    }
  }

  /** The running fiber gives up the processor. */
  predicate Leaves(op: Op) {
    op.OpSleep? || op.OpAwait? || op.OpSuspend? || op.OpKill?
  }

  /** run returns at once without fibers and after the last one died; a fiber runs whenever one is ready; an
      interrupted wait is repeated; and calls that do not block return to their caller. */
  lemma ControlFlow(s: Sched, m: Modes, op: Op)
    requires Shows(s, m) && Enabled(s, m, op) && !Faults(s, op)
    ensures var s', m' := Step(s, m, op), StepModes(s, m, op);
      match op
      case OpRun => s' == s.(phase := if m == map[] then Outside else Top)
      case OpReap => s'.phase == if AnyDead(m) && m' == map[] then Outside else Waiting
      case OpWait(outcome) => s'.phase == if outcome.None? then Waiting else Expiring
      case OpExpire(_, _) => s'.phase == Top
      case OpYield => s'.phase == InFiber && (!AnyReady(m) ==> s' == s)
      case _ =>
        if op.OpBegin? || Leaves(op) then s'.phase == if AnyReady(m) then InFiber else Reaping
        else s'.phase == s.phase && s'.running == s.running
  {
    QueuesTell(s, m);
    hide Shows, Inv, LegalOutcome, Waited, Run, Reap, Expire, CanWakeAll, AddAwaiter, RemoveAwaiters, Create, Destroy;
    match op {
      case OpRun => RunPhase(s, m);
      case OpReap => ReapPhase(s, m);
      case OpExpire(now, batch) => ExpirePhase(s, batch);
      case _ =>
    }
  }

  lemma ExpirePhase(s: Sched, batch: seq<Fid>)
    requires CanWakeAll(Expired(s, batch), batch)
    ensures Expire(s, batch).phase == Top
  {
  }

  lemma ReapPhase(s: Sched, m: Modes)
    requires Shows(s, m) && Enabled(s, m, OpReap)
    ensures Step(s, m, OpReap).phase == if AnyDead(m) && StepModes(s, m, OpReap) == map[] then Outside else Waiting
  {
    hide RingsOk, RecordsOk, TimersOk, PollOk;
    QueuesTell(s, m);
    if s.dead != [] {
      RunReturnsEmpty(s, m);
    }
  }

  // ----- whose turn it is -----

  /** The head of the ready queue runs next; a fiber that blocks leaves the queue to the others, and one that yields
      goes behind them. */
  lemma NextTurn(s: Sched, m: Modes, op: Op)
    requires Shows(s, m) && Enabled(s, m, op) && (op.OpBegin? || op.OpYield? || Leaves(op)) && s.ready != []
    ensures var s' := Step(s, m, op);
      && s'.running == Some(s.ready[0])
      && [s.ready[0]] + s'.ready == s.ready + if op.OpYield? then [s.running.value] else []
  {
    hide Shows, AddAwaiter;
  }

  /** Called, resumed and unwatched fibers join the ready queue at its tail, waiters for reading before waiters for
      writing, each in the order in which they came. */
  lemma JoinsTail(s: Sched, m: Modes, op: Op)
    requires Shows(s, m) && Enabled(s, m, op) && (op.OpCall? || op.OpResume? || op.OpUnwatch?)
    ensures Step(s, m, op).ready == s.ready +
      match op
      case OpCall(id) => if s.dead != [] then [s.dead[0]] else [id]
      case OpResume(g) => [g]
      case OpUnwatch(fd) => s.poll.watchers[fd].readers + s.poll.watchers[fd].writers
      case _ => []
  {
    hide RingsOk, RecordsOk, TimersOk, RemoveAwaiters, Destroy;
    if op.OpUnwatch? {
      RemoveAwaitersKeepsInv(s.poll, op.fd);
    }
  }

  /** Dead fibers are used again in the order in which they died, with nothing else created, until run destroys them. */
  lemma DeadOrder(s: Sched, m: Modes, op: Op)
    requires Shows(s, m) && Enabled(s, m, op) && !Faults(s, op)
    ensures Step(s, m, op).dead ==
      match op
      case OpCall(_) => if s.dead != [] then s.dead[1..] else []
      case OpKill => s.dead + [s.running.value]
      case OpReap => []
      case _ => s.dead
    ensures op.OpCall? && s.dead != [] ==> Step(s, m, op).fibers == s.fibers
  {
    hide Shows, Inv, LegalOutcome, Waited, AddAwaiter, RemoveAwaiters, Create, Destroy, CanWakeAll, WakeAll;
    if op.OpExpire? {
      ExpireKeepsDead(s, op.batch);
    }
  }

  lemma {:induction false} WakeAllKeepsDead(s: Sched, batch: seq<Fid>)
    requires CanWakeAll(s, batch)
    ensures WakeAll(s, batch).dead == s.dead
    decreases |batch|
  {
    if batch != [] {
      WakeAllKeepsDead(s, batch[1..]);
    }
  }

  lemma ExpireKeepsDead(s: Sched, batch: seq<Fid>)
    requires CanWakeAll(Expired(s, batch), batch)
    ensures Expire(s, batch).dead == s.dead
  {
    WakeAllKeepsDead(Expired(s, batch), batch);
  }

  // ----- what is watched -----

  lemma {:induction false} WakeAllKeepsWatched(s: Sched, batch: seq<Fid>)
    requires CanWakeAll(s, batch)
    ensures WakeAll(s, batch).poll.watchers.Keys == s.poll.watchers.Keys
    decreases |batch|
  {
    if batch != [] {
      WakeAllKeepsWatched(s, batch[1..]);
    }
  }

  lemma KeysAfter(p: Poll<Fid>, fd: int, f: Fid, e: IOEvent)
    ensures Create(p, fd).watchers.Keys == p.watchers.Keys + {fd}
    ensures fd in p.watchers ==> AddAwaiter(p, f, fd, e).watchers.Keys == p.watchers.Keys
    ensures fd in p.watchers ==> fd in RemoveAwaiters(p, fd).0.watchers
    ensures fd in p.watchers ==>
      Destroy(RemoveAwaiters(p, fd).0, fd).watchers.Keys == p.watchers.Keys - {fd}
  {
  }

  /** Descriptors are watched from watchIO to unwatchIO, whatever happens in between. */
  lemma WatchedLaw(s: Sched, m: Modes, op: Op)
    requires Shows(s, m) && Enabled(s, m, op) && !Faults(s, op)
    ensures Step(s, m, op).poll.watchers.Keys ==
      match op
      case OpWatch(fd) => s.poll.watchers.Keys + {fd}
      case OpUnwatch(fd) => s.poll.watchers.Keys - {fd}
      case _ => s.poll.watchers.Keys
  {
    hide RingsOk, RecordsOk, TimersOk, PollOk, Inv, LegalOutcome, Waited, CanWakeAll, WakeAll, AddAwaiter, RemoveAwaiters, Create, Destroy;
    match op {
      case OpWatch(fd) => KeysAfter(s.poll, fd, 0, Readability);
      case OpUnwatch(fd) => KeysAfter(s.poll, fd, 0, Readability);
      case OpAwait(fd, e, _, _) => KeysAfter(s.poll, fd, s.running.value, e);
      case OpWait(outcome) => WaitedIs(s.poll, outcome);
      case OpExpire(now, batch) => WakeAllKeepsWatched(Expired(s, batch), batch);
      case _ =>
    }
  }

  // ----- the descriptors in the records -----

  lemma {:induction false} WakeAllDescriptors(s: Sched, batch: seq<Fid>)
    requires CanWakeAll(s, batch)
    ensures var fibers := WakeAll(s, batch).fibers;
      && fibers.Keys == s.fibers.Keys
      && forall f :: f in s.fibers ==>
        if f in batch && s.fibers[f].fd >= 0 then fibers[f].fd == -1 else fibers[f] == s.fibers[f]
    decreases |batch|
  {
    if batch != [] {
      WakeAllDescriptors(s, batch[1..]);
      assert forall f :: f in batch <==> f == batch[0] || f in batch[1..];
    }
  }

  /** A record's descriptor is set by awaitIOEvent and reset by a timer falling due; no other step touches it, so it
      outlives the wait it was set for, the fiber's death and its next use. */
  lemma DescriptorLaw(s: Sched, m: Modes, op: Op, f: Fid)
    requires Shows(s, m) && Enabled(s, m, op) && !Faults(s, op) && f in Step(s, m, op).fibers
    ensures var fd' := Step(s, m, op).fibers[f].fd;
      if f !in s.fibers then op == OpCall(f) && fd' == -1
      else if op.OpAwait? && s.running == Some(f) then fd' == op.fd
      else if op.OpExpire? && f in op.batch && s.fibers[f].fd >= 0 then fd' == -1
      else fd' == s.fibers[f].fd
  {
    hide LegalOutcome, Waited, PollOk, RingsOk, TimersOk, AddAwaiter, RemoveAwaiters, Create, Destroy, CanWakeAll, WakeAll;
    if op.OpExpire? {
      WakeAllDescriptors(Expired(s, op.batch), op.batch);
    }
  }
}

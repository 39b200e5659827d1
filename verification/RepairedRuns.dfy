/** The scheduler with the descriptor in a fiber's record reset on every wake-up, not only on a timeout. */
module RepairedRuns {
  import opened Sequences
  import opened PollSpec
  import opened PollPlaces
  import opened SchedulerSpec
  import opened FiberModes
  import opened FiberRuns
  import T = TimerSpec

  function Cleared(fibers: map<Fid, Fiber>, fs: seq<Fid>): map<Fid, Fiber> {
    map f | f in fibers :: if f in fs then fibers[f].(fd := -1) else fibers[f]
  }

  /** The fibers a step wakes without resetting their records. */
  ghost function Woken(s: Sched, m: Modes, op: Op): seq<Fid>
    requires Enabled(s, m, op)
  {
    match op
    case OpUnwatch(fd) => RemoveAwaiters(s.poll, fd).1
    case OpWait(outcome) => Waited(s.poll, outcome).1
    case _ => []
  }

  ghost function RepairedStep(s: Sched, m: Modes, op: Op): Sched
    requires Enabled(s, m, op) && !Faults(s, op)
  {
    var s' := Step(s, m, op);
    s'.(fibers := Cleared(s'.fibers, Woken(s, m, op)))
  }

  /** A record names a descriptor only while its fiber waits for it. */
  ghost predicate Current(fibers: map<Fid, Fiber>, m: Modes) {
    fibers.Keys == m.Keys && forall f :: f in m && !m[f].Awaiting? ==> fibers[f].fd < 0
  }

  lemma ClearedShows(s: Sched, m: Modes, fs: seq<Fid>)
    requires Shows(s, m) && forall f :: f in fs ==> f in m && m[f].Ready?
    ensures Shows(s.(fibers := Cleared(s.fibers, fs)), m)
  {
    hide RingsOk, TimersOk, PollOk;
    var fibers := Cleared(s.fibers, fs);
    forall f | f in m
      ensures RecordOk(fibers[f], m[f])
    {
      assert RecordOk(s.fibers[f], m[f]);
    }
  }

  lemma WokenAreReady(s: Sched, m: Modes, op: Op)
    requires Shows(s, m) && Enabled(s, m, op)
    ensures forall f :: f in Woken(s, m, op) ==> f in StepModes(s, m, op) && StepModes(s, m, op)[f].Ready?
  {
    hide LegalOutcome, Waited, RemoveAwaiters, RingsOk, RecordsOk, TimersOk;
    match op {
      case OpUnwatch(fd) => UnwatchPoll(s.poll, m, fd);
      case OpWait(outcome) => WaitPoll(s.poll, m, outcome);
      case _ =>
    }
  }

  lemma NoneStale(s: Sched, m: Modes)
    requires Current(s.fibers, m)
    ensures forall f :: f in m ==> !Stale(s, m, f)
  {
  }

  /** With current records no step can go wrong. */
  lemma CurrentNeverFaults(s: Sched, m: Modes, op: Op)
    requires Shows(s, m) && Current(s.fibers, m) && Enabled(s, m, op)
    ensures !Faults(s, op)
  {
    hide Shows, Current, CanWakeAll;
    NoneStale(s, m);
    if op.OpExpire? {
      ExpireShows(s, m, op.now, op.batch);
      ExpiredMembers(s, m, op.batch);
    }
  }

  lemma ExpiredMembers(s: Sched, m: Modes, batch: seq<Fid>)
    requires Shows(s, m) && forall f :: f in batch ==> f in s.timers
    ensures forall f :: f in batch ==> f in m
  {
  }

  /** Waking resets the descriptor of every fiber that still had one. */
  lemma {:induction false} WakeAllClears(s: Sched, batch: seq<Fid>)
    requires CanWakeAll(s, batch)
    ensures var fibers := WakeAll(s, batch).fibers;
      && fibers.Keys == s.fibers.Keys
      && forall f :: f in s.fibers ==> if f in batch then fibers[f].fd < 0 else fibers[f] == s.fibers[f]
    decreases |batch|
  {
    if batch != [] {
      WakeAllClears(s, batch[1..]);
      assert forall f :: f in batch <==> f == batch[0] || f in batch[1..];
    }
  }

  lemma ExpireKeepsCurrent(s: Sched, m: Modes, batch: seq<Fid>)
    requires CanWakeAll(Expired(s, batch), batch) && Current(s.fibers, m)
    ensures Current(Expire(s, batch).fibers, ExpireModes(m, batch))
  {
    hide WakeAll, CanWakeAll;
    WakeAllClears(Expired(s, batch), batch);
  }

  lemma DeadHead(s: Sched, m: Modes)
    requires Shows(s, m) && s.dead != []
    ensures s.dead[0] in m && m[s.dead[0]].Dead?
  {
    assert s.dead[0] in s.dead;
  }

  lemma RunningFiber(s: Sched, m: Modes)
    requires Shows(s, m) && Active(s)
    ensures s.running.value in m && m[s.running.value].Running?
  {
  }

  lemma StaysCurrent(s: Sched, m: Modes, op: Op, f: Fid)
    requires Shows(s, m) && Current(s.fibers, m) && Enabled(s, m, op) && !Faults(s, op)
    requires f in StepModes(s, m, op) && !StepModes(s, m, op)[f].Awaiting?
    ensures f in RepairedStep(s, m, op).fibers ==> RepairedStep(s, m, op).fibers[f].fd < 0
  {
    hide Inv, LegalOutcome, Waited, PollOk, TimersOk, RingsOk, RecordsOk, DropTimers, Expire, CanWakeAll, AddAwaiter, RemoveAwaiters, Create, Destroy;
    if s.ready != [] {
      ReadyHead(s, m);
    }
    if s.dead != [] {
      DeadHead(s, m);
    }
    if Active(s) {
      RunningFiber(s, m);
    }
    if op.OpExpire? {
      ExpireKeepsCurrent(s, m, op.batch);
    }
  }

  lemma SameKeys(s: Sched, m: Modes)
    requires Shows(s, m)
    ensures s.fibers.Keys == m.Keys
  {
  }

  lemma RepairedKeepsCurrent(s: Sched, m: Modes, op: Op)
    requires Shows(s, m) && Current(s.fibers, m) && Enabled(s, m, op) && !Faults(s, op)
    ensures Current(RepairedStep(s, m, op).fibers, StepModes(s, m, op))
  {
    hide Shows, Enabled, Faults, Step, StepModes, Woken;
    StepShows(s, m, op);
    SameKeys(Step(s, m, op), StepModes(s, m, op));
    forall f | f in StepModes(s, m, op) && !StepModes(s, m, op)[f].Awaiting?
      ensures RepairedStep(s, m, op).fibers[f].fd < 0
    {
      StaysCurrent(s, m, op, f);
    }
  }

  ghost predicate RepairedFollows(a: State, op: Op, b: State) {
    Enabled(a.s, a.m, op) && !Faults(a.s, op) && b == State(RepairedStep(a.s, a.m, op), StepModes(a.s, a.m, op))
  }

  ghost predicate IsRepairedRun(states: seq<State>, ops: seq<Op>) {
    && |states| == |ops| + 1
    && states[0] == State(Initial(), map[])
    && forall i :: 0 <= i < |ops| ==> RepairedFollows(states[i], ops[i], states[i + 1])
  }

  lemma {:induction false} RepairedStates(states: seq<State>, ops: seq<Op>, i: nat)
    requires IsRepairedRun(states, ops) && i < |states|
    ensures Shows(states[i].s, states[i].m) && Current(states[i].s.fibers, states[i].m)
  {
    hide Shows, Current, Enabled, Faults, Step, StepModes, Woken;
    if i == 0 {
      InitialShows();
      InitialCurrent();
    } else {
      RepairedStates(states, ops, i - 1);
      var a, op := states[i - 1], ops[i - 1];
      assert RepairedFollows(a, op, states[i]);
      StepShows(a.s, a.m, op);
      WokenAreReady(a.s, a.m, op);
      ClearedShows(Step(a.s, a.m, op), StepModes(a.s, a.m, op), Woken(a.s, a.m, op));
      RepairedKeepsCurrent(a.s, a.m, op);
    }
  }

  lemma InitialCurrent()
    ensures Current(Initial().fibers, map[])
  {
  }

  /** With the reset on every wake-up no run goes wrong, whatever its fibers do. */
  lemma RepairedRunsNeverFault(states: seq<State>, ops: seq<Op>, i: nat, op: Op)
    requires IsRepairedRun(states, ops) && i < |states| && Enabled(states[i].s, states[i].m, op)
    ensures !Faults(states[i].s, op)
  {
    RepairedStates(states, ops, i);
    CurrentNeverFaults(states[i].s, states[i].m, op);
  }

  /** And a record names a descriptor exactly while its fiber is on one of that descriptor's awaiter queues. */
  lemma DescriptorMeansWaiting(states: seq<State>, ops: seq<Op>, i: nat, f: Fid)
    requires IsRepairedRun(states, ops) && i < |states| && f in states[i].m
    ensures f in states[i].s.fibers
    ensures states[i].s.fibers[f].fd >= 0 <==> Awaits(states[i].s.poll, f, states[i].s.fibers[f].fd)
  {
    hide IsRepairedRun, Enabled, Inv;
    RepairedStates(states, ops, i);
    var s, m := states[i].s, states[i].m;
    assert RecordOk(s.fibers[f], m[f]);
    AwaitsIsPlace(s.poll, PlacesOf(m), f, s.fibers[f].fd);
  }
}

/** Async.cxx over whole runs: every interleaving of the scheduler's thread and the workers. */
module AsyncRuns {
  import opened Sequences
  import opened AsyncSpec
  import opened AsyncPlaces
  import opened AsyncProtocol

  ghost predicate Inv(s: Async) {
    && Owned(s) && Placed(s) && Logged(s) && Counted(s) && Tallied(s) && Polled(s)
    && Suspends(s) && Owed(s) && Staffed(s) && Attended(s)
  }

  lemma InitialInv()
    ensures Inv(Initial())
  {
    assert Unreturned([]) == {};
  }

  // ----- every step that can be taken is safe -----

  lemma WorkerIsSafe(s: Async, w: nat)
    requires Inv(s) && WorkerCan(s, w)
    ensures WorkerSafe(s, w)
  {
    hide Holds, Hands, Counted, Tallied, Polled, Suspends, Owed, Owned, Staffed, Logged;
    if s.workers[w].Taking? {
      assert s.pending != [];
      FirstIs(s.pending, s.jobs, Pending);
    } else if InHand(s.workers[w]).Some? {
      HandIs(s.workers, s.jobs, w, InHand(s.workers[w]).value);
    }
  }

  lemma SomeUnreturned(jobs: seq<Job>, j: JobId)
    requires j < |jobs| && !jobs[j].where.Returned?
    ensures |Unreturned(jobs)| > 0
  {
    assert j in Unreturned(jobs);
  }

  lemma PollIsSafe(s: Async)
    requires Inv(s) && s.main.Polling?
    ensures PollSafe(s)
  {
    hide Hands, Owned, Owed, Staffed, Attended, Logged, Unreturned;
    if s.main.step.Draining? && s.main.batch != [] {
      var j := s.main.batch[0];
      FirstIs(s.main.batch, s.jobs, Batch);
      SomeUnreturned(s.jobs, j);
      assert FiberWaits(s, j);
    }
  }

  lemma CanIsSafe(s: Async, op: Op)
    requires Inv(s) && Can(s, op)
    ensures Safe(s, op)
  {
    hide Inv, WorkerSafe, PollSafe;
    match op {
      case OpWorker(w) => WorkerIsSafe(s, w);
      case OpAdvance(_) =>
        if s.main.Polling? {
          PollIsSafe(s);
        } else if s.main.Submitting? {
          NoSecondPoller(s);
        }
      case _ =>
    }
  }

  lemma NoSecondPoller(s: Async)
    requires Inv(s) && s.main.Submitting?
    ensures s.poller.NoPoller? <==> s.jobCount == 0
  {
  }

  // ----- preservation -----

  lemma WorkerInv(s: Async, w: nat)
    requires Inv(s) && WorkerCan(s, w) && WorkerSafe(s, w)
    ensures Inv(WorkerStep(s, w))
  {
    hide JobOwned, DoneOwned, Placed, Logged, Counted, Tallied, Polled, Suspends, Owed, Staffed, Attended, WorkerStep, WorkerCan, WorkerSafe;
    WorkerOwned(s, w);
    WorkerPlaced(s, w);
    WorkerLogged(s, w);
    WorkerCounted(s, w);
    WorkerTallied(s, w);
    WorkerPolled(s, w);
    WorkerSuspends(s, w);
    WorkerOwed(s, w);
    WorkerStaffed(s, w);
    WorkerAttended(s, w);
  }

  lemma SubmitInv(s: Async, to: Option<nat>)
    requires Inv(s) && s.main.Submitting? && SubmitCan(s, to)
    ensures Inv(SubmitStep(s, to))
  {
    hide JobOwned, DoneOwned, Placed, Logged, Counted, Tallied, Polled, Suspends, Owed, Staffed, Attended, SubmitStep, SubmitCan;
    SubmitOwned(s, to);
    SubmitPlaced(s, to);
    SubmitLogged(s, to);
    SubmitCounted(s, to);
    SubmitTallied(s, to);
    SubmitPolled(s, to);
    SubmitSuspends(s, to);
    SubmitOwed(s, to);
    SubmitStaffed(s, to);
    SubmitAttended(s, to);
  }

  lemma PollInv(s: Async)
    requires Inv(s) && s.main.Polling? && PollCan(s) && PollSafe(s)
    ensures Inv(PollStep(s))
  {
    hide JobOwned, DoneOwned, Placed, Logged, Counted, Tallied, Suspends, Owed, Staffed, Attended, PollStep, PollCan, PollSafe;
    PollOwned(s);
    PollPlaced(s);
    PollLogged(s);
    PollCounted(s);
    PollTallied(s);
    PollPolled(s);
    PollSuspends(s);
    PollOwed(s);
    PollStaffed(s);
    OtherAttended(s, OpAdvance(None));
  }

  lemma CloseInv(s: Async)
    requires Inv(s) && s.main.Closing? && CloseCan(s)
    ensures Inv(CloseStep(s))
  {
    hide Holds, Hands, JobOwned, DoneOwned, Logged, Unreturned, Tallied, Suspends, HasJob, Staffed, Attended;
    CloseOwned(s);
    ClosePlaced(s);
    CloseLogged(s);
    CloseTallied(s);
    CloseSuspends(s);
    CloseStaffed(s);
    OtherAttended(s, OpAdvance(None));
  }

  lemma OtherInv(s: Async, op: Op)
    requires Inv(s) && Can(s, op) && !op.OpAdvance? && !op.OpWorker?
    ensures Inv(Step(s, op))
  {
    hide Holds, Hands, JobOwned, DoneOwned, Logged, Unreturned, Tallied, Polled, Suspends, HasJob, Staffed, Attended;
    OtherOwned(s, op);
    OtherPlaced(s, op);
    OtherLogged(s, op);
    OtherTallied(s, op);
    OtherPolled(s, op);
    OtherSuspends(s, op);
    OtherStaffed(s, op);
    OtherAttended(s, op);
  }

  lemma StepInv(s: Async, op: Op)
    requires Inv(s) && Can(s, op)
    ensures Safe(s, op) && Inv(Step(s, op))
  {
    hide Inv, WorkerSafe, PollSafe, WorkerCan, PollCan, SubmitCan, CloseCan, WorkerStep, PollStep, SubmitStep, CloseStep;
    CanIsSafe(s, op);
    match op {
      case OpAdvance(to) =>
        match s.main {
          case Submitting(_, _, _) => SubmitInv(s, to);
          case Polling(_, _) => PollInv(s);
          case Closing(_) => CloseInv(s);
          case Free =>
        }
      case OpWorker(w) => WorkerInv(s, w);
      case _ => OtherInv(s, op);
    }
  }

  // ----- runs -----

  ghost predicate Follows(s: Async, op: Op, s': Async) {
    Can(s, op) && Safe(s, op) && s' == Step(s, op)
  }

  ghost predicate IsRun(states: seq<Async>, ops: seq<Op>) {
    && |states| == |ops| + 1
    && states[0] == Initial()
    && forall i :: 0 <= i < |ops| ==> Follows(states[i], ops[i], states[i + 1])
  }

  lemma {:induction false} EveryStateInv(states: seq<Async>, ops: seq<Op>, i: nat)
    requires IsRun(states, ops) && i < |states|
    ensures Inv(states[i])
  {
    hide Inv, Can, Safe, Step;
    if i == 0 {
      InitialInv();
    } else {
      EveryStateInv(states, ops, i - 1);
      assert Follows(states[i - 1], ops[i - 1], states[i]);
      StepInv(states[i - 1], ops[i - 1]);
    }
  }

  /** No interleaving ever takes from an empty queue, blocks in the read, splits an empty ring, watches the eventfd
      twice, starts a second poller, or resumes a fiber that is not suspended. */
  lemma NothingUnsafe(states: seq<Async>, ops: seq<Op>, i: nat, op: Op)
    requires IsRun(states, ops) && i < |states| && Can(states[i], op)
    ensures Safe(states[i], op)
  {
    EveryStateInv(states, ops, i);
    CanIsSafe(states[i], op);
  }

  // ----- what holds in every reachable state -----

  /** The places a job can be in; exactly one of them is true. */
  ghost predicate OnePlace(s: Async, j: JobId) {
    var inHand := exists w :: 0 <= w < |s.workers| && InHand(s.workers[w]) == Some(j);
    && (j in s.pending || inHand || j in s.done || j in BatchOf(s.main) || j in s.resumed)
    && !(j in s.pending && inHand) && !(j in s.pending && j in s.done) && !(j in s.pending && j in BatchOf(s.main))
    && !(j in s.pending && j in s.resumed) && !(inHand && j in s.done) && !(inHand && j in BatchOf(s.main))
    && !(inHand && j in s.resumed) && !(j in s.done && j in BatchOf(s.main)) && !(j in s.done && j in s.resumed)
    && !(j in BatchOf(s.main) && j in s.resumed)
    && (forall v, w :: 0 <= v < w < |s.workers| && InHand(s.workers[v]) == Some(j) ==> InHand(s.workers[w]) != Some(j))
  }

  lemma PlaceIsWhere(s: Async, j: JobId)
    requires Inv(s) && j < |s.jobs|
    ensures OnePlace(s, j)
  {
    hide Logged, Counted, Tallied, Polled, Suspends, Owed, Staffed, Attended, Owned;
    var where := s.jobs[j].where;
    if where.At? {
      assert InHand(s.workers[where.w]) == Some(j);
    }
    forall w | 0 <= w < |s.workers| && InHand(s.workers[w]) == Some(j)
      ensures where == At(w)
    {
    }
  }

  /** Every submitted job is in exactly one place, once; its tasks have run in index order, none twice, and it is
      returned only after the last; no job is returned twice. */
  lemma JobsAreConserved(states: seq<Async>, ops: seq<Op>, i: nat, j: JobId)
    requires IsRun(states, ops) && i < |states| && j < |states[i].jobs|
    ensures var s := states[i];
      && OnePlace(s, j)
      && Distinct(s.pending) && Distinct(s.done) && Distinct(BatchOf(s.main)) && Distinct(s.resumed)
      && |s.jobs[j].ran| <= s.jobs[j].taskCount && s.jobs[j].ran == Upto(|s.jobs[j].ran|)
      && (j in s.done || j in BatchOf(s.main) || j in s.resumed ==> s.jobs[j].ran == Upto(s.jobs[j].taskCount))
  {
    hide IsRun, Counted, Tallied, Polled, Suspends, Owed, Staffed, Attended, Owned;
    EveryStateInv(states, ops, i);
    PlaceIsWhere(states[i], j);
    assert RanOk(states[i].jobs[j], states[i].workers);
  }

  /** Whenever the done mutex is free, the eventfd counter is the length of the done queue. */
  lemma CounterIsLength(states: seq<Async>, ops: seq<Op>, i: nat)
    requires IsRun(states, ops) && i < |states| && states[i].doneMutex.None?
    ensures states[i].counter == |states[i].done|
  {
    hide IsRun, Holds, Hands, Logged, Counted, Polled, Suspends, Owed, Staffed, Attended;
    EveryStateInv(states, ops, i);
  }

  /** At every fiber switch there is a poller exactly when some job is not yet returned, jobCount_ counts these jobs,
      and the fibers suspended here are exactly theirs. */
  lemma PollerServesJobs(states: seq<Async>, ops: seq<Op>, i: nat)
    requires IsRun(states, ops) && i < |states| && states[i].main.Free?
    ensures var s := states[i];
      && s.jobCount == |Unreturned(s.jobs)|
      && (s.poller.NoPoller? <==> Unreturned(s.jobs) == {})
      && (s.watched <==> s.poller.AtWait? || s.poller.Ready?)
      && (forall f :: f in s.suspended <==> HasJob(s.jobs, f))
  {
    hide IsRun, Holds, Hands, Logged, Tallied, Staffed, Attended, Owned;
    EveryStateInv(states, ops, i);
    var s := states[i];
    forall f | HasJob(s.jobs, f)
      ensures f in s.suspended
    {
      var j: nat :| j < |s.jobs| && !s.jobs[j].where.Returned? && s.jobs[j].fiber == f;
      assert FiberWaits(s, j);
    }
  }

  /** No wake-up is lost: before shutdown, once the signal of the last queued job has been sent, pending jobs leave
      some worker not parked, and while any worker is parked there are as many others on their way as jobs. */
  lemma NoLostWakeup(states: seq<Async>, ops: seq<Op>, i: nat)
    requires IsRun(states, ops) && i < |states|
    requires var s := states[i]; !s.workIsDone && s.pending != [] && !Unsignalled(s.main)
    ensures var s := states[i];
      && (exists w :: 0 <= w < WORKERS && w < |s.workers| && !s.workers[w].Parked? && !s.workers[w].Exited?)
      && (AnyParked(s.workers) ==> |s.pending| <= CountComing(s.workers))
  {
    hide IsRun, Placed, Logged, Counted, Tallied, Polled, Suspends, Owed, JobOwned, DoneOwned;
    EveryStateInv(states, ops, i);
    var s := states[i];
    if AnyParked(s.workers) {
      SomeComing(s.workers);
      var w :| 0 <= w < |s.workers| && Coming(s.workers[w]);
      assert !s.workers[w].Parked?;
    } else {
      assert !s.workers[0].Parked?;
    }
  }

  // ----- history only grows -----

  /** Jobs keep their fiber and tasks, the tasks run so far stay run, and returned jobs stay returned. */
  ghost predicate Grows(s: Async, s': Async) {
    && |s.jobs| <= |s'.jobs| && s.resumed <= s'.resumed
    && forall j :: 0 <= j < |s.jobs| ==>
        s'.jobs[j].fiber == s.jobs[j].fiber && s'.jobs[j].taskCount == s.jobs[j].taskCount && s.jobs[j].ran <= s'.jobs[j].ran
  }

  lemma WorkerGrows(s: Async, w: nat)
    requires WorkerCan(s, w) && WorkerSafe(s, w)
    ensures Grows(s, WorkerStep(s, w))
  {
  }

  lemma StepGrows(s: Async, op: Op)
    requires Can(s, op) && Safe(s, op)
    ensures Grows(s, Step(s, op))
  {
    hide AnyParked, WorkerStep, WorkerSafe, WorkerCan;
    if op.OpWorker? {
      WorkerGrows(s, op.w);
    }
  }

  lemma GrowsOn(a: Async, b: Async, c: Async)
    requires Grows(a, b) && Grows(b, c)
    ensures Grows(a, c)
  {
    forall j | 0 <= j < |a.jobs|
      ensures a.jobs[j].ran <= c.jobs[j].ran
    {
      assert a.jobs[j].ran <= b.jobs[j].ran <= c.jobs[j].ran;
    }
  }

  lemma {:induction false} RunGrows(states: seq<Async>, ops: seq<Op>, i: nat, k: nat)
    requires IsRun(states, ops) && i <= k < |states|
    ensures Grows(states[i], states[k])
    decreases k - i
  {
    hide Can, Safe, Step, Grows;
    if i == k {
      GrowsSame(states[i]);
    } else {
      RunGrows(states, ops, i, k - 1);
      assert Follows(states[k - 1], ops[k - 1], states[k]);
      StepGrows(states[k - 1], ops[k - 1]);
      GrowsOn(states[i], states[k - 1], states[k]);
    }
  }

  lemma GrowsSame(s: Async)
    ensures Grows(s, s)
  {
  }

  // ----- order -----

  /** The pending queue holds the jobs submitted last, in the order of submission. */
  ghost predicate InOrder(s: Async) {
    && |s.pending| <= |s.jobs|
    && forall i :: 0 <= i < |s.pending| ==> s.pending[i] == |s.jobs| - |s.pending| + i
  }

  lemma StepInOrder(s: Async, op: Op)
    requires InOrder(s) && Can(s, op) && Safe(s, op)
    ensures InOrder(Step(s, op))
  {
    hide AnyParked;
  }

  /** Workers take jobs up in the order of submission: a pending job waits only behind earlier ones, and none
      submitted later has been taken. */
  lemma {:induction false} TakenInOrder(states: seq<Async>, ops: seq<Op>, i: nat)
    requires IsRun(states, ops) && i < |states|
    ensures InOrder(states[i])
    ensures forall j, k :: j in states[i].pending && j < k < |states[i].jobs| ==> k in states[i].pending
  {
    hide Can, Safe, Step;
    if i > 0 {
      TakenInOrder(states, ops, i - 1);
      assert Follows(states[i - 1], ops[i - 1], states[i]);
      StepInOrder(states[i - 1], ops[i - 1]);
    }
    var s := states[i];
    forall j, k | j in s.pending && j < k < |s.jobs|
      ensures k in s.pending
    {
      assert s.pending[k - (|s.jobs| - |s.pending|)] == k;
    }
  }

  /** The jobs in the order they were done: those returned, then those being drained, then the done queue. */
  function Finished(s: Async): seq<JobId> {
    s.resumed + (BatchOf(s.main) + s.done)
  }

  lemma PollFinished(s: Async)
    requires BatchIsLocal(s.main) && s.main.Polling? && PollCan(s) && PollSafe(s)
    ensures Finished(PollStep(s)) == Finished(s)
  {
    hide Move, MoveAll;
    var s' := PollStep(s);
    if s.main.step.Splitting? {
      assert s'.main.batch + s'.done == s.main.batch + s.done;
    } else if s.main.step.Draining? && s.main.batch != [] {
      assert s.resumed + (s.main.batch + s.done) == s'.resumed + (s'.main.batch + s'.done);
    }
  }

  lemma WorkerFinished(s: Async, w: nat)
    requires WorkerCan(s, w) && WorkerSafe(s, w)
    ensures Finished(WorkerStep(s, w)) == Finished(s) + if s.workers[w].Posting? then [s.workers[w].job] else []
  {
    hide Move, Log;
    if s.workers[w].Posting? {
      assert s.resumed + (BatchOf(s.main) + (s.done + [s.workers[w].job])) == s.resumed + (BatchOf(s.main) + s.done) + [s.workers[w].job];
    } else {
      assert Finished(s) + [] == Finished(s);
    }
  }

  /** The order changes only by a worker adding the job it has just done at the end. */
  lemma StepFinished(s: Async, op: Op)
    requires BatchIsLocal(s.main) && Can(s, op) && Safe(s, op)
    ensures Finished(Step(s, op)) ==
      Finished(s) + if op.OpWorker? && s.workers[op.w].Posting? then [s.workers[op.w].job] else []
  {
    hide AnyParked, WorkerStep, PollStep, WorkerCan, WorkerSafe, PollSafe;
    assert Finished(s) + [] == Finished(s);
    if op.OpWorker? {
      WorkerFinished(s, op.w);
    } else if op.OpAdvance? && s.main.Polling? {
      PollFinished(s);
    }
  }

  /** Fibers are made ready in the order in which their jobs were done. */
  lemma {:induction false} ReturnedInOrder(states: seq<Async>, ops: seq<Op>, i: nat, k: nat)
    requires IsRun(states, ops) && i <= k < |states|
    ensures Finished(states[i]) <= Finished(states[k]) && states[k].resumed <= Finished(states[k])
    decreases k - i
  {
    hide Can, Safe, Step, Finished;
    ResumedFirst(states[k]);
    if i < k {
      ReturnedInOrder(states, ops, i, k - 1);
      EveryStateInv(states, ops, k - 1);
      LocalBatch(states[k - 1]);
      assert Follows(states[k - 1], ops[k - 1], states[k]);
      StepFinished(states[k - 1], ops[k - 1]);
    }
  }

  lemma ResumedFirst(s: Async)
    ensures s.resumed <= Finished(s)
  {
  }

  lemma LocalBatch(s: Async)
    requires Inv(s)
    ensures BatchIsLocal(s.main)
  {
  }

  // ----- no deadlock -----

  /** A step by a thread at work, not a new call from outside nor an unasked return of cond_wait. */
  predicate Internal(op: Op) {
    op.OpAdvance? || op.OpPoll? || op.OpEvent? || op.OpWorker?
  }

  /** Whoever holds the job mutex can go on. */
  lemma JobHolderMoves(s: Async) returns (op: Op)
    requires Inv(s) && s.jobMutex.Some?
    ensures Can(s, op) && Internal(op)
  {
    hide Holds, Hands, Logged, Counted, Tallied, Polled, Suspends, Owed, Attended, DoneOwned;
    match s.jobMutex.value {
      case MainThread =>
        if to :| 0 <= to < |s.workers| && s.workers[to].Parked? {
          op := OpAdvance(Some(to));
        } else {
          op := OpAdvance(None);
        }
      case WorkerThread(w) => op := OpWorker(w);
    }
  }

  lemma DoneHolderMoves(s: Async) returns (op: Op)
    requires Inv(s) && s.doneMutex.Some?
    ensures Can(s, op) && Internal(op)
  {
    hide Holds, Hands, Logged, Counted, Tallied, Polled, Suspends, Owed, Attended, JobOwned;
    match s.doneMutex.value {
      case MainThread => op := OpAdvance(None);
      case WorkerThread(w) => op := OpWorker(w);
    }
  }

  /** A worker that is neither parked nor gone can go on, or waits for a mutex whose holder can. */
  lemma WorkerMoves(s: Async, w: nat) returns (op: Op)
    requires Inv(s) && w < |s.workers| && !s.workers[w].Parked? && !s.workers[w].Exited?
    ensures Can(s, op) && Internal(op)
  {
    hide Inv;
    if WorkerCan(s, w) {
      op := OpWorker(w);
    } else if s.workers[w].Finishing? {
      op := DoneHolderMoves(s);
    } else {
      op := JobHolderMoves(s);
    }
  }

  /** With a job still out and the scheduler's thread free, the job, the eventfd or the poller can go on. */
  lemma OutstandingMoves(s: Async, j: JobId) returns (op: Op)
    requires Inv(s) && s.main.Free? && j < |s.jobs| && !s.jobs[j].where.Returned?
    ensures Can(s, op) && Internal(op)
  {
    SomeUnreturned(s.jobs, j);
    FreePoller(s);
    if s.poller.Called? || s.poller.Ready? {
      op := OpPoll;
    } else if s.counter > 0 {
      op := OpEvent;
    } else {
      op := JobMoves(s, j);
    }
  }

  lemma FreePoller(s: Async)
    requires Inv(s) && s.main.Free? && |Unreturned(s.jobs)| > 0
    ensures s.poller.Called? || s.poller.Ready? || (s.poller.AtWait? && s.watched)
  {
    hide Holds, Hands, Logged, Suspends, Owed, Staffed, Attended, Owned;
  }

  lemma JobMoves(s: Async, j: JobId) returns (op: Op)
    requires Inv(s) && s.main.Free? && s.counter == 0 && j < |s.jobs| && !s.jobs[j].where.Returned?
    ensures Can(s, op) && Internal(op)
  {
    hide Logged, Counted, Polled, Suspends, Owed, CountComing, JobOwned, DoneOwned;
    if s.doneMutex.Some? {
      op := DoneHolderMoves(s);
      return;
    }
    assert s.done == [];
    if s.jobs[j].where.At? {
      op := WorkerMoves(s, s.jobs[j].where.w);
    } else {
      assert j in s.pending;
      var w := Attendant(s);
      op := WorkerMoves(s, w);
    }
  }

  lemma Attendant(s: Async) returns (w: nat)
    requires Staffed(s) && Attended(s) && !s.workIsDone && s.pending != [] && !Unsignalled(s.main)
    ensures w < |s.workers| && !s.workers[w].Parked? && !s.workers[w].Exited?
  {
    if AnyParked(s.workers) {
      SomeComing(s.workers);
      w :| 0 <= w < |s.workers| && Coming(s.workers[w]);
    } else {
      w := 0;
    }
  }

  /** Until the destructor is called, no interleaving gets stuck while a job is not yet returned. */
  lemma NeverStuck(states: seq<Async>, ops: seq<Op>, i: nat, j: JobId) returns (op: Op)
    requires IsRun(states, ops) && i < |states| && !states[i].main.Closing?
    requires j < |states[i].jobs| && !states[i].jobs[j].where.Returned?
    ensures Can(states[i], op) && Internal(op)
  {
    hide IsRun, Inv, AnyParked;
    EveryStateInv(states, ops, i);
    var s := states[i];
    if s.main.Free? {
      op := OutstandingMoves(s, j);
    } else {
      op := MainMoves(s);
    }
  }

  lemma MainMoves(s: Async) returns (op: Op)
    requires Inv(s) && (s.main.Submitting? || s.main.Polling?)
    ensures Can(s, op) && Internal(op)
  {
    hide Inv;
    if s.main.Submitting? && s.main.at.Locking? && s.jobMutex.Some? {
      op := JobHolderMoves(s);
    } else if s.main.Polling? && s.main.step.LockingDone? && s.doneMutex.Some? {
      op := DoneHolderMoves(s);
    } else if to :| 0 <= to < |s.workers| && s.workers[to].Parked? {
      op := OpAdvance(Some(to));
    } else {
      op := OpAdvance(None);
    }
  }

  // ----- shutdown -----

  predicate Joining(s: Async) {
    s.main.Closing? && s.main.stage.Joining?
  }

  /** How many steps a worker still takes before it exits, once it has been told to. */
  function Distance(p: Worker, jobs: seq<Job>): nat {
    match p
    case Exited => 0
    case Leaving => 1
    case Testing => 2
    case Fetching => 3
    case Roused => 3
    case Parked => 4
    case Releasing => 4
    case Writing => 5
    case Posting(_) => 6
    case Finishing(_) => 7
    case Working(j, next) => if j < |jobs| && next < jobs[j].taskCount then 8 + (jobs[j].taskCount - next) else 8
    case Taken(j) => if j < |jobs| then 9 + jobs[j].taskCount else 9
    case Taking => 9
  }

  function Remaining(workers: seq<Worker>, jobs: seq<Job>): nat {
    if workers == [] then 0 else Distance(workers[0], jobs) + Remaining(workers[1..], jobs)
  }

  ghost predicate SameTasks(a: seq<Job>, b: seq<Job>) {
    |a| == |b| && forall j :: 0 <= j < |a| ==> a[j].taskCount == b[j].taskCount
  }

  lemma {:induction false} RemainingUpdate(workers: seq<Worker>, a: seq<Job>, b: seq<Job>, w: nat, p: Worker)
    requires w < |workers| && SameTasks(a, b)
    ensures Remaining(workers[w := p], b) + Distance(workers[w], a) == Remaining(workers, a) + Distance(p, b)
  {
    if w == 0 {
      assert workers[w := p][1..] == workers[1..];
      RemainingSame(workers[1..], a, b);
    } else {
      assert workers[w := p][1..] == workers[1..][w - 1 := p];
      RemainingUpdate(workers[1..], a, b, w - 1, p);
    }
  }

  lemma {:induction false} RemainingSame(workers: seq<Worker>, a: seq<Job>, b: seq<Job>)
    requires SameTasks(a, b)
    ensures Remaining(workers, a) == Remaining(workers, b)
  {
    if workers != [] {
      RemainingSame(workers[1..], a, b);
    }
  }

  lemma Nearer(s: Async, w: nat)
    requires Staffed(s) && s.workIsDone && WorkerCan(s, w) && WorkerSafe(s, w)
    ensures w < |s.workers| && SameTasks(s.jobs, WorkerStep(s, w).jobs) && |WorkerStep(s, w).workers| == |s.workers|
    ensures WorkerStep(s, w).workers == s.workers[w := WorkerStep(s, w).workers[w]]
    ensures Distance(WorkerStep(s, w).workers[w], WorkerStep(s, w).jobs) < Distance(s.workers[w], s.jobs)
  {
  }

  /** After the broadcast no worker is parked, only workers move, and each move brings them nearer to their exit. */
  lemma JoiningEnds(states: seq<Async>, ops: seq<Op>, i: nat, op: Op)
    requires IsRun(states, ops) && i < |states| && Joining(states[i]) && Can(states[i], op)
    ensures !AnyParked(states[i].workers) && op.OpWorker? && Safe(states[i], op)
    ensures Joining(Step(states[i], op))
    ensures Remaining(Step(states[i], op).workers, Step(states[i], op).jobs) < Remaining(states[i].workers, states[i].jobs)
  {
    hide IsRun, WorkerSafe, WorkerStep, WorkerCan, Placed, Logged, Counted, Tallied, Polled, Suspends, Owed, Attended, Owned;
    EveryStateInv(states, ops, i);
    var s := states[i];
    CanIsSafe(s, op);
    assert op.OpWorker?;
    WorkerKeepsMain(s, op.w);
    Nearer(s, op.w);
    RemainingUpdate(s.workers, s.jobs, WorkerStep(s, op.w).jobs, op.w, WorkerStep(s, op.w).workers[op.w]);
  }

  lemma WorkerKeepsMain(s: Async, w: nat)
    requires WorkerCan(s, w) && WorkerSafe(s, w)
    ensures WorkerStep(s, w).main == s.main
  {
  }

  /** The destructor's joins return: as long as some worker has not exited, one can move. */
  lemma JoiningNeverStuck(states: seq<Async>, ops: seq<Op>, i: nat, w: nat) returns (op: Op)
    requires IsRun(states, ops) && i < |states| && Joining(states[i])
    requires w < |states[i].workers| && !states[i].workers[w].Exited?
    ensures Can(states[i], op) && op.OpWorker?
  {
    hide IsRun, Placed, Logged, Counted, Tallied, Polled, Suspends, Owed, Attended, Owned;
    EveryStateInv(states, ops, i);
    op := WorkerMoves(states[i], w);
  }
}

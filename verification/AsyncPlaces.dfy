/** Async.cxx: who holds each mutex and where each job is, kept by every step. */
module AsyncPlaces {
  import opened Sequences
  import opened AsyncSpec

  // ----- mutual exclusion -----

  predicate HoldsJob(p: Worker) {
    p.Testing? || p.Taking? || p.Taken? || p.Leaving?
  }

  predicate HoldsDone(p: Worker) {
    p.Posting? || p.Writing? || p.Releasing?
  }

  predicate MainHoldsJob(m: Main) {
    match m
    case Submitting(_, _, at) => at.Inserting? || at.Signalling? || at.Unlocking?
    case Closing(stage) => stage.Setting? || stage.UnlockingLast?
    case _ => false
  }

  predicate MainHoldsDone(m: Main) {
    m.Polling? && (m.step.Reading? || m.step.Splitting? || m.step.UnlockingDone?)
  }

  ghost predicate JobOwned(s: Async) {
    && (s.jobMutex == Some(MainThread) <==> MainHoldsJob(s.main))
    && (forall w: nat :: s.jobMutex == Some(WorkerThread(w)) ==> w < |s.workers|)
    && (forall w :: 0 <= w < |s.workers| ==> (s.jobMutex == Some(WorkerThread(w)) <==> HoldsJob(s.workers[w])))
  }

  ghost predicate DoneOwned(s: Async) {
    && (s.doneMutex == Some(MainThread) <==> MainHoldsDone(s.main))
    && (forall w: nat :: s.doneMutex == Some(WorkerThread(w)) ==> w < |s.workers|)
    && (forall w :: 0 <= w < |s.workers| ==> (s.doneMutex == Some(WorkerThread(w)) <==> HoldsDone(s.workers[w])))
  }

  /** Each mutex is held by exactly the thread whose place in the code says so. */
  ghost predicate Owned(s: Async) {
    |s.workers| == WORKERS && JobOwned(s) && DoneOwned(s)
  }

  lemma WorkerJobOwned(s: Async, w: nat)
    requires JobOwned(s) && WorkerCan(s, w) && WorkerSafe(s, w)
    ensures JobOwned(WorkerStep(s, w))
  {
    hide Move, Log;
  }

  lemma WorkerDoneOwned(s: Async, w: nat)
    requires DoneOwned(s) && WorkerCan(s, w) && WorkerSafe(s, w)
    ensures DoneOwned(WorkerStep(s, w))
  {
    hide Move, Log;
  }

  lemma WorkerOwned(s: Async, w: nat)
    requires Owned(s) && WorkerCan(s, w) && WorkerSafe(s, w)
    ensures Owned(WorkerStep(s, w))
  {
    hide JobOwned, DoneOwned, Move, Log;
    WorkerJobOwned(s, w);
    WorkerDoneOwned(s, w);
  }

  lemma SubmitOwned(s: Async, to: Option<nat>)
    requires Owned(s) && s.main.Submitting? && SubmitCan(s, to)
    ensures Owned(SubmitStep(s, to))
  {
    hide AnyParked;
  }

  lemma PollOwned(s: Async)
    requires Owned(s) && s.main.Polling? && PollCan(s) && PollSafe(s)
    ensures Owned(PollStep(s))
  {
    hide MoveAll, Move;
  }

  lemma CloseOwned(s: Async)
    requires Owned(s) && s.main.Closing? && CloseCan(s)
    ensures Owned(CloseStep(s))
  {
  }

  lemma OtherOwned(s: Async, op: Op)
    requires Owned(s) && Can(s, op) && !op.OpAdvance? && !op.OpWorker?
    ensures Owned(Step(s, op))
  {
  }

  // ----- where each job is -----

  function BatchOf(m: Main): seq<JobId> {
    if m.Polling? then m.batch else []
  }

  /** Between its draining loops the poller holds no jobs. */
  predicate BatchIsLocal(m: Main) {
    m.Polling? && !m.step.UnlockingDone? && !m.step.Draining? ==> m.batch == []
  }

  ghost predicate Holds(queue: seq<JobId>, jobs: seq<Job>, where: Where) {
    && Distinct(queue)
    && (forall j: JobId :: j in queue <==> j < |jobs| && jobs[j].where == where)
  }

  ghost predicate Hands(workers: seq<Worker>, jobs: seq<Job>) {
    && (forall w: nat :: w < |workers| && InHand(workers[w]).Some? ==>
          var j := InHand(workers[w]).value; j < |jobs| && jobs[j].where == At(w))
    && (forall j: JobId :: j < |jobs| && jobs[j].where.At? ==>
          var w := jobs[j].where.w; w < |workers| && InHand(workers[w]) == Some(j))
  }

  /** Every submitted job is in exactly one place: queued, in one worker's hands, done, being drained, or returned. */
  ghost predicate Placed(s: Async) {
    && Holds(s.pending, s.jobs, Pending)
    && Hands(s.workers, s.jobs)
    && Holds(s.done, s.jobs, Done)
    && Holds(BatchOf(s.main), s.jobs, Batch)
    && Holds(s.resumed, s.jobs, Returned)
  }

  lemma HoldsMove(queue: seq<JobId>, jobs: seq<Job>, where: Where, j: JobId, to: Where)
    requires Holds(queue, jobs, where) && j < |jobs| && jobs[j].where != to
    ensures where != to && jobs[j].where != where ==> Holds(queue, Move(jobs, j, to), where)
    ensures where == to ==> Holds(queue + [j], Move(jobs, j, to), to)
    ensures queue != [] && queue[0] == j ==> Holds(queue[1..], Move(jobs, j, to), where)
  {
    if where == to {
      DistinctConcat(queue, [j]);
    }
    if queue != [] && queue[0] == j {
      var rest := queue[1..];
      DistinctTail(queue);
      assert forall y :: y in rest <==> y in queue && y != j;
    }
  }

  lemma HandsMove(workers: seq<Worker>, jobs: seq<Job>, w: nat, p: Worker, j: JobId, to: Where)
    requires Hands(workers, jobs) && j < |jobs| && w < |workers|
    requires (to == At(w) && InHand(p) == Some(j) && InHand(workers[w]).None? && !jobs[j].where.At?)
          || (!to.At? && InHand(p).None? && InHand(workers[w]) == Some(j))
    ensures Hands(workers[w := p], Move(jobs, j, to))
  {
  }

  lemma HandsMoveOther(workers: seq<Worker>, jobs: seq<Job>, j: JobId, to: Where)
    requires Hands(workers, jobs) && j < |jobs| && !to.At? && !jobs[j].where.At?
    ensures Hands(workers, Move(jobs, j, to))
  {
  }

  /** Steps of a worker that only change its place in the code. */
  lemma HandsStay(workers: seq<Worker>, jobs: seq<Job>, w: nat, p: Worker)
    requires Hands(workers, jobs) && w < |workers| && InHand(p) == InHand(workers[w])
    ensures Hands(workers[w := p], jobs)
  {
  }

  lemma LogKeeps(queue: seq<JobId>, jobs: seq<Job>, where: Where, workers: seq<Worker>, j: JobId, task: nat)
    requires j < |jobs|
    ensures Holds(queue, jobs, where) ==> Holds(queue, Log(jobs, j, task), where)
    ensures Hands(workers, jobs) ==> Hands(workers, Log(jobs, j, task))
  {
  }

  lemma NewJob(queue: seq<JobId>, jobs: seq<Job>, where: Where, workers: seq<Worker>, job: Job)
    requires job.where == Pending && job.ran == []
    ensures Holds(queue, jobs, where) && where != Pending ==> Holds(queue, jobs + [job], where)
    ensures Holds(queue, jobs, where) && where == Pending ==> Holds(queue + [|jobs|], jobs + [job], where)
    ensures Hands(workers, jobs) ==> Hands(workers, jobs + [job])
  {
    if Holds(queue, jobs, where) {
      DistinctConcat(queue, [|jobs|]);
    }
  }

  lemma Splits(queue: seq<JobId>, jobs: seq<Job>, where: Where, workers: seq<Worker>, done: seq<JobId>)
    requires Holds(done, jobs, Done) && Holds(queue, jobs, where) && Hands(workers, jobs)
    ensures where != Done && where != Batch ==> Holds(queue, MoveAll(jobs, done, Batch), where)
    ensures Holds([], MoveAll(jobs, done, Batch), Done)
    ensures Holds([], jobs, Batch) ==> Holds(done, MoveAll(jobs, done, Batch), Batch)
    ensures Hands(workers, MoveAll(jobs, done, Batch))
  {
  }

  lemma WorkerPlaced(s: Async, w: nat)
    requires Placed(s) && WorkerCan(s, w) && WorkerSafe(s, w)
    ensures Placed(WorkerStep(s, w))
  {
    hide Holds, Hands, Move, Log;
    var p := s.workers[w];
    if p.Taking? {
      var j := s.pending[0];
      FirstIs(s.pending, s.jobs, Pending);
      QueuesMove(s, j, At(w));
      HandsMove(s.workers, s.jobs, w, Taken(j), j, At(w));
    } else if p.Working? && p.next < s.jobs[p.job].taskCount {
      QueuesLog(s, p.job, p.next);
      HandsStay(s.workers, s.jobs, w, Working(p.job, p.next + 1));
      LogKeeps([], s.jobs, Pending, s.workers[w := Working(p.job, p.next + 1)], p.job, p.next);
    } else if p.Posting? {
      HandIs(s.workers, s.jobs, w, p.job);
      QueuesMove(s, p.job, Done);
      HandsMove(s.workers, s.jobs, w, Writing, p.job, Done);
    } else {
      HandsStay(s.workers, s.jobs, w, WorkerStep(s, w).workers[w]);
    }
  }

  lemma FirstIs(queue: seq<JobId>, jobs: seq<Job>, where: Where)
    requires Holds(queue, jobs, where) && queue != []
    ensures queue[0] < |jobs| && jobs[queue[0]].where == where
  {
    assert queue[0] in queue;
  }

  lemma HandIs(workers: seq<Worker>, jobs: seq<Job>, w: nat, j: JobId)
    requires Hands(workers, jobs) && w < |workers| && InHand(workers[w]) == Some(j)
    ensures j < |jobs| && jobs[j].where == At(w)
  {
  }

  lemma QueuesMove(s: Async, j: JobId, to: Where)
    requires Placed(s) && j < |s.jobs| && s.jobs[j].where != to
    ensures var jobs := Move(s.jobs, j, to);
      && (to != Pending && s.jobs[j].where != Pending ==> Holds(s.pending, jobs, Pending))
      && (to != Done && s.jobs[j].where != Done ==> Holds(s.done, jobs, Done))
      && (to != Batch && s.jobs[j].where != Batch ==> Holds(BatchOf(s.main), jobs, Batch))
      && (to != Returned && s.jobs[j].where != Returned ==> Holds(s.resumed, jobs, Returned))
      && (s.pending != [] && s.pending[0] == j ==> Holds(s.pending[1..], jobs, Pending))
      && (BatchOf(s.main) != [] && BatchOf(s.main)[0] == j ==> Holds(BatchOf(s.main)[1..], jobs, Batch))
      && (to == Done ==> Holds(s.done + [j], jobs, Done))
      && (to == Returned ==> Holds(s.resumed + [j], jobs, Returned))
  {
    hide Holds, Hands, Move;
    HoldsMove(s.pending, s.jobs, Pending, j, to);
    HoldsMove(s.done, s.jobs, Done, j, to);
    HoldsMove(BatchOf(s.main), s.jobs, Batch, j, to);
    HoldsMove(s.resumed, s.jobs, Returned, j, to);
  }

  lemma QueuesLog(s: Async, j: JobId, task: nat)
    requires Placed(s) && j < |s.jobs|
    ensures var jobs := Log(s.jobs, j, task);
      && Holds(s.pending, jobs, Pending) && Holds(s.done, jobs, Done)
      && Holds(BatchOf(s.main), jobs, Batch) && Holds(s.resumed, jobs, Returned)
  {
    hide Holds, Hands, Log;
    LogKeeps(s.pending, s.jobs, Pending, [], j, task);
    LogKeeps(s.done, s.jobs, Done, [], j, task);
    LogKeeps(BatchOf(s.main), s.jobs, Batch, [], j, task);
    LogKeeps(s.resumed, s.jobs, Returned, [], j, task);
  }

  lemma SubmitPlaced(s: Async, to: Option<nat>)
    requires Placed(s) && s.main.Submitting? && SubmitCan(s, to)
    ensures Placed(SubmitStep(s, to))
    ensures s.main.at.Inserting? ==>
      && SubmitStep(s, to).jobs == s.jobs + [Job(s.main.fiber, s.main.taskCount, Pending, [])]
      && SubmitStep(s, to).pending == s.pending + [|s.jobs|]
    ensures !s.main.at.Inserting? ==> SubmitStep(s, to).jobs == s.jobs && SubmitStep(s, to).pending == s.pending
  {
    hide Holds, Hands;
    if s.main.at.Inserting? {
      var job := Job(s.main.fiber, s.main.taskCount, Pending, []);
      NewJob(s.pending, s.jobs, Pending, s.workers, job);
      NewJob(s.done, s.jobs, Done, s.workers, job);
      NewJob([], s.jobs, Batch, s.workers, job);
      NewJob(s.resumed, s.jobs, Returned, s.workers, job);
    } else if s.main.at.Signalling? && to.Some? {
      HandsStay(s.workers, s.jobs, to.value, Roused);
    }
  }

  lemma PollPlaced(s: Async)
    requires Placed(s) && s.main.Polling? && PollCan(s) && PollSafe(s)
    requires BatchIsLocal(s.main)
    ensures Placed(PollStep(s))
  {
    hide Holds, Hands, MoveAll, Move;
    if s.main.step.Splitting? {
      Splits(s.pending, s.jobs, Pending, s.workers, s.done);
      Splits([], s.jobs, Batch, s.workers, s.done);
      Splits(s.resumed, s.jobs, Returned, s.workers, s.done);
    } else if s.main.step.Draining? && s.main.batch != [] {
      var j := s.main.batch[0];
      FirstIs(s.main.batch, s.jobs, Batch);
      QueuesMove(s, j, Returned);
      HandsMoveOther(s.workers, s.jobs, j, Returned);
    }
  }

  lemma ClosePlaced(s: Async)
    requires Placed(s) && s.main.Closing? && CloseCan(s)
    ensures Placed(CloseStep(s))
  {
    hide Holds;
  }

  lemma OtherPlaced(s: Async, op: Op)
    requires Placed(s) && Can(s, op) && !op.OpAdvance? && !op.OpWorker?
    ensures Placed(Step(s, op))
  {
    hide Holds, Hands;
    if op.OpSpurious? {
      HandsStay(s.workers, s.jobs, op.w, Roused);
    }
  }
}

/** Async.cxx as interleaved atomic steps of the scheduler's thread and the worker threads. */
module AsyncSpec {
  import opened Sequences

  type Fid = nat
  type JobId = nat

  const WORKERS: nat := 4

  /** Where a worker thread is in doWork. */
  datatype Worker =
    | Fetching            // about to lock the job mutex
    | Testing             // holds it, at the test of the wait loop
    | Parked              // in cond_wait
    | Roused              // woken, about to take the job mutex again
    | Taking              // holds it, about to unlink the first pending job
    | Taken(job: JobId)   // about to unlock it
    | Working(job: JobId, next: nat)
    | Finishing(job: JobId)  // about to lock the done mutex
    | Posting(job: JobId)    // holds it, about to link the job into the done queue
    | Writing                // about to write to the eventfd
    | Releasing              // about to unlock it
    | Leaving                // saw workIsDone_, about to unlock the job mutex
    | Exited

  /** The steps of awaitTasks up to the switch to another fiber. */
  datatype SubmitAt = Locking | Inserting | Signalling | Unlocking | Counting | Suspending

  /** The steps of the poller coroutine between two switches. */
  datatype PollAt = Watching | Awaiting | LockingDone | Reading | Splitting | UnlockingDone | Draining

  /** The steps of the destructor. */
  datatype CloseAt = LockingLast | Setting | UnlockingLast | Broadcasting | Joining

  /** What the scheduler's thread is doing; `Free` stands for its loop and for all other fiber code. */
  datatype Main =
    | Free
    | Submitting(fiber: Fid, taskCount: nat, at: SubmitAt)
    | Polling(step: PollAt, batch: seq<JobId>)
    | Closing(stage: CloseAt)

  /** The poller fiber: absent, called but not yet run, waiting for the eventfd, made ready by it, or running. */
  datatype Poller = NoPoller | Called | AtWait | Ready | Active

  datatype Thread = MainThread | WorkerThread(w: nat)

  datatype Where = Pending | At(w: nat) | Done | Batch | Returned

  /** A submitted job, with where it is now and the tasks run so far as history. */
  datatype Job = Job(fiber: Fid, taskCount: nat, where: Where, ran: seq<nat>)

  datatype Async = Async(
    jobMutex: Option<Thread>,
    doneMutex: Option<Thread>,
    pending: seq<JobId>,
    done: seq<JobId>,
    counter: nat,
    jobCount: nat,
    workIsDone: bool,
    workers: seq<Worker>,
    main: Main,
    poller: Poller,
    watched: bool,
    suspended: set<Fid>,
    jobs: seq<Job>,
    resumed: seq<JobId>)

  function Initial(): Async {
    Async(None, None, [], [], 0, 0, false, [Fetching, Fetching, Fetching, Fetching], Free, NoPoller, false, {}, [], [])
  }

  function InHand(p: Worker): Option<JobId> {
    match p
    case Taken(j) => Some(j)
    case Working(j, _) => Some(j)
    case Finishing(j) => Some(j)
    case Posting(j) => Some(j)
    case _ => None
  }

  function Move(jobs: seq<Job>, j: JobId, where: Where): seq<Job>
    requires j < |jobs|
  {
    jobs[j := jobs[j].(where := where)]
  }

  function Log(jobs: seq<Job>, j: JobId, task: nat): seq<Job>
    requires j < |jobs|
  {
    jobs[j := jobs[j].(ran := jobs[j].ran + [task])]
  }

  // ----- worker steps -----

  /** A mutex blocks, a parked thread waits for a signal, and an exited one is gone. */
  predicate WorkerCan(s: Async, w: nat) {
    && w < |s.workers|
    && match s.workers[w]
       case Fetching => s.jobMutex.None?
       case Roused => s.jobMutex.None?
       case Finishing(_) => s.doneMutex.None?
       case Parked => false
       case Exited => false
       case _ => true
  }

  /** What the step relies on without testing it. */
  predicate WorkerSafe(s: Async, w: nat)
    requires WorkerCan(s, w)
  {
    match s.workers[w]
    case Taking => s.pending != [] && s.pending[0] < |s.jobs|
    case Working(j, i) => j < |s.jobs|
    case Posting(j) => j < |s.jobs|
    case _ => true
  }

  function WorkerStep(s: Async, w: nat): Async
    requires WorkerCan(s, w) && WorkerSafe(s, w)
  {
    match s.workers[w]
    case Fetching => s.(jobMutex := Some(WorkerThread(w)), workers := s.workers[w := Testing])
    case Roused => s.(jobMutex := Some(WorkerThread(w)), workers := s.workers[w := Testing])
    case Testing =>
      if s.workIsDone then s.(workers := s.workers[w := Leaving])
      else if s.pending == [] then s.(jobMutex := None, workers := s.workers[w := Parked])
      else s.(workers := s.workers[w := Taking])
    case Taking =>
      var j := s.pending[0];
      s.(pending := s.pending[1..], jobs := Move(s.jobs, j, At(w)), workers := s.workers[w := Taken(j)])
    case Taken(j) => s.(jobMutex := None, workers := s.workers[w := Working(j, 0)])
    case Working(j, i) =>
      if i < s.jobs[j].taskCount then s.(jobs := Log(s.jobs, j, i), workers := s.workers[w := Working(j, i + 1)])
      else s.(workers := s.workers[w := Finishing(j)])
    case Finishing(j) => s.(doneMutex := Some(WorkerThread(w)), workers := s.workers[w := Posting(j)])
    case Posting(j) => s.(done := s.done + [j], jobs := Move(s.jobs, j, Done), workers := s.workers[w := Writing])
    case Writing => s.(counter := s.counter + 1, workers := s.workers[w := Releasing])
    case Releasing => s.(doneMutex := None, workers := s.workers[w := Fetching])
    case Leaving => s.(jobMutex := None, workers := s.workers[w := Exited])
    case _ => s
  }

  // ----- steps of the scheduler's thread -----

  predicate AnyParked(workers: seq<Worker>) {
    exists w :: 0 <= w < |workers| && workers[w].Parked?
  }

  /** A signal wakes one parked worker, whichever the system picks, and is lost when none is parked. */
  predicate SignalTo(workers: seq<Worker>, to: Option<nat>) {
    match to
    case None => !AnyParked(workers)
    case Some(w) => w < |workers| && workers[w].Parked?
  }

  function Rouse(workers: seq<Worker>, to: Option<nat>): seq<Worker> {
    if to.Some? && to.value < |workers| then workers[to.value := Roused] else workers
  }

  function RouseAll(workers: seq<Worker>): (r: seq<Worker>)
    ensures |r| == |workers|
  {
    seq(|workers|, w requires 0 <= w < |workers| => if workers[w].Parked? then Roused else workers[w])
  }

  predicate SubmitCan(s: Async, to: Option<nat>)
    requires s.main.Submitting?
  {
    match s.main.at
    case Locking => s.jobMutex.None?
    case Signalling => SignalTo(s.workers, to)
    case _ => true
  }

  function SubmitStep(s: Async, to: Option<nat>): Async
    requires s.main.Submitting? && SubmitCan(s, to)
  {
    match s.main.at
    case Locking => s.(jobMutex := Some(MainThread), main := s.main.(at := Inserting))
    case Inserting =>
      s.(pending := s.pending + [|s.jobs|], jobs := s.jobs + [Job(s.main.fiber, s.main.taskCount, Pending, [])],
         main := s.main.(at := Signalling))
    case Signalling => s.(workers := Rouse(s.workers, to), main := s.main.(at := Unlocking))
    case Unlocking => s.(jobMutex := None, main := s.main.(at := Counting))
    case Counting =>
      s.(jobCount := s.jobCount + 1, poller := if s.jobCount == 0 then Called else s.poller, main := s.main.(at := Suspending))
    case Suspending => s.(suspended := s.suspended + {s.main.fiber}, main := Free)
  }

  predicate PollCan(s: Async)
    requires s.main.Polling?
  {
    match s.main.step
    case LockingDone => s.doneMutex.None?
    case _ => true
  }

  /** The eventfd is not yet watched, the read does not block, the ring that is split is not empty, and
      resumeFiber gets a suspended fiber. */
  predicate PollSafe(s: Async)
    requires s.main.Polling?
  {
    match s.main.step
    case Watching => !s.watched
    case Awaiting => s.watched
    case Reading => s.counter > 0
    case Splitting => s.done != [] && forall j :: j in s.done ==> j < |s.jobs|
    case Draining =>
      if s.main.batch != [] then
        var j := s.main.batch[0]; j < |s.jobs| && s.jobs[j].fiber in s.suspended && s.jobCount > 0
      else s.watched
    case _ => true
  }

  function MoveAll(jobs: seq<Job>, js: seq<JobId>, where: Where): (r: seq<Job>)
    ensures |r| == |jobs|
  {
    seq(|jobs|, j requires 0 <= j < |jobs| => if j in js then jobs[j].(where := where) else jobs[j])
  }

  function PollStep(s: Async): Async
    requires s.main.Polling? && PollCan(s) && PollSafe(s)
  {
    match s.main.step
    case Watching => s.(watched := true, main := s.main.(step := Awaiting))
    case Awaiting => s.(poller := AtWait, main := Free)
    case LockingDone => s.(doneMutex := Some(MainThread), main := s.main.(step := Reading))
    case Reading => s.(counter := 0, main := s.main.(step := Splitting))
    case Splitting => s.(done := [], jobs := MoveAll(s.jobs, s.done, Batch), main := Polling(UnlockingDone, s.done))
    case UnlockingDone => s.(doneMutex := None, main := s.main.(step := Draining))
    case Draining =>
      if s.main.batch != [] then
        var j := s.main.batch[0];
        s.(suspended := s.suspended - {s.jobs[j].fiber}, jobCount := s.jobCount - 1, jobs := Move(s.jobs, j, Returned),
           resumed := s.resumed + [j], main := s.main.(batch := s.main.batch[1..]))
      else if s.jobCount != 0 then s.(main := s.main.(step := Awaiting))
      else s.(watched := false, poller := NoPoller, main := Free)
  }

  predicate CloseCan(s: Async)
    requires s.main.Closing?
  {
    match s.main.stage
    case LockingLast => s.jobMutex.None?
    case Joining => false
    case _ => true
  }

  function CloseStep(s: Async): Async
    requires s.main.Closing? && CloseCan(s)
  {
    match s.main.stage
    case LockingLast => s.(jobMutex := Some(MainThread), main := Closing(Setting))
    case Setting => s.(workIsDone := true, main := Closing(UnlockingLast))
    case UnlockingLast => s.(jobMutex := None, main := Closing(Broadcasting))
    case Broadcasting => s.(workers := RouseAll(s.workers), main := Closing(Joining))
    case Joining => s
  }

  // ----- one step of any thread -----

  datatype Op =
    | OpSubmit(fiber: Fid, taskCount: nat)  // a fiber calls awaitTasks
    | OpAdvance(to: Option<nat>)            // the scheduler's thread goes on inside Async
    | OpPoll                                // the scheduler switches to the poller
    | OpEvent                               // the kernel reports the eventfd readable
    | OpClose                               // the destructor is called
    | OpWorker(w: nat)
    | OpSpurious(w: nat)                    // cond_wait returns unasked

  predicate Can(s: Async, op: Op) {
    match op
    case OpSubmit(f, n) => s.main.Free? && f !in s.suspended
    case OpAdvance(to) =>
      (match s.main
       case Free => false
       case Submitting(_, _, _) => SubmitCan(s, to)
       case Polling(_, _) => PollCan(s)
       case Closing(_) => CloseCan(s))
    case OpPoll => s.main.Free? && (s.poller.Called? || s.poller.Ready?)
    case OpEvent => s.main.Free? && s.poller.AtWait? && s.watched && s.counter > 0
    case OpClose => s.main.Free?
    case OpWorker(w) => WorkerCan(s, w)
    case OpSpurious(w) => w < |s.workers| && s.workers[w].Parked?
  }

  /** The step meets everything the code takes for granted. */
  predicate Safe(s: Async, op: Op)
    requires Can(s, op)
  {
    match op
    case OpAdvance(_) =>
      (match s.main
       case Polling(_, _) => PollSafe(s)
       case Submitting(_, _, Counting) => s.jobCount == 0 ==> s.poller.NoPoller?
       case _ => true)
    case OpWorker(w) => WorkerSafe(s, w)
    case _ => true
  }

  function Step(s: Async, op: Op): Async
    requires Can(s, op) && Safe(s, op)
  {
    match op
    case OpSubmit(f, n) => s.(main := Submitting(f, n, Locking))
    case OpAdvance(to) =>
      (match s.main
       case Submitting(_, _, _) => SubmitStep(s, to)
       case Polling(_, _) => PollStep(s)
       case Closing(_) => CloseStep(s)
       case Free => s)
    case OpPoll => s.(poller := Active, main := Polling(if s.poller.Called? then Watching else LockingDone, []))
    case OpEvent => s.(poller := Ready)
    case OpClose => s.(main := Closing(LockingLast))
    case OpWorker(w) => WorkerStep(s, w)
    case OpSpurious(w) => s.(workers := s.workers[w := Roused])
  }
}

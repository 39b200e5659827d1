/** Async.cxx: the eventfd counter, the poller, the job count and the condition variable, kept by every step. */
module AsyncProtocol {
  import opened Sequences
  import opened AsyncSpec
  import opened AsyncPlaces

  // ----- the tasks of each job -----

  function Upto(n: nat): seq<nat> {
    seq(n, i => i)
  }

  /** How many of its job's tasks a worker has run. */
  function Progress(p: Worker, taskCount: nat): nat {
    match p
    case Taken(_) => 0
    case Working(_, next) => next
    case _ => taskCount
  }

  ghost predicate RanOk(job: Job, workers: seq<Worker>) {
    match job.where
    case Pending => job.ran == []
    case At(w) => w < |workers| && Progress(workers[w], job.taskCount) <= job.taskCount && job.ran == Upto(Progress(workers[w], job.taskCount))
    case _ => job.ran == Upto(job.taskCount)
  }

  /** Each job's tasks have run once each, in index order, as far as its worker has come. */
  ghost predicate Logged(s: Async) {
    forall j :: 0 <= j < |s.jobs| ==> RanOk(s.jobs[j], s.workers)
  }

  /** A worker's step touches no job but the one it takes or has in hand. */
  lemma OtherJobs(s: Async, w: nat, j: JobId)
    requires Placed(s) && WorkerCan(s, w) && WorkerSafe(s, w) && j < |s.jobs|
    requires InHand(s.workers[w]) != Some(j) && !(s.workers[w].Taking? && s.pending[0] == j)
    ensures WorkerStep(s, w).jobs[j] == s.jobs[j] && s.jobs[j].where != At(w)
  {
    hide Holds;
  }

  lemma JobInHand(s: Async, w: nat, j: JobId)
    requires Placed(s) && WorkerCan(s, w) && WorkerSafe(s, w)
    requires j < |s.jobs| && RanOk(s.jobs[j], s.workers) && InHand(s.workers[w]) == Some(j)
    ensures RanOk(WorkerStep(s, w).jobs[j], WorkerStep(s, w).workers)
  {
    hide Holds, Hands;
    HandIs(s.workers, s.jobs, w, j);
    var p := s.workers[w];
    if p.Working? && p.next < s.jobs[j].taskCount {
      assert Upto(p.next + 1) == Upto(p.next) + [p.next];
    }
  }

  lemma WorkerLogged(s: Async, w: nat)
    requires Logged(s) && Placed(s) && WorkerCan(s, w) && WorkerSafe(s, w)
    ensures Logged(WorkerStep(s, w))
  {
    var s' := WorkerStep(s, w);
    forall j | 0 <= j < |s'.jobs|
      ensures RanOk(s'.jobs[j], s'.workers)
    {
      assert RanOk(s.jobs[j], s.workers);
      if InHand(s.workers[w]) == Some(j) {
        JobInHand(s, w, j);
      } else if s.workers[w].Taking? && s.pending[0] == j {
        FirstIs(s.pending, s.jobs, Pending);
      } else {
        OtherJobs(s, w, j);
      }
    }
  }

  lemma SubmitLogged(s: Async, to: Option<nat>)
    requires Logged(s) && Placed(s) && s.main.Submitting? && SubmitCan(s, to)
    ensures Logged(SubmitStep(s, to))
  {
    hide Holds;
    var s' := SubmitStep(s, to);
    forall j | 0 <= j < |s'.jobs|
      ensures RanOk(s'.jobs[j], s'.workers)
    {
      assert j < |s.jobs| ==> RanOk(s.jobs[j], s.workers);
    }
  }

  lemma PollLogged(s: Async)
    requires Logged(s) && Placed(s) && s.main.Polling? && PollCan(s) && PollSafe(s)
    ensures Logged(PollStep(s))
  {
    var s' := PollStep(s);
    if s.main.step.Draining? && s.main.batch != [] {
      FirstIs(s.main.batch, s.jobs, Batch);
    }
    forall j | 0 <= j < |s'.jobs|
      ensures RanOk(s'.jobs[j], s'.workers)
    {
      assert RanOk(s.jobs[j], s.workers);
    }
  }

  lemma CloseLogged(s: Async)
    requires Logged(s) && s.main.Closing? && CloseCan(s)
    ensures Logged(CloseStep(s))
  {
    var s' := CloseStep(s);
    forall j | 0 <= j < |s'.jobs|
      ensures RanOk(s'.jobs[j], s'.workers)
    {
      assert RanOk(s.jobs[j], s.workers);
    }
  }

  lemma OtherLogged(s: Async, op: Op)
    requires Logged(s) && Can(s, op) && !op.OpAdvance? && !op.OpWorker?
    ensures Logged(Step(s, op))
  {
    var s' := Step(s, op);
    forall j | 0 <= j < |s'.jobs|
      ensures RanOk(s'.jobs[j], s'.workers)
    {
      assert RanOk(s.jobs[j], s.workers);
    }
  }

  // ----- the job count -----

  function Unreturned(jobs: seq<Job>): set<JobId> {
    set j: nat | j < |jobs| && !jobs[j].where.Returned?
  }

  /** The job that is queued already but not yet counted. */
  function Uncounted(m: Main): nat {
    if m.Submitting? && (m.at.Signalling? || m.at.Unlocking? || m.at.Counting?) then 1 else 0
  }

  /** jobCount_ is the number of submitted jobs not yet returned. */
  ghost predicate Counted(s: Async) {
    s.jobCount + Uncounted(s.main) == |Unreturned(s.jobs)|
  }

  lemma WorkerCounted(s: Async, w: nat)
    requires Counted(s) && Placed(s) && WorkerCan(s, w) && WorkerSafe(s, w)
    ensures Counted(WorkerStep(s, w))
  {
    hide Holds;
    if s.workers[w].Taking? {
      FirstIs(s.pending, s.jobs, Pending);
    }
    assert Unreturned(WorkerStep(s, w).jobs) == Unreturned(s.jobs);
  }

  lemma SubmitCounted(s: Async, to: Option<nat>)
    requires Counted(s) && s.main.Submitting? && SubmitCan(s, to)
    ensures Counted(SubmitStep(s, to))
  {
    if s.main.at.Inserting? {
      assert Unreturned(SubmitStep(s, to).jobs) == Unreturned(s.jobs) + {|s.jobs|};
    }
  }

  lemma ReturnCounts(jobs: seq<Job>, j: JobId)
    requires j < |jobs| && !jobs[j].where.Returned?
    ensures |Unreturned(Move(jobs, j, Returned))| == |Unreturned(jobs)| - 1
  {
    assert Unreturned(Move(jobs, j, Returned)) == Unreturned(jobs) - {j};
  }

  lemma SplitCounts(jobs: seq<Job>, done: seq<JobId>)
    requires Holds(done, jobs, Done)
    ensures |Unreturned(MoveAll(jobs, done, Batch))| == |Unreturned(jobs)|
  {
    assert Unreturned(MoveAll(jobs, done, Batch)) == Unreturned(jobs);
  }

  lemma PollCounted(s: Async)
    requires Counted(s) && Placed(s) && s.main.Polling? && PollCan(s) && PollSafe(s)
    ensures Counted(PollStep(s))
  {
    hide Holds, Hands, Move, MoveAll, Unreturned;
    if s.main.step.Splitting? {
      SplitCounts(s.jobs, s.done);
    } else if s.main.step.Draining? && s.main.batch != [] {
      FirstIs(s.main.batch, s.jobs, Batch);
      ReturnCounts(s.jobs, s.main.batch[0]);
    }
  }

  // ----- the eventfd -----

  /** One when a worker has queued a done job and not yet written to the eventfd. */
  function Lag(s: Async): nat {
    match s.doneMutex
    case Some(WorkerThread(w)) => if w < |s.workers| && s.workers[w].Writing? then 1 else 0
    case _ => 0
  }

  /** The eventfd counts the done queue, but for the moments inside the done mutex. */
  ghost predicate Tallied(s: Async) {
    if s.main.Polling? && s.main.step.Splitting? then s.counter == 0 && s.done != []
    else s.counter + Lag(s) == |s.done|
  }

  lemma WorkerTallied(s: Async, w: nat)
    requires Tallied(s) && DoneOwned(s) && WorkerCan(s, w) && WorkerSafe(s, w)
    ensures Tallied(WorkerStep(s, w))
  {
    hide Move, Log;
  }

  lemma SubmitTallied(s: Async, to: Option<nat>)
    requires Tallied(s) && DoneOwned(s) && s.main.Submitting? && SubmitCan(s, to)
    ensures Tallied(SubmitStep(s, to))
  {
  }

  lemma PollTallied(s: Async)
    requires Tallied(s) && DoneOwned(s) && s.main.Polling? && PollCan(s) && PollSafe(s)
    ensures Tallied(PollStep(s))
  {
  }

  lemma CloseTallied(s: Async)
    requires Tallied(s) && DoneOwned(s) && s.main.Closing? && CloseCan(s)
    ensures Tallied(CloseStep(s))
  {
  }

  lemma OtherTallied(s: Async, op: Op)
    requires Tallied(s) && DoneOwned(s) && Can(s, op) && !op.OpAdvance? && !op.OpWorker?
    ensures Tallied(Step(s, op))
  {
  }

  // ----- the poller -----

  /** There is a poller exactly while jobs are counted, it alone watches the eventfd, and it is woken only to find
      the counter raised. */
  ghost predicate Polled(s: Async) {
    && (s.main.Polling? <==> s.poller.Active?)
    && (s.watched <==> s.poller.AtWait? || s.poller.Ready? || (s.poller.Active? && !s.main.step.Watching?))
    && (!s.main.Polling? ==> (s.poller.NoPoller? <==> s.jobCount == 0))
    && (s.main.Polling? && !s.main.step.Draining? ==> s.jobCount > 0)
    && (s.poller.Ready? || (s.main.Polling? && (s.main.step.LockingDone? || s.main.step.Reading?)) ==> s.counter > 0)
    && BatchIsLocal(s.main)
  }

  lemma WorkerPolled(s: Async, w: nat)
    requires Polled(s) && WorkerCan(s, w) && WorkerSafe(s, w)
    ensures Polled(WorkerStep(s, w))
  {
    hide Move, Log;
  }

  lemma SubmitPolled(s: Async, to: Option<nat>)
    requires Polled(s) && s.main.Submitting? && SubmitCan(s, to)
    ensures Polled(SubmitStep(s, to))
  {
  }

  lemma PollPolled(s: Async)
    requires Polled(s) && s.main.Polling? && PollCan(s) && PollSafe(s)
    ensures Polled(PollStep(s))
  {
    hide MoveAll, Move;
  }

  lemma OtherPolled(s: Async, op: Op)
    requires Polled(s) && Can(s, op) && !op.OpAdvance? && !op.OpWorker?
    ensures Polled(Step(s, op))
  {
  }

  // ----- the fibers that wait for their jobs -----

  predicate Submitted(m: Main) {
    m.Submitting? && !m.at.Locking? && !m.at.Inserting?
  }

  ghost predicate FiberWaits(s: Async, j: JobId)
    requires j < |s.jobs|
  {
    if Submitted(s.main) && j == |s.jobs| - 1 then s.jobs[j].fiber == s.main.fiber
    else s.jobs[j].fiber in s.suspended
  }

  /** The fiber of every job not yet returned is suspended, or still on its way there, and waits for that job only. */
  ghost predicate Suspends(s: Async) {
    && (s.main.Submitting? ==> s.main.fiber !in s.suspended)
    && (Submitted(s.main) ==> s.jobs != [] && !s.jobs[|s.jobs| - 1].where.Returned?)
    && (forall j: nat :: j < |s.jobs| && !s.jobs[j].where.Returned? ==> FiberWaits(s, j))
    && (forall j: nat, k: nat :: j < k < |s.jobs| && !s.jobs[j].where.Returned? && !s.jobs[k].where.Returned? ==>
          s.jobs[j].fiber != s.jobs[k].fiber)
  }

  ghost predicate SameFibers(a: seq<Job>, b: seq<Job>) {
    |a| == |b| && forall j :: 0 <= j < |a| ==> a[j].fiber == b[j].fiber && (a[j].where.Returned? <==> b[j].where.Returned?)
  }

  lemma WorkerFibers(s: Async, w: nat)
    requires Placed(s) && WorkerCan(s, w) && WorkerSafe(s, w)
    ensures SameFibers(s.jobs, WorkerStep(s, w).jobs)
  {
    hide Holds;
    if s.workers[w].Taking? {
      FirstIs(s.pending, s.jobs, Pending);
    }
  }

  lemma WorkerSuspends(s: Async, w: nat)
    requires Suspends(s) && Placed(s) && WorkerCan(s, w) && WorkerSafe(s, w)
    ensures Suspends(WorkerStep(s, w))
  {
    hide Holds, Hands, Placed, SameFibers;
    WorkerFibers(s, w);
    SameSuspends(s, WorkerStep(s, w));
  }

  lemma SameSuspends(s: Async, s': Async)
    requires Suspends(s) && SameFibers(s.jobs, s'.jobs) && s'.suspended == s.suspended && s'.main == s.main
    ensures Suspends(s')
  {
  }

  lemma SubmitSuspends(s: Async, to: Option<nat>)
    requires Suspends(s) && s.main.Submitting? && SubmitCan(s, to)
    ensures Suspends(SubmitStep(s, to))
  {
  }

  lemma SplitFibers(jobs: seq<Job>, done: seq<JobId>)
    requires Holds(done, jobs, Done)
    ensures SameFibers(jobs, MoveAll(jobs, done, Batch))
  {
  }

  lemma PollSuspends(s: Async)
    requires Suspends(s) && Placed(s) && s.main.Polling? && PollCan(s) && PollSafe(s)
    ensures Suspends(PollStep(s))
  {
    hide Holds, Hands, MoveAll;
    if s.main.step.Splitting? {
      SplitFibers(s.jobs, s.done);
    } else if s.main.step.Draining? && s.main.batch != [] {
      FirstIs(s.main.batch, s.jobs, Batch);
    }
  }

  lemma CloseSuspends(s: Async)
    requires Suspends(s) && s.main.Closing? && CloseCan(s)
    ensures Suspends(CloseStep(s))
  {
  }

  lemma OtherSuspends(s: Async, op: Op)
    requires Suspends(s) && Can(s, op) && !op.OpAdvance? && !op.OpWorker?
    ensures Suspends(Step(s, op))
  {
  }

  ghost predicate HasJob(jobs: seq<Job>, f: Fid) {
    exists j: nat :: j < |jobs| && !jobs[j].where.Returned? && jobs[j].fiber == f
  }

  /** No fiber stays suspended without a job that will return it. */
  ghost predicate Owed(s: Async) {
    forall f :: f in s.suspended ==> HasJob(s.jobs, f)
  }

  lemma SameOwed(jobs: seq<Job>, jobs': seq<Job>, f: Fid)
    requires SameFibers(jobs, jobs') && HasJob(jobs, f)
    ensures HasJob(jobs', f)
  {
    var j: nat :| j < |jobs| && !jobs[j].where.Returned? && jobs[j].fiber == f;
    assert !jobs'[j].where.Returned? && jobs'[j].fiber == f;
  }

  lemma SameAllOwed(s: Async, s': Async)
    requires Owed(s) && SameFibers(s.jobs, s'.jobs) && s'.suspended == s.suspended
    ensures Owed(s')
  {
    hide HasJob, SameFibers;
    forall f | f in s.suspended
      ensures HasJob(s'.jobs, f)
    {
      SameOwed(s.jobs, s'.jobs, f);
    }
  }

  lemma WorkerOwed(s: Async, w: nat)
    requires Owed(s) && Placed(s) && WorkerCan(s, w) && WorkerSafe(s, w)
    ensures Owed(WorkerStep(s, w))
  {
    hide Placed, SameFibers, HasJob, Owed;
    WorkerFibers(s, w);
    SameAllOwed(s, WorkerStep(s, w));
  }

  lemma SubmitOwed(s: Async, to: Option<nat>)
    requires Owed(s) && Suspends(s) && s.main.Submitting? && SubmitCan(s, to)
    ensures Owed(SubmitStep(s, to))
  {
    var s' := SubmitStep(s, to);
    forall f | f in s'.suspended
      ensures HasJob(s'.jobs, f)
    {
      if s.main.at.Suspending? && f == s.main.fiber {
        var j := |s.jobs| - 1;
        assert FiberWaits(s, j) && !s'.jobs[j].where.Returned? && s'.jobs[j].fiber == f;
      } else {
        var j: nat :| j < |s.jobs| && !s.jobs[j].where.Returned? && s.jobs[j].fiber == f;
        assert !s'.jobs[j].where.Returned? && s'.jobs[j].fiber == f;
      }
    }
  }

  lemma PollOwed(s: Async)
    requires Owed(s) && Placed(s) && s.main.Polling? && PollCan(s) && PollSafe(s)
    ensures Owed(PollStep(s))
  {
    hide Holds, Hands, MoveAll, SameFibers;
    var s' := PollStep(s);
    if s.main.step.Splitting? {
      SplitFibers(s.jobs, s.done);
      SameAllOwed(s, s');
    } else if s.main.step.Draining? && s.main.batch != [] {
      forall f | f in s'.suspended
        ensures HasJob(s'.jobs, f)
      {
        var j: nat :| j < |s.jobs| && !s.jobs[j].where.Returned? && s.jobs[j].fiber == f;
        assert !s'.jobs[j].where.Returned? && s'.jobs[j].fiber == f;
      }
    }
  }

  // ----- the condition variable -----

  predicate Open(m: Main) {
    !m.Closing? || m.stage.LockingLast? || m.stage.Setting?
  }

  /** Threads leave only after the destructor has said so, and once it has woken them none parks again. */
  ghost predicate Staffed(s: Async) {
    && |s.workers| == WORKERS
    && (s.workIsDone <==> !Open(s.main))
    && (!s.workIsDone ==> forall w :: 0 <= w < WORKERS ==> !s.workers[w].Leaving? && !s.workers[w].Exited?)
    && (s.workIsDone ==> forall w :: 0 <= w < WORKERS ==> !s.workers[w].Taking?)
    && (s.main.Closing? && s.main.stage.Joining? ==> !AnyParked(s.workers))
  }

  lemma WorkerStaffed(s: Async, w: nat)
    requires Staffed(s) && WorkerCan(s, w) && WorkerSafe(s, w)
    ensures Staffed(WorkerStep(s, w))
  {
    hide Move, Log;
  }

  lemma SubmitStaffed(s: Async, to: Option<nat>)
    requires Staffed(s) && s.main.Submitting? && SubmitCan(s, to)
    ensures Staffed(SubmitStep(s, to))
  {
  }

  lemma PollStaffed(s: Async)
    requires Staffed(s) && s.main.Polling? && PollCan(s) && PollSafe(s)
    ensures Staffed(PollStep(s))
  {
    hide Move, MoveAll;
  }

  lemma CloseStaffed(s: Async)
    requires Staffed(s) && JobOwned(s) && s.main.Closing? && CloseCan(s)
    ensures Staffed(CloseStep(s))
  {
  }

  lemma OtherStaffed(s: Async, op: Op)
    requires Staffed(s) && Can(s, op) && !op.OpAdvance? && !op.OpWorker?
    ensures Staffed(Step(s, op))
  {
  }

  /** On its way to test the queue, or to take from it. */
  predicate Coming(p: Worker) {
    p.Fetching? || p.Testing? || p.Roused? || p.Taking?
  }

  function CountComing(workers: seq<Worker>): nat {
    if workers == [] then 0 else (if Coming(workers[0]) then 1 else 0) + CountComing(workers[1..])
  }

  lemma {:induction false} CountUpdate(workers: seq<Worker>, w: nat, p: Worker)
    requires w < |workers|
    ensures CountComing(workers[w := p]) + (if Coming(workers[w]) then 1 else 0) == CountComing(workers) + (if Coming(p) then 1 else 0)
  {
    if w == 0 {
      assert workers[w := p][1..] == workers[1..];
    } else {
      assert workers[w := p][1..] == workers[1..][w - 1 := p];
      CountUpdate(workers[1..], w - 1, p);
    }
  }

  lemma {:induction false} SomeComing(workers: seq<Worker>)
    requires CountComing(workers) > 0
    ensures exists w :: 0 <= w < |workers| && Coming(workers[w])
  {
    if !Coming(workers[0]) {
      SomeComing(workers[1..]);
      var w :| 0 <= w < |workers[1..]| && Coming(workers[1..][w]);
      assert Coming(workers[w + 1]);
    }
  }

  predicate Unsignalled(m: Main) {
    m.Submitting? && m.at.Signalling?
  }

  /** While some worker is parked, every pending job has a worker of its own on the way, or its signal is still to come. */
  ghost predicate Attended(s: Async) {
    && (forall w :: 0 <= w < |s.workers| && s.workers[w].Taking? ==> s.pending != [])
    && (!s.workIsDone && AnyParked(s.workers) ==> |s.pending| <= CountComing(s.workers) + if Unsignalled(s.main) then 1 else 0)
  }

  /** A worker takes a job only under the job mutex, so what it saw pending still is. */
  lemma TakingAlone(s: Async, w: nat)
    requires JobOwned(s) && WorkerCan(s, w) && s.workers[w].Taking?
    ensures forall v :: 0 <= v < |s.workers| && v != w ==> !s.workers[v].Taking?
  {
  }

  lemma WorkerAttended(s: Async, w: nat)
    requires Attended(s) && JobOwned(s) && WorkerCan(s, w) && WorkerSafe(s, w)
    ensures Attended(WorkerStep(s, w))
  {
    hide Move, Log, JobOwned, CountComing;
    if s.workers[w].Taking? {
      TakingAlone(s, w);
    }
    CountUpdate(s.workers, w, WorkerStep(s, w).workers[w]);
  }

  lemma SubmitAttended(s: Async, to: Option<nat>)
    requires Attended(s) && s.main.Submitting? && SubmitCan(s, to)
    ensures Attended(SubmitStep(s, to))
  {
    hide CountComing;
    if s.main.at.Signalling? && to.Some? {
      CountUpdate(s.workers, to.value, Roused);
    }
  }

  lemma OtherAttended(s: Async, op: Op)
    requires Attended(s) && Staffed(s) && Can(s, op) && Safe(s, op) && !op.OpWorker?
    requires op.OpAdvance? ==> !s.main.Submitting?
    ensures Attended(Step(s, op))
  {
    hide CountComing, Move, MoveAll;
    if op.OpSpurious? {
      CountUpdate(s.workers, op.w, Roused);
    }
  }
}

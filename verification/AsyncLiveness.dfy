/** Async.cxx left to itself: every step brings the jobs nearer to their return, so all are returned. */
module AsyncLiveness {
  import opened Sequences
  import opened AsyncSpec
  import opened AsyncPlaces
  import opened AsyncProtocol
  import opened AsyncRuns

  // ----- the work left to do -----

  /** The steps that a job's stage still costs beyond those of the worker that has it in hand. */
  function JobCost(job: Job): nat {
    match job.where
    case Pending => 21 + job.taskCount
    case At(_) => 12
    case Done => 12
    case Batch => 1
    case Returned => 0
  }

  function JobsCost(jobs: seq<Job>): nat {
    if jobs == [] then 0 else JobCost(jobs[0]) + JobsCost(jobs[1..])
  }

  /** The steps until a worker parks or exits, with no more jobs to take. */
  function WorkerCost(p: Worker, jobs: seq<Job>): nat {
    match p
    case Exited => 0
    case Parked => 0
    case Leaving => 1
    case Taking => 1
    case Testing => 2
    case Fetching => 3
    case Roused => 3
    case Releasing => 4
    case Writing => 5
    case Posting(_) => 6
    case Finishing(_) => 7
    case Working(j, next) => if j < |jobs| && next < jobs[j].taskCount then 8 + (jobs[j].taskCount - next) else 8
    case Taken(j) => if j < |jobs| then 9 + jobs[j].taskCount else 9
  }

  function WorkersCost(workers: seq<Worker>, jobs: seq<Job>): nat {
    if workers == [] then 0 else WorkerCost(workers[0], jobs) + WorkersCost(workers[1..], jobs)
  }

  function PollCost(poller: Poller, m: Main): nat {
    match poller
    case NoPoller => 0
    case Called => 9
    case AtWait => 6
    case Ready => 5
    case Active =>
      if m.Polling? then
        match m.step
        case Watching => 8
        case Awaiting => 7
        case LockingDone => 4
        case Reading => 3
        case Splitting => 2
        case UnlockingDone => 9
        case Draining => 8
      else 0
  }

  function MainCost(m: Main): nat {
    match m
    case Submitting(_, n, Locking) => 39 + n
    case Submitting(_, n, Inserting) => 38 + n
    case Submitting(_, _, Signalling) => 16
    case Submitting(_, _, Unlocking) => 12
    case Submitting(_, _, Counting) => 11
    case Submitting(_, _, Suspending) => 1
    case Closing(LockingLast) => 17
    case Closing(Setting) => 16
    case Closing(UnlockingLast) => 15
    case Closing(Broadcasting) => 14
    case _ => 0
  }

  function Work(s: Async): nat {
    JobsCost(s.jobs) + WorkersCost(s.workers, s.jobs) + PollCost(s.poller, s.main) + MainCost(s.main)
  }

  // ----- how the sums change -----

  lemma {:induction false} JobUpdate(jobs: seq<Job>, j: nat, job: Job)
    requires j < |jobs|
    ensures JobsCost(jobs[j := job]) + JobCost(jobs[j]) == JobsCost(jobs) + JobCost(job)
  {
    if j == 0 {
      assert jobs[j := job][1..] == jobs[1..];
    } else {
      assert jobs[j := job][1..] == jobs[1..][j - 1 := job];
      JobUpdate(jobs[1..], j - 1, job);
    }
  }

  lemma {:induction false} JobAppend(jobs: seq<Job>, job: Job)
    ensures JobsCost(jobs + [job]) == JobsCost(jobs) + JobCost(job)
  {
    if jobs != [] {
      assert (jobs + [job])[1..] == jobs[1..] + [job];
      JobAppend(jobs[1..], job);
    } else {
      assert jobs + [job] == [job];
    }
  }

  ghost predicate Cheaper(a: seq<Job>, b: seq<Job>) {
    |a| == |b| && forall j :: 0 <= j < |a| ==> JobCost(b[j]) <= JobCost(a[j])
  }

  lemma {:induction false} CheaperCosts(a: seq<Job>, b: seq<Job>)
    requires Cheaper(a, b)
    ensures JobsCost(b) <= JobsCost(a)
  {
    if a != [] {
      var a', b' := a[1..], b[1..];
      forall j | 0 <= j < |a'|
        ensures JobCost(b'[j]) <= JobCost(a'[j])
      {
        assert a'[j] == a[j + 1] && b'[j] == b[j + 1];
      }
      CheaperCosts(a', b');
    }
  }

  /** Splitting off a done queue that is not empty pays for another round of the poller. */
  lemma SplitPays(jobs: seq<Job>, done: seq<JobId>)
    requires Holds(done, jobs, Done) && done != []
    ensures JobsCost(MoveAll(jobs, done, Batch)) + 11 <= JobsCost(jobs)
  {
    var moved, j := MoveAll(jobs, done, Batch), done[0];
    FirstIs(done, jobs, Done);
    assert j in done;
    JobUpdate(jobs, j, moved[j]);
    CheaperCosts(jobs[j := moved[j]], moved);
  }

  lemma {:induction false} WorkerUpdate(workers: seq<Worker>, a: seq<Job>, b: seq<Job>, w: nat, p: Worker)
    requires w < |workers| && SameTasks(a, b)
    ensures WorkersCost(workers[w := p], b) + WorkerCost(workers[w], a) == WorkersCost(workers, a) + WorkerCost(p, b)
  {
    if w == 0 {
      assert workers[w := p][1..] == workers[1..];
      WorkersSame(workers[1..], a, b);
    } else {
      assert workers[w := p][1..] == workers[1..][w - 1 := p];
      WorkerUpdate(workers[1..], a, b, w - 1, p);
    }
  }

  lemma {:induction false} WorkersSame(workers: seq<Worker>, a: seq<Job>, b: seq<Job>)
    requires SameTasks(a, b)
    ensures WorkersCost(workers, a) == WorkersCost(workers, b)
  {
    if workers != [] {
      WorkersSame(workers[1..], a, b);
    }
  }

  ghost predicate InJobs(workers: seq<Worker>, jobs: seq<Job>) {
    forall w :: 0 <= w < |workers| && InHand(workers[w]).Some? ==> InHand(workers[w]).value < |jobs|
  }

  /** A new job costs the workers that have others in hand nothing. */
  lemma {:induction false} WorkersAppend(workers: seq<Worker>, jobs: seq<Job>, job: Job)
    requires InJobs(workers, jobs)
    ensures WorkersCost(workers, jobs + [job]) == WorkersCost(workers, jobs)
  {
    if workers != [] {
      assert InJobs(workers[1..], jobs) by {
        assert forall w :: 0 <= w < |workers| - 1 ==> workers[1..][w] == workers[w + 1];
      }
      WorkersAppend(workers[1..], jobs, job);
      assert InHand(workers[0]).Some? ==> InHand(workers[0]).value < |jobs|;
    }
  }

  lemma {:induction false} RouseAllCosts(workers: seq<Worker>, jobs: seq<Job>)
    ensures WorkersCost(RouseAll(workers), jobs) <= WorkersCost(workers, jobs) + 3 * |workers|
  {
    if workers != [] {
      assert RouseAll(workers)[1..] == RouseAll(workers[1..]);
      RouseAllCosts(workers[1..], jobs);
    }
  }

  // ----- every step does some of it -----

  lemma WorkerWorks(s: Async, w: nat)
    requires Placed(s) && WorkerCan(s, w) && WorkerSafe(s, w)
    ensures Work(WorkerStep(s, w)) < Work(s)
  {
    hide Holds, Hands;
    var s' := WorkerStep(s, w);
    WorkerTasks(s, w);
    WorkerUpdate(s.workers, s.jobs, s'.jobs, w, s'.workers[w]);
    WorkerJob(s, w);
  }

  lemma WorkerTasks(s: Async, w: nat)
    requires WorkerCan(s, w) && WorkerSafe(s, w)
    ensures w < |s.workers| && |WorkerStep(s, w).workers| == |s.workers| && SameTasks(s.jobs, WorkerStep(s, w).jobs)
    ensures WorkerStep(s, w).workers == s.workers[w := WorkerStep(s, w).workers[w]]
    ensures WorkerStep(s, w).poller == s.poller && WorkerStep(s, w).main == s.main
  {
  }

  lemma WorkerJob(s: Async, w: nat)
    requires Placed(s) && WorkerCan(s, w) && WorkerSafe(s, w)
    ensures var s' := WorkerStep(s, w);
      && w < |s'.workers|
      && JobsCost(s'.jobs) + WorkerCost(s'.workers[w], s'.jobs) < JobsCost(s.jobs) + WorkerCost(s.workers[w], s.jobs)
  {
    hide Holds, Hands, JobsCost;
    var p, s' := s.workers[w], WorkerStep(s, w);
    if p.Taking? {
      FirstIs(s.pending, s.jobs, Pending);
      JobUpdate(s.jobs, s.pending[0], s'.jobs[s.pending[0]]);
    } else if p.Working? && p.next < s.jobs[p.job].taskCount {
      JobUpdate(s.jobs, p.job, s'.jobs[p.job]);
    } else if p.Posting? {
      HandIs(s.workers, s.jobs, w, p.job);
      JobUpdate(s.jobs, p.job, s'.jobs[p.job]);
    } else if p.Taken? {
      HandIs(s.workers, s.jobs, w, p.job);
    }
  }

  lemma HandsInJobs(workers: seq<Worker>, jobs: seq<Job>)
    requires Hands(workers, jobs)
    ensures InJobs(workers, jobs)
  {
  }

  lemma SubmitWorks(s: Async, to: Option<nat>)
    requires Placed(s) && s.main.Submitting? && SubmitCan(s, to)
    ensures Work(SubmitStep(s, to)) < Work(s)
  {
    hide Holds, Hands, JobsCost, WorkersCost;
    if s.main.at.Inserting? {
      var job := Job(s.main.fiber, s.main.taskCount, Pending, []);
      HandsInJobs(s.workers, s.jobs);
      JobAppend(s.jobs, job);
      WorkersAppend(s.workers, s.jobs, job);
    } else if s.main.at.Signalling? && to.Some? {
      WorkerUpdate(s.workers, s.jobs, s.jobs, to.value, Roused);
    }
  }

  lemma PollWorks(s: Async)
    requires Placed(s) && Polled(s) && s.main.Polling? && PollCan(s) && PollSafe(s)
    ensures Work(PollStep(s)) < Work(s)
  {
    hide Holds, Hands, JobsCost, WorkersCost, MoveAll;
    if s.main.step.Splitting? {
      SplitPays(s.jobs, s.done);
      SplitTasks(s.jobs, s.done);
      WorkersSame(s.workers, s.jobs, MoveAll(s.jobs, s.done, Batch));
    } else if s.main.step.Draining? && s.main.batch != [] {
      var j := s.main.batch[0];
      FirstIs(s.main.batch, s.jobs, Batch);
      JobUpdate(s.jobs, j, PollStep(s).jobs[j]);
      WorkersSame(s.workers, s.jobs, PollStep(s).jobs);
    }
  }

  lemma SplitTasks(jobs: seq<Job>, done: seq<JobId>)
    ensures SameTasks(jobs, MoveAll(jobs, done, Batch))
  {
  }

  lemma CloseWorks(s: Async)
    requires |s.workers| == WORKERS && s.main.Closing? && CloseCan(s)
    ensures Work(CloseStep(s)) < Work(s)
  {
    hide JobsCost, WorkersCost, RouseAll;
    RouseAllCosts(s.workers, s.jobs);
  }

  /** Every step of a thread at work leaves less to do. */
  lemma InternalWorks(s: Async, op: Op)
    requires Inv(s) && Can(s, op) && Internal(op)
    ensures Safe(s, op) && Work(Step(s, op)) < Work(s)
  {
    hide Holds, Hands, Logged, Counted, Tallied, Suspends, Owed, Attended, JobOwned, DoneOwned, JobsCost, WorkersCost, WorkerStep,
      SubmitStep, PollStep, CloseStep, WorkerCan, SubmitCan, PollCan, CloseCan, WorkerSafe, PollSafe;
    CanIsSafe(s, op);
    match op {
      case OpAdvance(to) =>
        match s.main {
          case Submitting(_, _, _) => SubmitWorks(s, to);
          case Polling(_, _) => PollWorks(s);
          case Closing(_) => CloseWorks(s);
          case Free =>
        }
      case OpWorker(w) => WorkerWorks(s, w);
      case _ =>
    }
  }

  // ----- so it ends -----

  /** As long as nothing new is asked and no wait returns unasked, a run goes on for no more steps than the work there
      was at its start, whichever threads the system lets run. */
  lemma {:induction false} InternalStepsEnd(states: seq<Async>, ops: seq<Op>, i: nat, k: nat)
    requires IsRun(states, ops) && i <= k < |states| && forall l :: i <= l < k ==> Internal(ops[l])
    ensures Work(states[k]) + (k - i) <= Work(states[i])
    decreases k - i
  {
    hide Inv, Can, Safe, Step, Work, Internal;
    if i < k {
      InternalStepsEnd(states, ops, i, k - 1);
      EveryStateInv(states, ops, k - 1);
      assert Follows(states[k - 1], ops[k - 1], states[k]);
      InternalWorks(states[k - 1], ops[k - 1]);
    }
  }

  /** And where it stops, every job has run and every fiber that waited for one has been resumed. */
  lemma AllReturned(states: seq<Async>, ops: seq<Op>, i: nat)
    requires IsRun(states, ops) && i < |states| && !states[i].main.Closing?
    requires forall op :: Internal(op) ==> !Can(states[i], op)
    ensures states[i].main.Free? && states[i].suspended == {} && states[i].poller.NoPoller? && !states[i].watched
    ensures forall j :: 0 <= j < |states[i].jobs| ==>
      states[i].jobs[j].where.Returned? && states[i].jobs[j].ran == Upto(states[i].jobs[j].taskCount)
  {
    hide IsRun, Inv, Can, Internal;
    EveryStateInv(states, ops, i);
    var s := states[i];
    if !s.main.Free? {
      var op := MainMoves(s);
    }
    forall j | 0 <= j < |s.jobs|
      ensures s.jobs[j].where.Returned?
    {
      if !s.jobs[j].where.Returned? {
        var op := NeverStuck(states, ops, i, j);
      }
    }
    NothingOwed(s);
  }

  lemma NothingOwed(s: Async)
    requires Inv(s) && s.main.Free? && forall j :: 0 <= j < |s.jobs| ==> s.jobs[j].where.Returned?
    ensures s.suspended == {} && s.poller.NoPoller? && !s.watched
    ensures forall j :: 0 <= j < |s.jobs| ==> s.jobs[j].ran == Upto(s.jobs[j].taskCount)
  {
    hide Placed, Tallied, Suspends, Staffed, Attended, JobOwned, DoneOwned;
    assert Unreturned(s.jobs) == {};
    forall j | 0 <= j < |s.jobs|
      ensures s.jobs[j].ran == Upto(s.jobs[j].taskCount)
    {
      assert RanOk(s.jobs[j], s.workers);
    }
  }
}

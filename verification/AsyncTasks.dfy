/** Async.cxx from its caller's side: the tasks handed to awaitTasks are the tasks that are run. */
module AsyncTasks {
  import opened Sequences
  import opened AsyncSpec
  import opened AsyncPlaces
  import opened AsyncProtocol
  import opened AsyncRuns

  // ----- submissions and jobs -----

  /** A call of awaitTasks: who called, and with how many tasks. */
  function Submission(op: Op): seq<(Fid, nat)> {
    match op
    case OpSubmit(f, n) => [(f, n)]
    case _ => []
  }

  function Submissions(ops: seq<Op>): seq<(Fid, nat)> {
    if ops == [] then [] else Submissions(ops[..|ops| - 1]) + Submission(ops[|ops| - 1])
  }

  function JobsOf(jobs: seq<Job>): seq<(Fid, nat)> {
    seq(|jobs|, j requires 0 <= j < |jobs| => (jobs[j].fiber, jobs[j].taskCount))
  }

  /** The scheduler's thread is about to queue a job. */
  predicate Queueing(m: Main) {
    m.Submitting? && (m.at.Locking? || m.at.Inserting?)
  }

  /** The jobs that exist, and the one about to be queued. */
  function Recorded(s: Async): seq<(Fid, nat)> {
    JobsOf(s.jobs) + if Queueing(s.main) then [(s.main.fiber, s.main.taskCount)] else []
  }

  lemma WorkerRecorded(s: Async, w: nat)
    requires WorkerCan(s, w) && WorkerSafe(s, w)
    ensures JobsOf(WorkerStep(s, w).jobs) == JobsOf(s.jobs) && WorkerStep(s, w).main == s.main
  {
  }

  lemma StepRecorded(s: Async, op: Op)
    requires Can(s, op) && Safe(s, op)
    ensures Recorded(Step(s, op)) == Recorded(s) + Submission(op)
  {
    hide AnyParked, WorkerStep, WorkerCan, WorkerSafe;
    if op.OpWorker? {
      WorkerRecorded(s, op.w);
      assert Recorded(s) + [] == Recorded(s);
    }
  }

  /** In every run the jobs, with their fibers and task counts, are the calls of awaitTasks, one for one and in order. */
  lemma {:induction false} JobsAreSubmissions(states: seq<Async>, ops: seq<Op>, i: nat)
    requires IsRun(states, ops) && i < |states|
    ensures Recorded(states[i]) == Submissions(ops[..i])
  {
    hide Can, Safe, Step, Recorded;
    if i == 0 {
      NothingRecorded();
      assert ops[..0] == [];
    } else {
      JobsAreSubmissions(states, ops, i - 1);
      assert Follows(states[i - 1], ops[i - 1], states[i]);
      StepRecorded(states[i - 1], ops[i - 1]);
      assert ops[..i][..i - 1] == ops[..i - 1] && ops[..i][i - 1] == ops[i - 1];
    }
  }

  lemma NothingRecorded()
    ensures Recorded(Initial()) == []
  {
  }

  lemma {:induction false} SubmissionAt(ops: seq<Op>, i: nat)
    requires i < |ops| && ops[i].OpSubmit?
    ensures |Submissions(ops[..i])| < |Submissions(ops)|
    ensures Submissions(ops)[|Submissions(ops[..i])|] == (ops[i].fiber, ops[i].taskCount)
    decreases |ops|
  {
    var n := |ops| - 1;
    if i < n {
      SubmissionAt(ops[..n], i);
      assert ops[..n][..i] == ops[..i];
    } else {
      assert ops[..i] == ops[..n];
    }
  }

  // ----- the tasks that run -----

  /** These are the tasks 0, 1, 2, ..., each once. */
  predicate Counts(ran: seq<nat>) {
    forall t :: 0 <= t < |ran| ==> ran[t] == t
  }

  /** A call of awaitTasks with n tasks becomes the next job, of the calling fiber and with n tasks; these run in order,
      each once, and all n have run before the job is done, let alone its fiber resumed. */
  lemma SubmittedTasksRun(states: seq<Async>, ops: seq<Op>, i: nat, k: nat, f: Fid, n: nat)
    requires IsRun(states, ops) && i < k < |states| && ops[i] == OpSubmit(f, n)
    ensures var s, j := states[k], |states[i].jobs|;
      if j < |s.jobs| then
        && s.jobs[j].fiber == f && s.jobs[j].taskCount == n
        && |s.jobs[j].ran| <= n && Counts(s.jobs[j].ran)
        && (j in s.done || j in BatchOf(s.main) || j in s.resumed ==> |s.jobs[j].ran| == n)
      else Queueing(s.main) && s.main.fiber == f && s.main.taskCount == n
  {
    hide Can, Safe, Step, Submissions, OnePlace;
    JobsAreSubmissions(states, ops, i);
    JobsAreSubmissions(states, ops, k);
    FreeAtSubmission(states, ops, i);
    assert ops[..k][..i] == ops[..i] && ops[..k][i] == ops[i];
    SubmissionAt(ops[..k], i);
    var s, j := states[k], |states[i].jobs|;
    assert Recorded(s)[j] == (f, n);
    if j < |s.jobs| {
      JobsAreConserved(states, ops, k, j);
    }
  }

  lemma FreeAtSubmission(states: seq<Async>, ops: seq<Op>, i: nat)
    requires IsRun(states, ops) && i < |ops| && ops[i].OpSubmit?
    ensures states[i].main.Free?
  {
    assert Follows(states[i], ops[i], states[i + 1]);
  }

  // ----- waking and parking -----

  /** A signal wakes exactly one parked worker if there is one, and touches no other. */
  lemma SignalWakesOne(s: Async, to: Option<nat>)
    requires s.main.Submitting? && s.main.at.Signalling? && SubmitCan(s, to)
    ensures var before, after := s.workers, SubmitStep(s, to).workers;
      && |after| == |before|
      && (AnyParked(before) ==> exists w :: 0 <= w < |before| && before[w].Parked? && after == before[w := Roused])
      && (!AnyParked(before) ==> after == before)
  {
  }

  /** The broadcast wakes every parked worker, and touches no other. */
  lemma BroadcastWakesAll(s: Async)
    requires s.main.Closing? && s.main.stage.Broadcasting?
    ensures var before, after := s.workers, CloseStep(s).workers;
      && |after| == |before|
      && forall w :: 0 <= w < |before| ==> after[w] == if before[w].Parked? then Roused else before[w]
  {
  }

  /** At its test a worker leaves if it has been told to, even with jobs pending; otherwise it takes a job if there is
      one and parks if not, giving up the mutex. */
  lemma TestDecides(s: Async, w: nat)
    requires WorkerCan(s, w) && s.workers[w].Testing?
    ensures var s' := WorkerStep(s, w);
      && s'.workers == s.workers[w := if s.workIsDone then Leaving else if s.pending != [] then Taking else Parked]
      && (s'.workers[w].Parked? ==> s'.jobMutex.None?)
  {
  }

  lemma SpuriousWakesOne(s: Async, w: nat)
    requires Can(s, OpSpurious(w))
    ensures s.workers[w].Parked? && Step(s, OpSpurious(w)) == s.(workers := s.workers[w := Roused])
  {
  }

  /** There are four workers, in every run. */
  lemma FourWorkers(states: seq<Async>, ops: seq<Op>, i: nat)
    requires IsRun(states, ops) && i < |states|
    ensures |states[i].workers| == 4
  {
    hide JobOwned, DoneOwned, Placed, Logged, Counted, Tallied, Polled, Suspends, Owed, Staffed, Attended;
    EveryStateInv(states, ops, i);
  }
}

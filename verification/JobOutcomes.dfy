/** What the job runner's steps mean for one job: when it starts, how it ends, and why it ended so. */
module JobOutcomes {
  import opened Common
  import opened JobRunner

  /** Jobs that hold a permit are the RUNNING ones. */
  lemma PermitsAreRunning(workers: nat, s: State)
    requires Inv(workers, s)
    ensures ActiveTasks(s.tasks) == RunningJobs(s.jobs)
  {
    forall j: nat
      ensures j in ActiveTasks(s.tasks) <==> j in RunningJobs(s.jobs)
    {
      if j < |s.jobs| {
        assert JobOk(s, j);
      }
    }
  }

  /** Only job j's row and task have changed. */
  ghost predicate OnlyJob(s: State, t: State, j: nat, status: Status, phase: Phase)
    requires j < |s.jobs| && j in s.tasks
  {
    && t.jobs == s.jobs[j := Job(s.jobs[j].key, status)]
    && t.tasks == s.tasks[j := Task(phase, s.tasks[j].cancelled)]
    && t.closing == s.closing && t.cleared == s.cleared
  }

  /** A submission is refused after shutdown began, finds the job that holds its key, or queues a new job. */
  lemma Submitted(workers: nat, s: State, key: string)
    ensures var t := Next(workers, s, Submit(key));
            if s.closing || (key != "" && key in s.keys) then t == s
            else
              && t.jobs == s.jobs + [Job(key, Queued)] && t.tasks == s.tasks[|s.jobs| := Task(Created, false)]
              && (forall k :: k in t.keys <==> k in s.keys || (key != "" && k == key))
              && (forall k | k in t.keys :: t.keys[k] == if key != "" && k == key then |s.jobs| else s.keys[k])
  {
  }

  /** A job starts with its first step exactly when it is not cancelled, nobody queues before it and fewer than `workers` run. */
  lemma StartsIff(workers: nat, s: State, j: nat, behind: bool)
    requires Inv(workers, s) && InPhase(s, j, Created)
    ensures var t := Next(workers, s, FirstStep(j, behind));
            && t.keys == s.keys
            && if s.tasks[j].cancelled then OnlyJob(s, t, j, Queued, Ended)
               else if !behind && |RunningJobs(s.jobs)| < workers then OnlyJob(s, t, j, Running, Active)
               else OnlyJob(s, t, j, Queued, Waiting)
  {
    PermitsAreRunning(workers, s);
    assert JobOk(s, j);
    assert s.jobs[j] == Job(s.jobs[j].key, Queued);
  }

  /** A waiting job whose turn comes is cancelled if that was asked for, starts if fewer than `workers` run, and else goes on waiting. */
  lemma WakesTo(workers: nat, s: State, j: nat)
    requires Inv(workers, s) && InPhase(s, j, Waiting)
    ensures var t := Next(workers, s, Wake(j));
            if s.tasks[j].cancelled then OnlyJob(s, t, j, Cancelled, Ended) && KeyReleased(s, t, j)
            else if |RunningJobs(s.jobs)| < workers then OnlyJob(s, t, j, Running, Active) && t.keys == s.keys
            else t == s
  {
    PermitsAreRunning(workers, s);
    Released(workers, s, j, Cancelled);
  }

  /** Exactly the entry of job j has gone from the key table. */
  ghost predicate KeyReleased(s: State, t: State, j: nat) {
    && (forall k :: k in t.keys <==> k in s.keys && s.keys[k] != j)
    && (forall k | k in t.keys :: t.keys[k] == s.keys[k])
  }

  lemma Released(workers: nat, s: State, j: nat, outcome: Status)
    requires Inv(workers, s) && j < |s.jobs| && j in s.tasks
    ensures KeyReleased(s, Settled(s, j, outcome), j)
  {
    forall k | k in s.keys && s.keys[k] == j
      ensures k == s.jobs[j].key
    {
      assert KeyOk(s, k);
    }
  }

  /** A job's body decides its status: what it returns is what the job ends as, and its key is free. */
  lemma ReturnsAs(workers: nat, s: State, j: nat, outcome: Status)
    requires Inv(workers, s) && InPhase(s, j, Active) && outcome in {Done, Cancelled, Failed}
    ensures var t := Next(workers, s, Return(j, outcome));
            OnlyJob(s, t, j, outcome, Ended) && KeyReleased(s, t, j)
  {
    Released(workers, s, j, outcome);
  }

  /** Asking for cancellation changes nothing but the mark on a task that has not ended. */
  lemma CancelRequested(workers: nat, s: State, j: nat)
    ensures var t := Next(workers, s, RequestCancel(j));
            && t.jobs == s.jobs && t.keys == s.keys
            && t.tasks == if j in s.tasks && s.tasks[j].phase != Ended then s.tasks[j := Task(s.tasks[j].phase, true)] else s.tasks
  {
  }

  /** A cancel call returns once the task is over; a job it finds unfinished is CANCELLED, and no key names it. */
  lemma CancelCompleted(workers: nat, s: State, j: nat)
    requires j < |s.jobs|
    ensures var t := Next(workers, s, CompleteCancel(j));
            if j in s.tasks && s.tasks[j].phase != Ended then t == s
            else
              && t.jobs == s.jobs[j := Job(s.jobs[j].key, if s.jobs[j].status in {Queued, Running} then Cancelled else s.jobs[j].status)]
              && t.tasks == s.tasks && KeyReleased(s, t, j)
  {
    assert Job(s.jobs[j].key, s.jobs[j].status) == s.jobs[j];
  }

  /** Shutdown first refuses submissions and marks every task, and once no task is left forgets the keys. */
  lemma ShutdownMarks(workers: nat, s: State, j: nat)
    ensures var t := Next(workers, s, BeginShutdown);
            && t.closing && t.jobs == s.jobs && t.keys == s.keys && t.tasks.Keys == s.tasks.Keys
            && (j in s.tasks ==> t.tasks[j] == Task(s.tasks[j].phase, true))
    ensures Next(workers, s, EndShutdown)
         == if s.closing && s.tasks == map[] then State(s.jobs, map[], map[], true, true) else s
  {
  }

  // ---------------------------------------------------------------- why a job ended

  /** The step gives job j its final status: its body's outcome, or CANCELLED while it waits or after its task is over. */
  ghost predicate Decides(s: State, step: Step, j: nat, status: Status) {
    || (step == Return(j, status) && InPhase(s, j, Active) && status in {Done, Cancelled, Failed})
    || (step == Wake(j) && InPhase(s, j, Waiting) && s.tasks[j].cancelled && status == Cancelled)
    || (step == CompleteCancel(j) && (j in s.tasks ==> s.tasks[j].phase == Ended) && status == Cancelled)
  }

  lemma EndsBy(workers: nat, s: State, step: Step, j: nat)
    requires j < |Next(workers, s, step).jobs| && !Unfinished(Next(workers, s, step).jobs[j])
    requires j < |s.jobs| ==> Unfinished(s.jobs[j])
    ensures Decides(s, step, j, Next(workers, s, step).jobs[j].status)
  {
    hide DropJob, PermitFree, Unkeyed;
  }

  ghost predicate DecidedAt(workers: nat, steps: seq<Step>, n: nat, j: nat, status: Status)
    requires n < |steps|
  {
    Decides(After(workers, steps[..n]), steps[n], j, status)
  }

  /** Every final status in every history comes from one such step. */
  lemma {:induction false} EndedBy(workers: nat, steps: seq<Step>, j: nat) returns (n: nat)
    requires j < |After(workers, steps).jobs| && !Unfinished(After(workers, steps).jobs[j])
    ensures n < |steps| && DecidedAt(workers, steps, n, j, After(workers, steps).jobs[j].status)
    decreases |steps|
  {
    hide Next, Unfinished, Decides;
    NoJobs(workers);
    n := |steps| - 1;
    var before := After(workers, steps[..n]);
    if j < |before.jobs| && !Unfinished(before.jobs[j]) {
      ReachableInv(workers, steps[..n]);
      TerminalStep(workers, before, steps[n], j);
      var m := EndedBy(workers, steps[..n], j);
      assert steps[..n][..m] == steps[..m];
      n := m;
    } else {
      EndsBy(workers, before, steps[n], j);
    }
  }

  lemma NoJobs(workers: nat)
    ensures After(workers, []).jobs == []
  {
  }
}

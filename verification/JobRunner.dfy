/**
 The in-process job runner on one event loop. Every step below runs without yielding to the
 loop; a task is created, takes its first step, may wait for the semaphore, runs its factory
 and ends. Job ids are positions; an empty key is no key.
 */
module JobRunner {
  import opened Common

  datatype Status = Queued | Running | Done | Cancelled | Failed

  datatype Job = Job(key: string, status: Status)

  datatype Phase = Created | Waiting | Active | Ended

  datatype Task = Task(phase: Phase, cancelled: bool)

  /** `cleared` is set once shutdown has emptied the key table. */
  datatype State = State(jobs: seq<Job>, tasks: map<nat, Task>, keys: map<string, nat>, closing: bool, cleared: bool)

  datatype Refusal = ShuttingDown

  predicate Unfinished(job: Job) {
    job.status == Queued || job.status == Running
  }

  function ActiveTasks(tasks: map<nat, Task>): set<nat> {
    set j | j in tasks && tasks[j].phase == Active
  }

  function RunningJobs(jobs: seq<Job>): set<nat> {
    set j: nat | j < |jobs| && jobs[j].status == Running
  }

  // ---------------------------------------------------------------- steps

  datatype Step =
    | Submit(key: string)
    | FirstStep(job: nat, behind: bool)  // behind: other jobs already queue for the semaphore
    | Wake(job: nat)
    | Return(job: nat, outcome: Status)
    | Reap(job: nat)
    | RequestCancel(job: nat)
    | CompleteCancel(job: nat)
    | BeginShutdown
    | EndShutdown

  function WithStatus(s: State, j: nat, status: Status): State
    requires j < |s.jobs|
  {
    s.(jobs := s.jobs[j := s.jobs[j].(status := status)])
  }

  function WithPhase(s: State, j: nat, phase: Phase): State
    requires j in s.tasks
  {
    s.(tasks := s.tasks[j := s.tasks[j].(phase := phase)])
  }

  /** The finally clause: the key goes only if it still names this job. */
  function Unkeyed(s: State, j: nat): (t: State)
    requires j < |s.jobs|
    ensures t.jobs == s.jobs && t.tasks == s.tasks
  {
    var key := s.jobs[j].key;
    if key in s.keys && s.keys[key] == j then s.(keys := s.keys - {key}) else s
  }

  /** The task's body is left with a final status. */
  function Settled(s: State, j: nat, outcome: Status): State
    requires j < |s.jobs| && j in s.tasks
  {
    Unkeyed(WithPhase(WithStatus(s, j, outcome), j, Ended), j)
  }

  function CancelTasks(tasks: map<nat, Task>): map<nat, Task> {
    map j | j in tasks :: tasks[j].(cancelled := true)
  }

  function DropJob(keys: map<string, nat>, j: nat): map<string, nat> {
    map k | k in keys && keys[k] != j :: keys[k]
  }

  predicate PermitFree(workers: nat, s: State) {
    |ActiveTasks(s.tasks)| < workers
  }

  predicate InPhase(s: State, j: nat, phase: Phase) {
    j < |s.jobs| && j in s.tasks && s.tasks[j].phase == phase
  }

  function Next(workers: nat, s: State, step: Step): State {
    match step
    case Submit(key) =>
      if s.closing || (key != "" && key in s.keys) then s
      else
        var j := |s.jobs|;
        State(s.jobs + [Job(key, Queued)], s.tasks[j := Task(Created, false)],
              if key != "" then s.keys[key := j] else s.keys, s.closing, s.cleared)
    case FirstStep(j, behind) =>
      if !InPhase(s, j, Created) then s
      else if s.tasks[j].cancelled then WithPhase(s, j, Ended)
      else if !behind && PermitFree(workers, s) then WithPhase(WithStatus(s, j, Running), j, Active)
      else WithPhase(s, j, Waiting)
    case Wake(j) =>
      if !InPhase(s, j, Waiting) then s
      else if s.tasks[j].cancelled then Settled(s, j, Cancelled)
      else if PermitFree(workers, s) then WithPhase(WithStatus(s, j, Running), j, Active)
      else s
    case Return(j, outcome) =>
      if InPhase(s, j, Active) && outcome in {Done, Cancelled, Failed} then Settled(s, j, outcome) else s
    case Reap(j) => if InPhase(s, j, Ended) then s.(tasks := s.tasks - {j}) else s
    case RequestCancel(j) =>
      if j in s.tasks && s.tasks[j].phase != Ended then s.(tasks := s.tasks[j := s.tasks[j].(cancelled := true)]) else s
    case CompleteCancel(j) =>
      if j in s.tasks && s.tasks[j].phase != Ended then s
      else
        var t := if j < |s.jobs| && Unfinished(s.jobs[j]) then WithStatus(s, j, Cancelled) else s;
        t.(keys := DropJob(t.keys, j))
    case BeginShutdown => s.(closing := true, tasks := CancelTasks(s.tasks))
    case EndShutdown => if s.closing && s.tasks == map[] then s.(keys := map[], cleared := true) else s
  }

  function Fresh(): State {
    State([], map[], map[], false, false)
  }

  function After(workers: nat, steps: seq<Step>): State {
    if steps == [] then Fresh() else Next(workers, After(workers, steps[..|steps| - 1]), steps[|steps| - 1])
  }

  // ---------------------------------------------------------------- the invariant

  /** A job's status follows its task; only an active task's job is RUNNING. */
  ghost predicate JobOk(s: State, j: nat)
    requires j < |s.jobs|
  {
    && (j !in s.tasks || s.tasks[j].phase == Ended ==> s.jobs[j].status != Running)
    && (j in s.tasks && s.tasks[j].phase in {Created, Waiting} ==> s.jobs[j].status == Queued)
    && (j in s.tasks && s.tasks[j].phase == Active ==> s.jobs[j].status == Running)
  }

  /** An unfinished job with a key is the one the key table names, until shutdown clears it. */
  ghost predicate KeyedOk(s: State, j: nat)
    requires j < |s.jobs|
  {
    !s.cleared && Unfinished(s.jobs[j]) && s.jobs[j].key != "" ==> s.jobs[j].key in s.keys && s.keys[s.jobs[j].key] == j
  }

  /** Every entry of the key table names an unfinished job with that key. */
  ghost predicate KeyOk(s: State, k: string)
    requires k in s.keys
  {
    k != "" && s.keys[k] < |s.jobs| && s.jobs[s.keys[k]].key == k && Unfinished(s.jobs[s.keys[k]])
  }

  ghost predicate Share(s: State, i: nat, j: nat)
    requires i < |s.jobs| && j < |s.jobs|
  {
    s.jobs[i].key != "" && s.jobs[i].key == s.jobs[j].key && Unfinished(s.jobs[i]) && Unfinished(s.jobs[j])
  }

  ghost predicate Inv(workers: nat, s: State) {
    && (forall j | j in s.tasks :: j < |s.jobs|)
    && (forall j | 0 <= j < |s.jobs| :: JobOk(s, j) && KeyedOk(s, j))
    && (forall k | k in s.keys :: KeyOk(s, k))
    && (forall i, j | 0 <= i < j < |s.jobs| :: !Share(s, i, j))
    && |ActiveTasks(s.tasks)| <= workers
    && (s.cleared ==> s.closing && s.tasks == map[] && s.keys == map[])
  }

  // ---------------------------------------------------------------- steps keep it

  /** Steps that add no job: sharing, keys and permits are judged row by row. */
  lemma KeepRows(workers: nat, s: State, t: State)
    requires Inv(workers, s)
    requires |t.jobs| == |s.jobs| && (forall j | j in t.tasks :: j < |t.jobs|)
    requires forall j | 0 <= j < |s.jobs| ::
               t.jobs[j].key == s.jobs[j].key && (Unfinished(t.jobs[j]) ==> Unfinished(s.jobs[j])) && JobOk(t, j) && KeyedOk(t, j)
    requires forall k | k in t.keys :: KeyOk(t, k)
    requires |ActiveTasks(t.tasks)| <= workers
    requires t.cleared ==> t.closing && t.tasks == map[] && t.keys == map[]
    ensures Inv(workers, t)
  {
    forall i, j | 0 <= i < j < |t.jobs|
      ensures !Share(t, i, j)
    {
      assert !Share(s, i, j);
    }
  }

  lemma SubmitKeeps(workers: nat, s: State, key: string)
    requires Inv(workers, s)
    ensures Inv(workers, Next(workers, s, Submit(key)))
  {
    var t := Next(workers, s, Submit(key));
    if t != s {
      var n := |s.jobs|;
      assert n !in s.tasks;
      assert ActiveTasks(t.tasks) == ActiveTasks(s.tasks);
      forall k | k in t.keys
        ensures KeyOk(t, k)
      {
        assert k in s.keys ==> KeyOk(s, k);
      }
      forall j | 0 <= j < |t.jobs|
        ensures JobOk(t, j) && KeyedOk(t, j)
      {
        assert j < n ==> JobOk(s, j) && KeyedOk(s, j);
      }
      forall i, j | 0 <= i < j < |t.jobs|
        ensures !Share(t, i, j)
      {
        assert j < n ==> !Share(s, i, j);
        assert KeyedOk(s, i);
      }
    }
  }

  lemma StartKeeps(workers: nat, s: State, j: nat)
    requires Inv(workers, s) && j < |s.jobs| && j in s.tasks && s.tasks[j].phase in {Created, Waiting}
    requires PermitFree(workers, s)
    ensures Inv(workers, WithPhase(WithStatus(s, j, Running), j, Active))
  {
    var t := WithPhase(WithStatus(s, j, Running), j, Active);
    assert ActiveTasks(t.tasks) == ActiveTasks(s.tasks) + {j};
    assert JobOk(s, j);
    RowsKept(workers, s, t);
  }

  /** A change that leaves the keys alone and keeps unfinished jobs unfinished. */
  lemma RowsKept(workers: nat, s: State, t: State)
    requires Inv(workers, s)
    requires |t.jobs| == |s.jobs| && (forall j | j in t.tasks :: j < |t.jobs|)
    requires t.keys == s.keys && t.closing == s.closing && t.cleared == s.cleared && (s.cleared ==> t.tasks == map[])
    requires forall j | 0 <= j < |s.jobs| ::
               t.jobs[j].key == s.jobs[j].key && (Unfinished(t.jobs[j]) <==> Unfinished(s.jobs[j])) && (JobOk(s, j) ==> JobOk(t, j))
    requires |ActiveTasks(t.tasks)| <= workers
    ensures Inv(workers, t)
  {
    forall j | 0 <= j < |s.jobs|
      ensures JobOk(t, j) && KeyedOk(t, j)
    {
      assert JobOk(s, j) && KeyedOk(s, j);
    }
    forall k | k in t.keys
      ensures KeyOk(t, k)
    {
      assert KeyOk(s, k);
    }
    KeepRows(workers, s, t);
  }

  lemma PhaseKeeps(workers: nat, s: State, j: nat, phase: Phase)
    requires Inv(workers, s) && j < |s.jobs| && j in s.tasks && s.tasks[j].phase == Created && phase in {Waiting, Ended}
    ensures Inv(workers, WithPhase(s, j, phase))
  {
    var t := WithPhase(s, j, phase);
    assert ActiveTasks(t.tasks) == ActiveTasks(s.tasks);
    assert JobOk(s, j);
    RowsKept(workers, s, t);
  }

  lemma SettledKeeps(workers: nat, s: State, j: nat, outcome: Status)
    requires Inv(workers, s) && j < |s.jobs| && j in s.tasks && outcome in {Done, Cancelled, Failed}
    ensures Inv(workers, Settled(s, j, outcome))
  {
    hide JobOk, KeyedOk, KeyOk, Share;
    var t := Settled(s, j, outcome);
    assert ActiveTasks(t.tasks) == ActiveTasks(s.tasks) - {j};
    forall i | 0 <= i < |s.jobs|
      ensures JobOk(t, i) && KeyedOk(t, i)
    {
      assert JobOk(s, i) && KeyedOk(s, i);
      SettledRow(s, j, outcome, i);
    }
    forall k | k in t.keys
      ensures KeyOk(t, k)
    {
      assert KeyOk(s, k) && KeyedOk(s, j);
      SettledKey(s, j, outcome, k);
    }
    KeepRows(workers, s, t);
  }

  lemma SettledRow(s: State, j: nat, outcome: Status, i: nat)
    requires j < |s.jobs| && j in s.tasks && outcome in {Done, Cancelled, Failed}
    requires i < |s.jobs| && JobOk(s, i) && KeyedOk(s, i)
    ensures JobOk(Settled(s, j, outcome), i) && KeyedOk(Settled(s, j, outcome), i)
  {
  }

  lemma SettledKey(s: State, j: nat, outcome: Status, k: string)
    requires j < |s.jobs| && j in s.tasks && outcome in {Done, Cancelled, Failed}
    requires k in s.keys && k in Settled(s, j, outcome).keys && KeyOk(s, k)
    ensures KeyOk(Settled(s, j, outcome), k)
  {
  }

  lemma CancelledKeeps(workers: nat, s: State, j: nat)
    requires Inv(workers, s)
    ensures Inv(workers, Next(workers, s, CompleteCancel(j)))
  {
    var t := Next(workers, s, CompleteCancel(j));
    if !(j in s.tasks && s.tasks[j].phase != Ended) {
      forall i | 0 <= i < |s.jobs|
        ensures JobOk(t, i) && KeyedOk(t, i)
      {
        assert JobOk(s, i) && KeyedOk(s, i);
      }
      forall k | k in t.keys
        ensures KeyOk(t, k)
      {
        assert KeyOk(s, k);
      }
      KeepRows(workers, s, t);
    }
  }

  lemma ReapKeeps(workers: nat, s: State, j: nat)
    requires Inv(workers, s)
    ensures Inv(workers, Next(workers, s, Reap(j)))
  {
    if InPhase(s, j, Ended) {
      var t := Next(workers, s, Reap(j));
      assert ActiveTasks(t.tasks) == ActiveTasks(s.tasks);
      RowsKept(workers, s, t);
    }
  }

  lemma RequestKeeps(workers: nat, s: State, j: nat)
    requires Inv(workers, s)
    ensures Inv(workers, Next(workers, s, RequestCancel(j)))
  {
    var t := Next(workers, s, RequestCancel(j));
    if t != s {
      assert ActiveTasks(t.tasks) == ActiveTasks(s.tasks);
      RowsKept(workers, s, t);
    }
  }

  lemma BeginKeeps(workers: nat, s: State)
    requires Inv(workers, s)
    ensures Inv(workers, Next(workers, s, BeginShutdown))
  {
    var t := Next(workers, s, BeginShutdown);
    assert ActiveTasks(t.tasks) == ActiveTasks(s.tasks);
    RowsKept(workers, s, t.(closing := s.closing));
    KeepRows(workers, t.(closing := s.closing), t);
  }

  lemma EndKeeps(workers: nat, s: State)
    requires Inv(workers, s)
    ensures Inv(workers, Next(workers, s, EndShutdown))
  {
    var t := Next(workers, s, EndShutdown);
    if t != s {
      assert ActiveTasks(t.tasks) == {};
      forall j | 0 <= j < |s.jobs|
        ensures JobOk(t, j) && KeyedOk(t, j)
      {
        assert JobOk(s, j);
      }
      KeepRows(workers, s, t);
    }
  }

  lemma StepKeeps(workers: nat, s: State, step: Step)
    requires Inv(workers, s)
    ensures Inv(workers, Next(workers, s, step))
  {
    hide Inv, Settled, WithPhase, WithStatus;
    match step
    case Submit(key) => SubmitKeeps(workers, s, key);
    case FirstStep(j, behind) =>
      if InPhase(s, j, Created) {
        if s.tasks[j].cancelled {
          PhaseKeeps(workers, s, j, Ended);
        } else if !behind && PermitFree(workers, s) {
          StartKeeps(workers, s, j);
        } else {
          PhaseKeeps(workers, s, j, Waiting);
        }
      }
    case Wake(j) =>
      if InPhase(s, j, Waiting) {
        if s.tasks[j].cancelled {
          SettledKeeps(workers, s, j, Cancelled);
        } else if PermitFree(workers, s) {
          StartKeeps(workers, s, j);
        }
      }
    case Return(j, outcome) =>
      if InPhase(s, j, Active) && outcome in {Done, Cancelled, Failed} {
        SettledKeeps(workers, s, j, outcome);
      }
    case Reap(j) => ReapKeeps(workers, s, j);
    case RequestCancel(j) => RequestKeeps(workers, s, j);
    case CompleteCancel(j) => CancelledKeeps(workers, s, j);
    case BeginShutdown => BeginKeeps(workers, s);
    case EndShutdown => EndKeeps(workers, s);
  }

  lemma {:induction false} ReachableInv(workers: nat, steps: seq<Step>)
    ensures Inv(workers, After(workers, steps))
    decreases |steps|
  {
    if steps == [] {
      assert ActiveTasks(map[]) == {};
    } else {
      ReachableInv(workers, steps[..|steps| - 1]);
      StepKeeps(workers, After(workers, steps[..|steps| - 1]), steps[|steps| - 1]);
    }
  }

  // ---------------------------------------------------------------- what it means

  lemma SubsetSize(a: set<nat>, b: set<nat>)
    requires a <= b
    ensures |a| <= |b|
  {
    if a != {} {
      var x :| x in a;
      SubsetSize(a - {x}, b - {x});
    }
  }

  /** In every interleaving: at most `workers` jobs are RUNNING, keys name unfinished jobs, and no two unfinished jobs share one. */
  lemma NeverTooMany(workers: nat, steps: seq<Step>)
    ensures var s := After(workers, steps);
            && |RunningJobs(s.jobs)| <= workers
            && (forall k | k in s.keys :: s.keys[k] < |s.jobs| && s.jobs[s.keys[k]].key == k && Unfinished(s.jobs[s.keys[k]]))
            && (forall i, j | 0 <= i < j < |s.jobs| :: !Share(s, i, j))
  {
    ReachableInv(workers, steps);
    var s := After(workers, steps);
    forall j | j in RunningJobs(s.jobs)
      ensures j in ActiveTasks(s.tasks)
    {
      assert JobOk(s, j);
    }
    SubsetSize(RunningJobs(s.jobs), ActiveTasks(s.tasks));
    assert forall k | k in s.keys :: KeyOk(s, k);
  }

  lemma TerminalStep(workers: nat, s: State, step: Step, j: nat)
    requires Inv(workers, s) && j < |s.jobs| && !Unfinished(s.jobs[j])
    ensures j < |Next(workers, s, step).jobs| && Next(workers, s, step).jobs[j] == s.jobs[j]
  {
    assert JobOk(s, j);
  }

  /** A final status never changes, whatever is submitted, cancelled or shut down afterwards. */
  lemma {:induction false} TerminalIsFinal(workers: nat, steps: seq<Step>, more: seq<Step>, j: nat)
    requires j < |After(workers, steps).jobs| && !Unfinished(After(workers, steps).jobs[j])
    ensures j < |After(workers, steps + more).jobs|
    ensures After(workers, steps + more).jobs[j] == After(workers, steps).jobs[j]
    decreases |more|
  {
    hide After, Next, Inv;
    if more == [] {
      assert steps + more == steps;
    } else {
      var init := more[..|more| - 1];
      assert (steps + init) + [more[|more| - 1]] == steps + more;
      TerminalIsFinal(workers, steps, init, j);
      ReachableInv(workers, steps + init);
      TerminalStep(workers, After(workers, steps + init), more[|more| - 1], j);
      AfterSnoc(workers, steps + init, more[|more| - 1]);
    }
  }

  lemma AfterSnoc(workers: nat, steps: seq<Step>, step: Step)
    ensures After(workers, steps + [step]) == Next(workers, After(workers, steps), step)
  {
    assert (steps + [step])[..|steps|] == steps;
  }

  /** Once shutdown has finished nothing runs, and a job left unfinished is QUEUED. */
  lemma AfterShutdown(workers: nat, steps: seq<Step>, j: nat)
    requires After(workers, steps).cleared && j < |After(workers, steps).jobs|
    ensures After(workers, steps).tasks == map[] && After(workers, steps).keys == map[]
    ensures After(workers, steps).jobs[j].status != Running
  {
    ReachableInv(workers, steps);
    assert JobOk(After(workers, steps), j);
  }

  function Steps(workers: nat, s: State, more: seq<Step>): State {
    if more == [] then s else Next(workers, Steps(workers, s, more[..|more| - 1]), more[|more| - 1])
  }

  /** Waiting for its first turn, or out of turns already: when shutdown begins, the job is QUEUED and its body is not running. */
  predicate Stranded(s: State, j: nat) {
    j < |s.jobs| && s.jobs[j].status == Queued && (j in s.tasks ==> s.tasks[j].phase == Created || s.tasks[j].phase == Ended)
  }

  /** A cancel call for the job gets to its end: the job's task is over. */
  predicate Closes(s: State, step: Step, j: nat) {
    step == CompleteCancel(j) && (j in s.tasks ==> s.tasks[j].phase == Ended)
  }

  /** Some cancel call for the job got to its end. */
  ghost predicate Closed(workers: nat, s: State, more: seq<Step>, j: nat) {
    more != []
    && (Closed(workers, s, more[..|more| - 1], j) || Closes(Steps(workers, s, more[..|more| - 1]), more[|more| - 1], j))
  }

  /** A stranded job whose task can only end. */
  ghost predicate Abandoned(s: State, j: nat) {
    Stranded(s, j) && (j in s.tasks && s.tasks[j].phase == Created ==> s.tasks[j].cancelled)
  }

  /** The job is final, or its body still runs and will make it so. */
  ghost predicate Settling(s: State, j: nat) {
    j < |s.jobs| && (Unfinished(s.jobs[j]) ==> j in s.tasks && s.tasks[j].phase in {Waiting, Active})
  }

  lemma AbandonedStep(workers: nat, s: State, step: Step, j: nat)
    requires Abandoned(s, j)
    ensures if Closes(s, step, j) then j < |Next(workers, s, step).jobs| && !Unfinished(Next(workers, s, step).jobs[j])
            else Abandoned(Next(workers, s, step), j)
  {
    hide DropJob, PermitFree, Unkeyed;
  }

  lemma SettlingStep(workers: nat, s: State, step: Step, j: nat)
    requires Inv(workers, s) && Settling(s, j)
    ensures Settling(Next(workers, s, step), j)
  {
    hide DropJob, PermitFree, Unkeyed, KeyedOk, KeyOk, Share;
    assert JobOk(s, j);
  }

  lemma {:induction false} DuringShutdown(workers: nat, s: State, more: seq<Step>, j: nat)
    requires Inv(workers, s) && j < |s.jobs|
    ensures var begun := Next(workers, s, BeginShutdown);
            var t := Steps(workers, begun, more);
            && Inv(workers, t)
            && if Stranded(s, j) && !Closed(workers, begun, more, j) then Abandoned(t, j) else Settling(t, j)
    decreases |more|
  {
    hide Inv, Next;
    var begun := Next(workers, s, BeginShutdown);
    if more == [] {
      StepKeeps(workers, s, BeginShutdown);
      ShutdownBegins(workers, s, j);
    } else {
      var front, step := more[..|more| - 1], more[|more| - 1];
      var t := Steps(workers, begun, front);
      DuringShutdown(workers, s, front, j);
      StepKeeps(workers, t, step);
      if Stranded(s, j) && !Closed(workers, begun, front, j) {
        AbandonedStep(workers, t, step, j);
      } else {
        SettlingStep(workers, t, step, j);
      }
    }
  }

  lemma ShutdownBegins(workers: nat, s: State, j: nat)
    requires Inv(workers, s) && j < |s.jobs|
    ensures var begun := Next(workers, s, BeginShutdown);
            if Stranded(s, j) then Abandoned(begun, j) else Settling(begun, j)
  {
    assert JobOk(s, j);
  }

  /**
   Exactly which jobs a finished shutdown leaves unfinished, from any consistent state and
   whatever happens in between: those that were stranded when it began and for which no cancel
   call got to its end. Every other job is final.
   */
  lemma LeftUnfinishedIff(workers: nat, s: State, more: seq<Step>, j: nat)
    requires Inv(workers, s) && j < |s.jobs|
    requires Steps(workers, Next(workers, s, BeginShutdown), more).cleared
    ensures var begun := Next(workers, s, BeginShutdown);
            var end := Steps(workers, begun, more);
            && j < |end.jobs|
            && (Unfinished(end.jobs[j]) <==> Stranded(s, j) && !Closed(workers, begun, more, j))
            && (Unfinished(end.jobs[j]) ==> end.jobs[j].status == Queued)
  {
    DuringShutdown(workers, s, more, j);
  }

  /** Such a job exists: a task that shutdown cancels before its first step never settles its status. */
  lemma QueuedForever(workers: nat, key: string)
    ensures var s := After(workers, [Submit(key), BeginShutdown, FirstStep(0, false), Reap(0), EndShutdown]);
            s.cleared && |s.jobs| == 1 && s.jobs[0].status == Queued
  {
    var steps := [Submit(key), BeginShutdown, FirstStep(0, false), Reap(0), EndShutdown];
    var s1 := Next(workers, Fresh(), steps[0]);
    var s2 := Next(workers, s1, steps[1]);
    var s3 := Next(workers, s2, steps[2]);
    var s4 := Next(workers, s3, steps[3]);
    AfterNext(workers, steps, 0);
    AfterNext(workers, steps, 1);
    AfterNext(workers, steps, 2);
    AfterNext(workers, steps, 3);
    AfterNext(workers, steps, 4);
    assert steps[..5] == steps;
    assert s4.tasks == map[];
  }

  lemma AfterNext(workers: nat, steps: seq<Step>, i: nat)
    requires i < |steps|
    ensures After(workers, steps[..0]) == Fresh()
    ensures After(workers, steps[..i + 1]) == Next(workers, After(workers, steps[..i]), steps[i])
  {
    assert steps[..i + 1][..i] == steps[..i];
  }

  // ---------------------------------------------------------------- the runner

  class InProcessRunner {
    const workers: nat
    var jobs: seq<Job>
    var tasks: map<nat, Task>
    var keys: map<string, nat>
    var closing: bool
    ghost var cleared: bool

    ghost function Now(): State
      reads this
    {
      State(jobs, tasks, keys, closing, cleared)
    }

    ghost predicate Valid()
      reads this
    {
      Inv(workers, Now())
    }

    constructor (maxWorkers: nat)
      requires maxWorkers > 0
      ensures Valid() && workers == maxWorkers && Now() == Fresh()
    {
      workers := maxWorkers;
      jobs, tasks, keys, closing, cleared := [], map[], map[], false, false;
      new;
      assert ActiveTasks(tasks) == {};
    }

    /** A key that is in use yields the unfinished job that holds it. */
    method SubmitJob(key: string) returns (result: Result<nat, Refusal>)
      requires Valid()
      modifies this
      ensures Valid() && Now() == Next(workers, old(Now()), Submit(key))
      ensures result.Err? <==> closing
      ensures result.Ok? ==> result.value < |jobs| && jobs[result.value].key == key && Unfinished(jobs[result.value])
      ensures result.Ok? && key != "" ==> key in keys && keys[key] == result.value
    {
      StepKeeps(workers, Now(), Submit(key));
      if closing {
        return Err(ShuttingDown);
      }
      if key != "" && key in keys {
        assert KeyOk(Now(), key);
        return Ok(keys[key]);
      }
      var j := |jobs|;
      jobs := jobs + [Job(key, Queued)];
      if key != "" {
        keys := keys[key := j];
      }
      tasks := tasks[j := Task(Created, false)];
      result := Ok(j);
    }

    /** The event loop gives a new task its first turn. */
    method RunFirstStep(j: nat, behind: bool)
      requires Valid() && j in tasks && j < |jobs| && tasks[j].phase == Created
      modifies this
      ensures Valid() && Now() == Next(workers, old(Now()), FirstStep(j, behind))
    {
      StepKeeps(workers, Now(), FirstStep(j, behind));
      if tasks[j].cancelled {
        tasks := tasks[j := tasks[j].(phase := Ended)];
      } else {
        Enter(j, behind);
      }
    }

    /** async with self._semaphore, then the RUNNING status. */
    method Enter(j: nat, behind: bool)
      requires j in tasks && j < |jobs| && tasks[j].phase in {Created, Waiting}
      modifies this
      ensures Now() == if !behind && PermitFree(workers, old(Now())) then WithPhase(WithStatus(old(Now()), j, Running), j, Active)
                       else old(Now()).(tasks := old(tasks)[j := old(tasks)[j].(phase := Waiting)])
    {
      if !behind && |ActiveTasks(tasks)| < workers {
        jobs := jobs[j := jobs[j].(status := Running)];
        tasks := tasks[j := tasks[j].(phase := Active)];
      } else {
        tasks := tasks[j := tasks[j].(phase := Waiting)];
      }
    }

    /** The factory is over, or the wait for the semaphore was cancelled. */
    method Settle(j: nat, outcome: Status)
      requires Valid() && j in tasks && j < |jobs| && outcome in {Done, Cancelled, Failed}
      requires tasks[j].phase == Active || (tasks[j].phase == Waiting && tasks[j].cancelled && outcome == Cancelled)
      modifies this
      ensures Valid()
      ensures Now() == Next(workers, old(Now()), if old(tasks)[j].phase == Active then Return(j, outcome) else Wake(j))
    {
      StepKeeps(workers, Now(), if tasks[j].phase == Active then Return(j, outcome) else Wake(j));
      assert "" in keys ==> KeyOk(Now(), "");
      jobs := jobs[j := jobs[j].(status := outcome)];
      tasks := tasks[j := tasks[j].(phase := Ended)];
      var key := jobs[j].key;
      if key != "" && key in keys && keys[key] == j {
        keys := keys - {key};
      }
    }

    /** What cancel does once the task has ended. */
    method FinishCancel(j: nat)
      requires Valid() && (j in tasks ==> tasks[j].phase == Ended)
      modifies this
      ensures Valid() && Now() == Next(workers, old(Now()), CompleteCancel(j))
      ensures j < |jobs| ==> !Unfinished(jobs[j])
      ensures forall k | k in keys :: keys[k] != j
    {
      StepKeeps(workers, Now(), CompleteCancel(j));
      if j < |jobs| && Unfinished(jobs[j]) {
        jobs := jobs[j := jobs[j].(status := Cancelled)];
      }
      keys := map k | k in keys && keys[k] != j :: keys[k];
    }

    method StartShutdown()
      requires Valid()
      modifies this
      ensures Valid() && closing && Now() == Next(workers, old(Now()), BeginShutdown)
    {
      StepKeeps(workers, Now(), BeginShutdown);
      closing := true;
      tasks := map j | j in tasks :: tasks[j].(cancelled := true);
    }

    method FinishShutdown()
      requires Valid() && closing && tasks == map[]
      modifies this
      ensures Valid() && keys == map[] && Now() == Next(workers, old(Now()), EndShutdown)
      ensures RunningJobs(jobs) == {}
    {
      StepKeeps(workers, Now(), EndShutdown);
      keys := map[];
      cleared := true;
      forall j | 0 <= j < |jobs|
        ensures jobs[j].status != Running
      {
        assert JobOk(Now(), j);
      }
    }
  }
}

/** What one execution of a private chat's run leaves behind, told by its events and its ending. */
module ChatExecution {
  import opened Common
  import Money
  import opened RunLog
  import opened PrivateChat

  /** What a provider yields, in order. */
  datatype ProviderEvent = Assistant | Reported(cost: Cost, tokensIn: nat, tokensOut: nat, complete: bool)

  function EventStep(run: nat, e: ProviderEvent): Step {
    match e
    case Assistant => DoReply(run)
    case Reported(cost, tokensIn, tokensOut, complete) => DoUsage(run, cost, tokensIn, tokensOut, complete)
  }

  /** How an execution leaves its loop: at the end of the events, cancelled, or by an error. */
  datatype Ending = Completed | Stopped | Raised(overBudget: bool)

  function EndStep(run: nat, ending: Ending): Step {
    match ending
    case Completed => DoEnd(run, Done, false)
    case Stopped => DoEnd(run, Cancelled, false)
    case Raised(overBudget) => DoEnd(run, if overBudget then Budget else Error, true)
  }

  /** The transactions of one execution that received `events` before its ending. */
  function ExecutionSteps(run: nat, events: seq<ProviderEvent>, ending: Ending): seq<Step> {
    [DoStart(run)] + seq(|events|, i requires 0 <= i < |events| => EventStep(run, events[i])) + [EndStep(run, ending)]
  }

  // ---------------------------------------------------------------- what the events say

  function Units(e: ProviderEvent): int {
    match e
    case Assistant => 0
    case Reported(cost, _, _, _) => Money.Ceil(cost)
  }

  /** Each report of the first n events rounded up, added up. */
  function Spends(events: seq<ProviderEvent>, n: nat): int
    requires n <= |events|
  {
    if n == 0 then 0 else Spends(events, n - 1) + Units(events[n - 1])
  }

  function TokensIn(events: seq<ProviderEvent>, n: nat): nat
    requires n <= |events|
  {
    if n == 0 then 0 else TokensIn(events, n - 1) + if events[n - 1].Reported? then events[n - 1].tokensIn else 0
  }

  function TokensOut(events: seq<ProviderEvent>, n: nat): nat
    requires n <= |events|
  {
    if n == 0 then 0 else TokensOut(events, n - 1) + if events[n - 1].Reported? then events[n - 1].tokensOut else 0
  }

  /** What the last report among the first n events says of its cost, or `before` if there is none. */
  function LastFlag(events: seq<ProviderEvent>, n: nat, before: bool): bool
    requires n <= |events|
  {
    if n == 0 then before else if events[n - 1].Reported? then events[n - 1].complete else LastFlag(events, n - 1, before)
  }

  function Replies(events: seq<ProviderEvent>, n: nat): nat
    requires n <= |events|
  {
    if n == 0 then 0 else Replies(events, n - 1) + if events[n - 1].Assistant? then 1 else 0
  }

  /** Event k is the report with which the charges reach what was left. */
  predicate UsesUp(events: seq<ProviderEvent>, left: int, k: nat)
    requires k < |events|
  {
    events[k].Reported? && Spends(events, k + 1) >= left
  }

  predicate Exhausted(events: seq<ProviderEvent>, left: int, h: nat)
    requires h <= |events|
  {
    h > 0 && UsesUp(events, left, h - 1)
  }

  /** How many of the first n events count: those up to the first report that uses up the budget. */
  function Heard(events: seq<ProviderEvent>, left: int, n: nat): (h: nat)
    requires n <= |events|
    ensures h <= n
    ensures forall k | 0 <= k < h - 1 :: !UsesUp(events, left, k)
    ensures h < n ==> Exhausted(events, left, h)
  {
    if n == 0 then 0
    else
      var h := Heard(events, left, n - 1);
      if Exhausted(events, left, h) then h else n
  }

  function Times(n: nat, kind: Kind): seq<Kind> {
    seq(n, _ => kind)
  }

  // ---------------------------------------------------------------- what is left behind

  /** A run that an executor is about to take up. */
  ghost predicate Awaited(db: Db, run: nat) {
    && run < |db.runs| && run in db.execs && db.execs[run].Waiting? && Active(db.runs[run])
    && db.runs[run].chat < |db.chats| && Numbered(db.runs[run].commit.log)
  }

  function Left(db: Db, run: nat): int
    requires run < |db.runs| && db.runs[run].chat < |db.chats|
  {
    db.chats[db.runs[run].chat].budget - db.chats[db.runs[run].chat].spent
  }

  /**
   Since `before`, the run was started, the first h events were recorded and charged to it and to
   its chat, and `tail` was written with the status; no other row has changed.
   */
  ghost predicate Stands(before: Db, db: Db, run: nat, events: seq<ProviderEvent>, h: nat, status: Status, tail: seq<Kind>)
    requires run < |before.runs| && before.runs[run].chat < |before.chats| && h <= |events|
  {
    var r, chat := before.runs[run], before.chats[before.runs[run].chat];
    && run < |db.runs|
    && var commit := db.runs[run].commit;
       && db.runs == before.runs[run := Run(r.chat, commit, r.cost + Spends(events, h), r.tokensIn + TokensIn(events, h),
                                            r.tokensOut + TokensOut(events, h), LastFlag(events, h, r.costComplete), r.cancelRequested)]
       && db.chats == before.chats[r.chat := Chat(chat.budget, chat.spent + Spends(events, h), chat.open)]
       && commit.status == status && Numbered(commit.log)
       && KindsOf(commit.log) == KindsOf(r.commit.log) + [RunStarted] + Times(Replies(events, h), MessageCompleted) + tail
  }

  /**
   What an execution leaves behind. A report that uses up the budget ends the run as BUDGET and
   nothing after it counts; otherwise the ending decides the status and the last events. A run
   whose cancellation was requested ends with the first event it hears, which is not charged.
   */
  ghost predicate Executed(before: Db, db: Db, run: nat, events: seq<ProviderEvent>, ending: Ending)
    requires Awaited(before, run)
  {
    var heard := if before.runs[run].cancelRequested then 0 else Heard(events, Left(before, run), |events|);
    if before.runs[run].cancelRequested && events != [] then
      Stands(before, db, run, events, 0, Ended(Cancelled), [RunCancelled, RunFinished(Cancelled)])
    else if Exhausted(events, Left(before, run), heard) then
      Stands(before, db, run, events, heard, Ended(Budget), [RunError, RunFinished(Budget)])
    else match ending
      case Completed => Stands(before, db, run, events, |events|, Ended(Done), [RunFinished(Done)])
      case Stopped => Stands(before, db, run, events, |events|, Ended(Cancelled), [RunCancelled, RunFinished(Cancelled)])
      case Raised(true) => Stands(before, db, run, events, |events|, Ended(Budget), [RunError, RunFinished(Budget)])
      case Raised(false) => Stands(before, db, run, events, |events|, Ended(Error), [RunError, RunFinished(Error)])
  }

  // ---------------------------------------------------------------- one transaction after another

  /** The executor has handled n events of a run that nobody had asked to cancel. */
  ghost predicate Handling(before: Db, db: Db, run: nat, events: seq<ProviderEvent>, n: nat)
    requires Awaited(before, run) && n <= |events|
  {
    var h := Heard(events, Left(before, run), n);
    && run in db.execs && !db.execs[run].Waiting?
    && if Exhausted(events, Left(before, run), h) then Stands(before, db, run, events, h, Ended(Budget), [RunError, RunFinished(Budget)])
       else Stands(before, db, run, events, n, Running, [])
  }

  lemma Starts(db: Db, run: nat, events: seq<ProviderEvent>)
    requires Awaited(db, run)
    ensures var db' := Next(db, DoStart(run));
            run in db'.execs && !db'.execs[run].Waiting? && Stands(db, db', run, events, 0, Running, [])
  {
    hide AppendAll;
    Logged(db.runs[run].commit.log, [RunStarted]);
  }

  lemma StandsListening(before: Db, db: Db, run: nat, events: seq<ProviderEvent>, h: nat)
    requires Awaited(before, run) && h <= |events| && run in db.execs && !db.execs[run].Waiting?
    requires Stands(before, db, run, events, h, Running, [])
    ensures Listening(db, run) && db.runs[run].cancelRequested == before.runs[run].cancelRequested
  {
  }

  lemma HearsReply(before: Db, db: Db, run: nat, events: seq<ProviderEvent>, n: nat)
    requires Awaited(before, run) && !before.runs[run].cancelRequested && n < |events| && events[n].Assistant?
    requires Stands(before, db, run, events, n, Running, []) && run in db.execs && !db.execs[run].Waiting?
    ensures Stands(before, Next(db, DoReply(run)), run, events, n + 1, Running, [])
  {
    hide AppendAll, KindsOf, Numbered;
    var log := db.runs[run].commit.log;
    Logged(log, [MessageCompleted]);
    var k := Replies(events, n);
    assert Times(k + 1, MessageCompleted) == Times(k, MessageCompleted) + [MessageCompleted];
  }

  lemma HearsReport(before: Db, db: Db, run: nat, events: seq<ProviderEvent>, n: nat)
    requires Awaited(before, run) && !before.runs[run].cancelRequested && n < |events| && events[n].Reported?
    requires Stands(before, db, run, events, n, Running, []) && run in db.execs && !db.execs[run].Waiting?
    ensures if UsesUp(events, Left(before, run), n)
            then Stands(before, Next(db, EventStep(run, events[n])), run, events, n + 1, Ended(Budget), [RunError, RunFinished(Budget)])
            else Stands(before, Next(db, EventStep(run, events[n])), run, events, n + 1, Running, [])
  {
    hide AppendAll, KindsOf, Numbered;
    var log := db.runs[run].commit.log;
    Logged(log, [RunError, RunFinished(Budget)]);
    assert FinishKinds(Budget, true) == [RunError, RunFinished(Budget)];
  }

  lemma Hears(before: Db, db: Db, run: nat, events: seq<ProviderEvent>, n: nat)
    requires Awaited(before, run) && !before.runs[run].cancelRequested && n < |events|
    requires Handling(before, db, run, events, n)
    ensures Handling(before, Next(db, EventStep(run, events[n])), run, events, n + 1)
  {
    hide Stands;
    var h := Heard(events, Left(before, run), n);
    if Exhausted(events, Left(before, run), h) {
      Deaf(before, db, run, events, h, events[n]);
    } else {
      StillThere(db, run, events[n]);
      if events[n].Assistant? {
        HearsReply(before, db, run, events, n);
      } else {
        HearsReport(before, db, run, events, n);
      }
    }
  }

  lemma StillThere(db: Db, run: nat, e: ProviderEvent)
    requires run in db.execs && !db.execs[run].Waiting?
    ensures var db' := Next(db, EventStep(run, e)); run in db'.execs && !db'.execs[run].Waiting?
  {
  }

  /** A run that has ended hears nothing more. */
  lemma Deaf(before: Db, db: Db, run: nat, events: seq<ProviderEvent>, h: nat, e: ProviderEvent)
    requires Awaited(before, run) && h <= |events| && exists o, tail :: Stands(before, db, run, events, h, Ended(o), tail)
    ensures Next(db, EventStep(run, e)) == db
  {
  }

  lemma Ends(before: Db, db: Db, run: nat, events: seq<ProviderEvent>, h: nat, ending: Ending)
    requires Awaited(before, run) && h <= |events| && Stands(before, db, run, events, h, Running, [])
    ensures var db' := Next(db, EndStep(run, ending));
            match ending
            case Completed => Stands(before, db', run, events, h, Ended(Done), [RunFinished(Done)])
            case Stopped => Stands(before, db', run, events, h, Ended(Cancelled), [RunCancelled, RunFinished(Cancelled)])
            case Raised(true) => Stands(before, db', run, events, h, Ended(Budget), [RunError, RunFinished(Budget)])
            case Raised(false) => Stands(before, db', run, events, h, Ended(Error), [RunError, RunFinished(Error)])
  {
    hide AppendAll, KindsOf, Numbered;
    var log := db.runs[run].commit.log;
    Logged(log, [RunFinished(Done)]);
    Logged(log, [RunCancelled, RunFinished(Cancelled)]);
    Logged(log, [RunError, RunFinished(Budget)]);
    Logged(log, [RunError, RunFinished(Error)]);
    assert FinishKinds(Done, false) == [RunFinished(Done)];
    assert FinishKinds(Cancelled, false) == [RunCancelled, RunFinished(Cancelled)];
    assert FinishKinds(Budget, true) == [RunError, RunFinished(Budget)];
    assert FinishKinds(Error, true) == [RunError, RunFinished(Error)];
  }

  // ---------------------------------------------------------------- the whole execution

  lemma StepsSplit(run: nat, events: seq<ProviderEvent>, ending: Ending, n: nat)
    requires n <= |events|
    ensures var steps := ExecutionSteps(run, events, ending);
            && |steps| == |events| + 2
            && steps[..1] == [] + [DoStart(run)]
            && (n < |events| ==> steps[..n + 2] == steps[..n + 1] + [EventStep(run, events[n])])
            && steps == steps[..|events| + 1] + [EndStep(run, ending)]
  {
  }

  lemma {:induction false} Handled(db: Db, run: nat, events: seq<ProviderEvent>, ending: Ending, n: nat)
    requires Awaited(db, run) && !db.runs[run].cancelRequested && n <= |events|
    ensures |ExecutionSteps(run, events, ending)| == |events| + 2
    ensures Handling(db, After(db, ExecutionSteps(run, events, ending)[..n + 1]), run, events, n)
  {
    hide Stands, After, Next;
    var steps := ExecutionSteps(run, events, ending);
    StepsSplit(run, events, ending, if n == 0 then 0 else n - 1);
    if n == 0 {
      AfterSnoc(db, [], DoStart(run));
      AfterNone(db);
      Starts(db, run, events);
    } else {
      Handled(db, run, events, ending, n - 1);
      AfterSnoc(db, steps[..n], EventStep(run, events[n - 1]));
      Hears(db, After(db, steps[..n]), run, events, n - 1);
    }
  }

  lemma AfterNone(db: Db)
    ensures After(db, []) == db
  {
  }

  /** The first event a cancelled run hears ends it, uncharged. */
  lemma HearsCancel(before: Db, db: Db, run: nat, events: seq<ProviderEvent>, e: ProviderEvent)
    requires Awaited(before, run) && before.runs[run].cancelRequested
    requires Stands(before, db, run, events, 0, Running, []) && run in db.execs && !db.execs[run].Waiting?
    ensures Stands(before, Next(db, EventStep(run, e)), run, events, 0, Ended(Cancelled), [RunCancelled, RunFinished(Cancelled)])
  {
    hide AppendAll, KindsOf, Numbered;
    Logged(db.runs[run].commit.log, [RunCancelled, RunFinished(Cancelled)]);
    assert FinishKinds(Cancelled, false) == [RunCancelled, RunFinished(Cancelled)];
  }

  lemma {:induction false} HandledCancelled(db: Db, run: nat, events: seq<ProviderEvent>, ending: Ending, n: nat)
    requires Awaited(db, run) && db.runs[run].cancelRequested && 0 < n <= |events|
    ensures |ExecutionSteps(run, events, ending)| == |events| + 2
    ensures Stands(db, After(db, ExecutionSteps(run, events, ending)[..n + 1]), run, events, 0,
                   Ended(Cancelled), [RunCancelled, RunFinished(Cancelled)])
  {
    hide Stands, After, Next;
    var steps := ExecutionSteps(run, events, ending);
    StepsSplit(run, events, ending, n - 1);
    AfterSnoc(db, steps[..n], EventStep(run, events[n - 1]));
    if n == 1 {
      AfterSnoc(db, [], DoStart(run));
      AfterNone(db);
      Starts(db, run, events);
      HearsCancel(db, After(db, steps[..1]), run, events, events[0]);
    } else {
      HandledCancelled(db, run, events, ending, n - 1);
      Deaf(db, After(db, steps[..n]), run, events, 0, events[n - 1]);
    }
  }

  /** An ending changes nothing of a run that has ended. */
  lemma EndsDeaf(before: Db, db: Db, run: nat, events: seq<ProviderEvent>, h: nat, ending: Ending)
    requires Awaited(before, run) && h <= |events| && exists o, tail :: Stands(before, db, run, events, h, Ended(o), tail)
    ensures Next(db, EndStep(run, ending)) == db
  {
  }

  /** What the transactions of an undisturbed execution come to. */
  lemma ExecutionLeaves(db: Db, run: nat, events: seq<ProviderEvent>, ending: Ending)
    requires Awaited(db, run)
    ensures Executed(db, After(db, ExecutionSteps(run, events, ending)), run, events, ending)
  {
    hide Stands, After, Next;
    var steps, n := ExecutionSteps(run, events, ending), |events|;
    StepsSplit(run, events, ending, n);
    AfterSnoc(db, steps[..n + 1], EndStep(run, ending));
    var last := After(db, steps[..n + 1]);
    if db.runs[run].cancelRequested && n > 0 {
      HandledCancelled(db, run, events, ending, n);
      EndsDeaf(db, last, run, events, 0, ending);
    } else if db.runs[run].cancelRequested {
      AfterSnoc(db, [], DoStart(run));
      AfterNone(db);
      Starts(db, run, events);
      Ends(db, last, run, events, 0, ending);
    } else {
      Handled(db, run, events, ending, n);
      var h := Heard(events, Left(db, run), n);
      if Exhausted(events, Left(db, run), h) {
        EndsDeaf(db, last, run, events, h, ending);
      } else {
        Ends(db, last, run, events, n, ending);
      }
    }
  }

  // ---------------------------------------------------------------- admission, cancellation, recovery

  ghost function ActiveRuns(runs: seq<Run>): set<nat> {
    set i | 0 <= i < |runs| && Active(runs[i])
  }

  lemma {:induction false} ActiveCountIsSize(runs: seq<Run>)
    ensures ActiveCount(runs) == |ActiveRuns(runs)|
  {
    if runs != [] {
      var n: nat := |runs| - 1;
      ActiveCountIsSize(runs[..n]);
      assert ActiveRuns(runs) == ActiveRuns(runs[..n]) + if Active(runs[n]) then {n} else {};
    } else {
      assert ActiveRuns(runs) == {};
    }
  }

  /**
   A message is admitted exactly to an open chat without an active run and with at least one grid
   unit left, while its owner has fewer than three active runs. It queues a run with an empty log.
   */
  lemma PostAdmitsIff(db: Db, chat: nat)
    ensures var known := chat < |db.chats|;
            var busy := exists i :: 0 <= i < |db.runs| && db.runs[i].chat == chat && Active(db.runs[i]);
            var free := known && db.chats[chat].open && !busy;
            && (PostRefusal(db, chat) == Some(NotFound) <==> !known)
            && (PostRefusal(db, chat) == Some(Conflict) <==> known && (!db.chats[chat].open || busy))
            && (PostRefusal(db, chat) == Some(RateLimited) <==> free && |ActiveRuns(db.runs)| >= 3)
            && (PostRefusal(db, chat) == Some(BudgetExceeded) <==>
                  free && |ActiveRuns(db.runs)| < 3 && db.chats[chat].spent >= db.chats[chat].budget)
            && (PostRefusal(db, chat) == None <==>
                  free && |ActiveRuns(db.runs)| < 3 && db.chats[chat].spent < db.chats[chat].budget)
    ensures PostRefusal(db, chat) == None ==>
              Post(db, chat) == Db(db.chats, db.runs + [Run(chat, Commit(Queued, []), 0, 0, 0, false, false)],
                                   db.execs[|db.runs| := Waiting])
    ensures PostRefusal(db, chat) != None ==> Post(db, chat) == db
  {
    ActiveCountIsSize(db.runs);
  }

  /** Only the status of the run has changed, and its log by what was written with it. */
  ghost predicate ClosedAs(before: Run, after: Run, outcome: Outcome, tail: seq<Kind>) {
    && after == before.(commit := after.commit)
    && after.commit.status == Ended(outcome) && Numbered(after.commit.log)
    && KindsOf(after.commit.log) == KindsOf(before.commit.log) + tail
  }

  /** Cancelling ends an active run as CANCELLED and touches nothing else. */
  lemma CancelCloses(db: Db, run: nat)
    requires run < |db.runs| ==> Numbered(db.runs[run].commit.log)
    ensures run >= |db.runs| || !Active(db.runs[run]) ==> Cancel(db, run) == db
    ensures run < |db.runs| && Active(db.runs[run]) ==>
              var row := Cancel(db, run).runs[run];
              && Cancel(db, run) == db.(runs := db.runs[run := row])
              && ClosedAs(db.runs[run].(cancelRequested := true), row, Cancelled, [RunCancelled, RunFinished(Cancelled)])
  {
    if run < |db.runs| {
      Logged(db.runs[run].commit.log, [RunCancelled, RunFinished(Cancelled)]);
      assert FinishKinds(Cancelled, false) == [RunCancelled, RunFinished(Cancelled)];
    }
  }

  /** A restart ends every unfinished run as ERROR, with an error event, and leaves all others alone. */
  lemma RecoverCloses(db: Db, run: nat)
    requires run < |db.runs| && Numbered(db.runs[run].commit.log)
    ensures var db' := Recover(db);
            && db'.chats == db.chats && |db'.runs| == |db.runs|
            && (Active(db.runs[run]) ==> ClosedAs(db.runs[run], db'.runs[run], Error, [RunError, RunFinished(Error)]))
            && (!Active(db.runs[run]) ==> db'.runs[run] == db.runs[run])
  {
    Logged(db.runs[run].commit.log, [RunError, RunFinished(Error)]);
    assert FinishKinds(Error, true) == [RunError, RunFinished(Error)];
  }

  /** A chat is edited unless it has an active run or the new budget is below what it has spent. */
  lemma PatchAdmitsIff(db: Db, chat: nat, budget: int, open: bool)
    ensures var known := chat < |db.chats|;
            var busy := exists i :: 0 <= i < |db.runs| && db.runs[i].chat == chat && Active(db.runs[i]);
            && (PatchRefusal(db, chat, budget) == Some(NotFound) <==> !known)
            && (PatchRefusal(db, chat, budget) == Some(Conflict) <==> known && busy)
            && (PatchRefusal(db, chat, budget) == Some(Validation) <==> known && !busy && budget < db.chats[chat].spent)
            && (PatchRefusal(db, chat, budget) == None <==> known && !busy && budget >= db.chats[chat].spent)
            && Patch(db, chat, budget, open)
               == if PatchRefusal(db, chat, budget).Some? then db
                  else Db(db.chats[chat := Chat(budget, db.chats[chat].spent, open)], db.runs, db.execs)
  {
  }
}

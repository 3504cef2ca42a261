/** The private-chat service on its tables: admission, execution, cancellation, recovery. */
module ChatService {
  import opened Common
  import Money
  import opened RunLog
  import opened PrivateChat
  import opened ChatExecution

  class PrivateChats {
    var chats: seq<Chat>
    var runs: seq<Run>
    var execs: map<nat, Exec>

    function View(): Db
      reads this
    {
      Db(chats, runs, execs)
    }

    constructor (initial: seq<Chat>)
      ensures View() == Db(initial, [], map[])
    {
      chats, runs, execs := initial, [], map[];
    }

    method PostMessage(chat: nat) returns (result: Result<nat, Refusal>)
      modifies this
      ensures View() == Post(old(View()), chat)
      ensures match PostRefusal(old(View()), chat)
              case Some(refusal) => result == Err(refusal)
              case None => result == Ok(old(|runs|))
    {
      if chat >= |chats| {
        return Err(NotFound);
      }
      if !chats[chat].open {
        return Err(Conflict);
      }
      var busy, active := false, 0;
      for i := 0 to |runs|
        invariant active == ActiveCount(runs[..i])
        invariant busy <==> exists k | 0 <= k < i :: runs[k].chat == chat && Active(runs[k])
      {
        assert runs[..i + 1][..i] == runs[..i];
        if Active(runs[i]) {
          active := active + 1;
          busy := busy || runs[i].chat == chat;
        }
      }
      assert runs[..|runs|] == runs;
      if busy {
        return Err(Conflict);
      }
      if active >= MAX_ACTIVE {
        return Err(RateLimited);
      }
      if chats[chat].budget - chats[chat].spent < 1 {
        return Err(BudgetExceeded);
      }
      result := Ok(|runs|);
      execs := execs[|runs| := Waiting];
      runs := runs + [NewRun(chat)];
    }

    method StartRun(run: nat)
      modifies this`runs, this`execs
      ensures View() == Start(old(View()), run)
    {
      if run < |runs| && run in execs && execs[run].Waiting? && Active(runs[run]) && runs[run].chat < |chats| {
        var chat := chats[runs[run].chat];
        var r := runs[run];
        runs := runs[run := r.(commit := Commit(Running, Append(r.commit.log, RunStarted)))];
        execs := execs[run := Ready(chat.budget - chat.spent)];
      }
    }

    /** finish: nothing happens to a run that is already terminal. */
    method FinishRun(run: nat, outcome: Outcome, hasError: bool)
      requires run < |runs|
      modifies this`runs
      ensures runs == old(runs)[run := Record(old(runs)[run], Txn.Finish(outcome, hasError))]
    {
      var r := runs[run];
      if Active(r) {
        var log := r.commit.log;
        if hasError {
          log := Append(log, RunError);
        }
        if outcome == Cancelled {
          log := Append(log, RunCancelled);
        }
        log := Append(log, RunFinished(outcome));
        FinishAppends(r.commit.log, outcome, hasError);
        runs := runs[run := r.(commit := Commit(Ended(outcome), log))];
      }
    }

    method OnReply(run: nat)
      modifies this`runs
      ensures View() == Reply(old(View()), run)
    {
      if Listening(View(), run) {
        if runs[run].cancelRequested {
          FinishRun(run, Cancelled, false);
        } else {
          var r := runs[run];
          runs := runs[run := r.(commit := r.commit.(log := Append(r.commit.log, MessageCompleted)))];
        }
      }
    }

    method OnUsage(run: nat, cost: Cost, tokensIn: nat, tokensOut: nat, complete: bool)
      modifies this
      ensures View() == Usage(old(View()), run, cost, tokensIn, tokensOut, complete)
    {
      if Listening(View(), run) {
        if runs[run].cancelRequested {
          FinishRun(run, Cancelled, false);
        } else {
          var units := Money.Ceil(cost);
          var r := runs[run];
          var chat := chats[r.chat];
          runs := runs[run := r.(cost := r.cost + units, tokensIn := r.tokensIn + tokensIn,
                                 tokensOut := r.tokensOut + tokensOut, costComplete := complete)];
          chats := chats[r.chat := chat.(spent := chat.spent + units)];
          if chats[r.chat].spent >= chats[r.chat].budget {
            FinishRun(run, Budget, true);
          }
          execs := execs[run := Charged];
        }
      }
    }

    method Terminalize(run: nat, outcome: Outcome, hasError: bool)
      modifies this`runs
      ensures View() == End(old(View()), run, outcome, hasError)
    {
      if run < |runs| {
        FinishRun(run, outcome, hasError);
      }
    }

    method RequestCancel(run: nat)
      modifies this`runs
      ensures View() == Cancel(old(View()), run)
    {
      if run < |runs| && Active(runs[run]) {
        runs := runs[run := runs[run].(cancelRequested := true)];
        FinishRun(run, Cancelled, false);
      }
    }

    method RecoverInterrupted()
      modifies this`runs
      ensures View() == Recover(old(View()))
    {
      for i := 0 to |runs|
        invariant |runs| == |old(runs)|
        invariant forall k | 0 <= k < i :: runs[k] == Recovered(old(runs)[k])
        invariant forall k | i <= k < |runs| :: runs[k] == old(runs)[k]
      {
        if Active(runs[i]) {
          FinishRun(i, Error, true);
        }
      }
    }

    method PatchChat(chat: nat, budget: int, open: bool) returns (refusal: Option<Refusal>)
      modifies this`chats
      ensures refusal == PatchRefusal(old(View()), chat, budget)
      ensures View() == Patch(old(View()), chat, budget, open)
    {
      refusal := PatchRefusal(View(), chat, budget);
      if refusal.None? {
        chats := chats[chat := chats[chat].(budget := budget, open := open)];
      }
    }

    /** One execution, event by event; undisturbed, it is exactly this sequence of transactions. */
    method ExecuteRun(run: nat, events: seq<ProviderEvent>, ending: Ending)
      modifies this
      ensures View() == After(old(View()), ExecutionSteps(run, events, ending))
      ensures Awaited(old(View()), run) ==> Executed(old(View()), View(), run, events, ending)
    {
      ghost var db, steps := View(), ExecutionSteps(run, events, ending);
      StartRun(run);
      AfterSnoc(db, [], DoStart(run));
      assert steps[..1] == [] + [DoStart(run)];
      hide After, Executed;
      for i := 0 to |events|
        invariant View() == After(db, steps[..i + 1])
      {
        assert steps[..i + 2] == steps[..i + 1] + [EventStep(run, events[i])];
        AfterSnoc(db, steps[..i + 1], EventStep(run, events[i]));
        match events[i]
        case Assistant => OnReply(run);
        case Reported(cost, tokensIn, tokensOut, complete) => OnUsage(run, cost, tokensIn, tokensOut, complete);
      }
      assert steps == steps[..|events| + 1] + [EndStep(run, ending)];
      AfterSnoc(db, steps[..|events| + 1], EndStep(run, ending));
      Leave(run, ending);
      LeavesIfAwaited(db, run, events, ending);
    }

    method Leave(run: nat, ending: Ending)
      modifies this`runs
      ensures View() == Next(old(View()), EndStep(run, ending))
    {
      match ending
      case Completed => Terminalize(run, Done, false);
      case Stopped => Terminalize(run, Cancelled, false);
      case Raised(overBudget) => Terminalize(run, if overBudget then Budget else Error, true);
    }
  }

  lemma LeavesIfAwaited(db: Db, run: nat, events: seq<ProviderEvent>, ending: Ending)
    ensures Awaited(db, run) ==> Executed(db, After(db, ExecutionSteps(run, events, ending)), run, events, ending)
  {
    hide Executed, After;
    if Awaited(db, run) {
      ExecutionLeaves(db, run, events, ending);
    }
  }

  lemma FinishAppends(log: seq<Event>, outcome: Outcome, hasError: bool)
    ensures var withError := if hasError then Append(log, RunError) else log;
            var withCancel := if outcome == Cancelled then Append(withError, RunCancelled) else withError;
            AppendAll(log, FinishKinds(outcome, hasError)) == Append(withCancel, RunFinished(outcome))
  {
    var kinds := FinishKinds(outcome, hasError);
    var rest := if hasError then kinds[1..] else kinds;
    var withError := if hasError then Append(log, RunError) else log;
    assert AppendAll(log, kinds) == AppendAll(withError, rest);
    if outcome == Cancelled {
      assert rest[1..] == [RunFinished(outcome)];
      assert AppendAll(withError, rest) == AppendAll(Append(withError, RunCancelled), [RunFinished(outcome)]);
    } else {
      assert rest == [RunFinished(outcome)];
    }
  }
}

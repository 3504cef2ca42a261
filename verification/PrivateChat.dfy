/**
 Private chats of one owner: admission, the run state machine, charging, cancellation,
 restart recovery. Rows are numbered by position; money is in grid units of 0.0001 USD.
 Every transaction is a function on the tables; `PrivateChats` performs them on its fields.
 */
module PrivateChat {
  import opened Common
  import Money
  import opened RunLog
  import Nim = NimPricing

  datatype Chat = Chat(budget: int, spent: int, open: bool)

  datatype Run = Run(chat: nat, commit: Commit, cost: int, tokensIn: nat, tokensOut: nat,
                     costComplete: bool, cancelRequested: bool)

  /** Where the in-memory executor of a run stands. `Ready` remembers the budget it was given. */
  datatype Exec = Waiting | Ready(budget: int) | Charged

  datatype Db = Db(chats: seq<Chat>, runs: seq<Run>, execs: map<nat, Exec>)

  datatype Refusal = NotFound | Conflict | RateLimited | BudgetExceeded | Validation

  type Cost = x: real | x >= 0.0 witness 0.0

  const MAX_ACTIVE := 3

  predicate Active(r: Run) {
    !r.commit.status.Ended?
  }

  function ActiveCount(runs: seq<Run>): nat {
    if runs == [] then 0
    else ActiveCount(runs[..|runs| - 1]) + if Active(runs[|runs| - 1]) then 1 else 0
  }

  predicate ChatActive(runs: seq<Run>, chat: nat) {
    exists i | 0 <= i < |runs| :: runs[i].chat == chat && Active(runs[i])
  }

  /** The sum of cost_usd over the runs of a chat. */
  function CostOf(runs: seq<Run>, chat: nat): int {
    if runs == [] then 0
    else
      var last := runs[|runs| - 1];
      CostOf(runs[..|runs| - 1], chat) + if last.chat == chat then last.cost else 0
  }

  // ---------------------------------------------------------------- transactions

  function NewRun(chat: nat): Run {
    Run(chat, Commit(Queued, []), 0, 0, 0, false, false)
  }

  function PostRefusal(db: Db, chat: nat): Option<Refusal> {
    if chat >= |db.chats| then Some(NotFound)
    else if !db.chats[chat].open || ChatActive(db.runs, chat) then Some(Conflict)
    else if ActiveCount(db.runs) >= MAX_ACTIVE then Some(RateLimited)
    else if db.chats[chat].budget - db.chats[chat].spent < 1 then Some(BudgetExceeded)
    else None
  }

  /** Admission of a user message queues a run and hands it to an executor. */
  function Post(db: Db, chat: nat): Db {
    if PostRefusal(db, chat).Some? then db
    else db.(runs := db.runs + [NewRun(chat)], execs := db.execs[|db.runs| := Waiting])
  }

  function Record(r: Run, t: Txn): Run {
    r.(commit := Apply(r.commit, t))
  }

  /** The executor marks its run RUNNING and reads the chat's remaining budget. */
  function Start(db: Db, run: nat): Db {
    if run >= |db.runs| || run !in db.execs || !db.execs[run].Waiting? then db
    else
      var r := db.runs[run];
      if !Active(r) || r.chat >= |db.chats| then db
      else
        var chat := db.chats[r.chat];
        db.(runs := db.runs[run := Record(r, Txn.Write([RunStarted]))],
            execs := db.execs[run := Ready(chat.budget - chat.spent)])
  }

  /** The run as locked by an executor's event transaction, if the event is to be processed. */
  predicate Listening(db: Db, run: nat) {
    && run < |db.runs| && run in db.execs && !db.execs[run].Waiting?
    && Active(db.runs[run]) && db.runs[run].chat < |db.chats|
  }

  function CancelPending(db: Db, run: nat): Db
    requires run < |db.runs|
  {
    db.(runs := db.runs[run := Record(db.runs[run], Txn.Finish(Cancelled, false))])
  }

  /** An assistant event. */
  function Reply(db: Db, run: nat): Db {
    if !Listening(db, run) then db
    else if db.runs[run].cancelRequested then CancelPending(db, run)
    else db.(runs := db.runs[run := Record(db.runs[run], Txn.Write([MessageCompleted]))])
  }

  /** A usage event: the cost, in grid units, is rounded up and charged to run and chat. */
  function Usage(db: Db, run: nat, cost: Cost, tokensIn: nat, tokensOut: nat, complete: bool): Db {
    if !Listening(db, run) then db
    else if db.runs[run].cancelRequested then CancelPending(db, run)
    else
      var r := db.runs[run];
      var chat := db.chats[r.chat];
      var units := Money.Ceil(cost);
      var chat' := chat.(spent := chat.spent + units);
      var charged := r.(cost := r.cost + units, tokensIn := r.tokensIn + tokensIn,
                        tokensOut := r.tokensOut + tokensOut, costComplete := complete);
      var r' := if chat'.spent >= chat'.budget then Record(charged, Txn.Finish(Budget, true)) else charged;
      db.(chats := db.chats[r.chat := chat'], runs := db.runs[run := r'], execs := db.execs[run := Charged])
  }

  /** terminalize: whatever ended the executor, the first terminal commit wins. */
  function End(db: Db, run: nat, outcome: Outcome, hasError: bool): Db {
    if run >= |db.runs| then db
    else db.(runs := db.runs[run := Record(db.runs[run], Txn.Finish(outcome, hasError))])
  }

  /** The owner's cancel request is committed before the executor is told. */
  function Cancel(db: Db, run: nat): Db {
    if run >= |db.runs| || !Active(db.runs[run]) then db
    else db.(runs := db.runs[run := Record(db.runs[run].(cancelRequested := true), Txn.Finish(Cancelled, false))])
  }

  function Recovered(r: Run): Run {
    Record(r, Txn.Finish(Error, true))
  }

  /** Startup: every QUEUED or RUNNING run is closed as interrupted. */
  function Recover(db: Db): Db {
    db.(runs := seq(|db.runs|, i requires 0 <= i < |db.runs| => Recovered(db.runs[i])))
  }

  /** The process dies: committed rows stay, executors do not. */
  function Crash(db: Db): Db {
    db.(execs := map[])
  }

  function PatchRefusal(db: Db, chat: nat, budget: int): Option<Refusal> {
    if chat >= |db.chats| then Some(NotFound)
    else if ChatActive(db.runs, chat) then Some(Conflict)
    else if budget < db.chats[chat].spent then Some(Validation)
    else None
  }

  /** Editing a chat is refused while it has an active run or below what it already spent. */
  function Patch(db: Db, chat: nat, budget: int, open: bool): Db {
    if PatchRefusal(db, chat, budget).Some? then db
    else db.(chats := db.chats[chat := db.chats[chat].(budget := budget, open := open)])
  }

  datatype Step =
    | DoPost(chat: nat)
    | DoStart(run: nat)
    | DoReply(run: nat)
    | DoUsage(run: nat, cost: Cost, tokensIn: nat, tokensOut: nat, complete: bool)
    | DoEnd(run: nat, outcome: Outcome, hasError: bool)
    | DoCancel(run: nat)
    | DoRecover
    | DoCrash
    | DoPatch(chat: nat, budget: int, open: bool)

  function Next(db: Db, s: Step): Db {
    match s
    case DoPost(chat) => Post(db, chat)
    case DoStart(run) => Start(db, run)
    case DoReply(run) => Reply(db, run)
    case DoUsage(run, cost, tokensIn, tokensOut, complete) => Usage(db, run, cost, tokensIn, tokensOut, complete)
    case DoEnd(run, outcome, hasError) => End(db, run, outcome, hasError)
    case DoCancel(run) => Cancel(db, run)
    case DoRecover => Recover(db)
    case DoCrash => Crash(db)
    case DoPatch(chat, budget, open) => Patch(db, chat, budget, open)
  }

  /** The state after any sequence of transactions. */
  function After(db: Db, steps: seq<Step>): Db
    decreases |steps|
  {
    if steps == [] then db else Next(After(db, steps[..|steps| - 1]), steps[|steps| - 1])
  }

  lemma AfterSnoc(db: Db, steps: seq<Step>, s: Step)
    ensures After(db, steps + [s]) == Next(After(db, steps), s)
  {
    assert (steps + [s])[..|steps|] == steps;
  }

  // ---------------------------------------------------------------- accounting, unconditionally

  ghost predicate RunsOk(db: Db) {
    && (forall i | 0 <= i < |db.runs| :: db.runs[i].chat < |db.chats| && db.runs[i].cost >= 0)
    && (forall i | 0 <= i < |db.runs| :: WellFormed(db.runs[i].commit))
    && (forall r | r in db.execs :: r < |db.runs|)
  }

  /** uq_private_runs_active_thread and the owner-wide limit. */
  ghost predicate Admission(db: Db) {
    && (forall i, j | 0 <= i < j < |db.runs| && db.runs[i].chat == db.runs[j].chat ::
          !Active(db.runs[i]) || !Active(db.runs[j]))
    && ActiveCount(db.runs) <= MAX_ACTIVE
  }

  ghost predicate Balanced(db: Db) {
    forall c | 0 <= c < |db.chats| :: db.chats[c].spent == CostOf(db.runs, c)
  }

  ghost predicate Consistent(db: Db) {
    RunsOk(db) && Admission(db) && Balanced(db)
  }

  /** Chats as they are created: nothing spent and no runs. */
  ghost predicate Fresh(db: Db) {
    && db.runs == [] && db.execs == map[]
    && forall c | 0 <= c < |db.chats| :: db.chats[c].spent == 0 <= db.chats[c].budget
  }

  lemma {:induction false} CostOfUpdate(runs: seq<Run>, i: nat, r: Run, chat: nat)
    requires i < |runs| && r.chat == runs[i].chat
    ensures CostOf(runs[i := r], chat) == CostOf(runs, chat) + if r.chat == chat then r.cost - runs[i].cost else 0
  {
    var n := |runs| - 1;
    if i < n {
      assert runs[i := r][..n] == runs[..n][i := r];
      CostOfUpdate(runs[..n], i, r, chat);
    } else {
      assert runs[i := r][..n] == runs[..n];
    }
  }

  lemma {:induction false} ActiveCountUpdate(runs: seq<Run>, i: nat, r: Run)
    requires i < |runs|
    ensures ActiveCount(runs[i := r])
         == ActiveCount(runs) + (if Active(r) then 1 else 0) - (if Active(runs[i]) then 1 else 0)
  {
    var n := |runs| - 1;
    if i < n {
      assert runs[i := r][..n] == runs[..n][i := r];
      ActiveCountUpdate(runs[..n], i, r);
    } else {
      assert runs[i := r][..n] == runs[..n];
    }
  }

  /** Replacing a run by one of the same chat that is not newly active keeps the tables consistent. */
  lemma ReplaceRun(db: Db, run: nat, r: Run, db': Db)
    requires Consistent(db) && run < |db.runs|
    requires r.chat == db.runs[run].chat && r.cost >= 0 && WellFormed(r.commit)
    requires Active(r) ==> Active(db.runs[run])
    requires db'.runs == db.runs[run := r] && db'.execs.Keys <= db.execs.Keys + {run}
    requires |db'.chats| == |db.chats|
    requires forall c | 0 <= c < |db.chats| ::
               db'.chats[c].spent == db.chats[c].spent + if c == r.chat then r.cost - db.runs[run].cost else 0
    ensures Consistent(db')
  {
    ActiveCountUpdate(db.runs, run, r);
    forall c | 0 <= c < |db'.chats|
      ensures db'.chats[c].spent == CostOf(db'.runs, c)
    {
      CostOfUpdate(db.runs, run, r, c);
    }
  }

  /** A run's row is replaced at no cost and no chat changes. */
  lemma RowReplaced(db: Db, run: nat, r: Run, db': Db)
    requires Consistent(db) && run < |db.runs|
    requires r.chat == db.runs[run].chat && r.cost == db.runs[run].cost && WellFormed(r.commit)
    requires Active(r) ==> Active(db.runs[run])
    requires db'.runs == db.runs[run := r] && db'.chats == db.chats
    requires db'.execs.Keys <= db.execs.Keys + {run}
    ensures Consistent(db')
  {
    ReplaceRun(db, run, r, db');
  }

  lemma {:induction false} RecoverCosts(runs: seq<Run>, runs': seq<Run>, chat: nat)
    requires |runs'| == |runs| && forall i | 0 <= i < |runs| :: runs'[i] == Recovered(runs[i])
    ensures CostOf(runs', chat) == CostOf(runs, chat)
    ensures ActiveCount(runs') == 0
  {
    if runs != [] {
      var n := |runs| - 1;
      RecoverCosts(runs[..n], runs'[..n], chat);
    }
  }

  lemma RecoverKeeps(db: Db)
    requires Consistent(db)
    ensures Consistent(Recover(db))
  {
    var db' := Recover(db);
    forall i | 0 <= i < |db.runs|
      ensures WellFormed(db'.runs[i].commit) && !Active(db'.runs[i])
    {
      ApplyKeeps(db.runs[i].commit, Txn.Finish(Error, true));
    }
    forall c | 0 <= c < |db.chats|
      ensures db'.chats[c].spent == CostOf(db'.runs, c)
    {
      RecoverCosts(db.runs, db'.runs, c);
    }
    RecoverCosts(db.runs, db'.runs, 0);
  }

  lemma PostKeeps(db: Db, chat: nat)
    requires Consistent(db)
    ensures Consistent(Post(db, chat))
  {
    if PostRefusal(db, chat).None? {
      var db' := Post(db, chat);
      assert db'.runs[..|db.runs|] == db.runs;
      assert WellFormed(NewRun(chat).commit);
      forall c | 0 <= c < |db.chats|
        ensures CostOf(db'.runs, c) == CostOf(db.runs, c)
      {
      }
    }
  }

  lemma UsageKeeps(db: Db, run: nat, cost: Cost, tokensIn: nat, tokensOut: nat, complete: bool)
    requires Consistent(db)
    ensures Consistent(Usage(db, run, cost, tokensIn, tokensOut, complete))
  {
    if Listening(db, run) {
      var r := db.runs[run];
      ApplyKeeps(r.commit, Txn.Finish(Cancelled, false));
      ApplyKeeps(r.commit, Txn.Finish(Budget, true));
      Money.CeilKeepsPositive(cost);
      var db' := Usage(db, run, cost, tokensIn, tokensOut, complete);
      ReplaceRun(db, run, db'.runs[run], db');
    }
  }

  lemma StartKeeps(db: Db, run: nat)
    requires Consistent(db)
    ensures Consistent(Start(db, run))
  {
    hide Admission, Balanced, Apply;
    var db' := Start(db, run);
    if db' != db {
      ApplyKeeps(db.runs[run].commit, Txn.Write([RunStarted]));
      RowReplaced(db, run, Record(db.runs[run], Txn.Write([RunStarted])), db');
    }
  }

  lemma ReplyKeeps(db: Db, run: nat)
    requires Consistent(db)
    ensures Consistent(Reply(db, run))
  {
    hide Admission, Balanced, Apply;
    if Listening(db, run) {
      ApplyKeeps(db.runs[run].commit, Txn.Finish(Cancelled, false));
      ApplyKeeps(db.runs[run].commit, Txn.Write([MessageCompleted]));
      var db' := Reply(db, run);
      RowReplaced(db, run, db'.runs[run], db');
    }
  }

  lemma EndKeeps(db: Db, run: nat, outcome: Outcome, hasError: bool)
    requires Consistent(db)
    ensures Consistent(End(db, run, outcome, hasError))
  {
    hide Admission, Balanced, Apply;
    if run < |db.runs| {
      ApplyKeeps(db.runs[run].commit, Txn.Finish(outcome, hasError));
      RowReplaced(db, run, Record(db.runs[run], Txn.Finish(outcome, hasError)), End(db, run, outcome, hasError));
    }
  }

  lemma CancelKeeps(db: Db, run: nat)
    requires Consistent(db)
    ensures Consistent(Cancel(db, run))
  {
    hide Admission, Balanced, Apply;
    if run < |db.runs| && Active(db.runs[run]) {
      ApplyKeeps(db.runs[run].commit, Txn.Finish(Cancelled, false));
      var db' := Cancel(db, run);
      RowReplaced(db, run, db'.runs[run], db');
    }
  }

  lemma CrashKeeps(db: Db)
    requires Consistent(db)
    ensures Consistent(Crash(db))
  {
  }

  lemma PatchKeeps(db: Db, chat: nat, budget: int, open: bool)
    requires Consistent(db)
    ensures Consistent(Patch(db, chat, budget, open))
  {
    hide Admission, CostOf;
    AdmissionOfRuns(db, Patch(db, chat, budget, open));
  }

  /** Admission looks at the runs alone. */
  lemma AdmissionOfRuns(db: Db, db': Db)
    requires Admission(db) && db'.runs == db.runs
    ensures Admission(db')
  {
  }

  /** Every transaction keeps the tables consistent, whatever the provider reports. */
  lemma StepKeepsConsistent(db: Db, s: Step)
    requires Consistent(db)
    ensures Consistent(Next(db, s))
  {
    hide Consistent, Post, Start, Reply, Usage, End, Cancel, Recover, Crash, Patch;
    match s
    case DoPost(chat) => PostKeeps(db, chat);
    case DoStart(run) => StartKeeps(db, run);
    case DoReply(run) => ReplyKeeps(db, run);
    case DoUsage(run, cost, tokensIn, tokensOut, complete) => UsageKeeps(db, run, cost, tokensIn, tokensOut, complete);
    case DoEnd(run, outcome, hasError) => EndKeeps(db, run, outcome, hasError);
    case DoCancel(run) => CancelKeeps(db, run);
    case DoRecover => RecoverKeeps(db);
    case DoCrash => CrashKeeps(db);
    case DoPatch(chat, budget, open) => PatchKeeps(db, chat, budget, open);
  }

  /**
   In every reachable state each chat's spend is the sum of its runs' costs, no chat has two
   active runs, the owner has at most three, and every run's log is well formed.
   */
  lemma {:induction false} ReachableConsistent(db: Db, steps: seq<Step>)
    requires Fresh(db)
    ensures Consistent(After(db, steps))
    decreases |steps|
  {
    if steps != [] {
      ReachableConsistent(db, steps[..|steps| - 1]);
      StepKeepsConsistent(After(db, steps[..|steps| - 1]), steps[|steps| - 1]);
    }
  }

  /** A terminal run's row and log never change again. */
  lemma TerminalRunIsFinal(db: Db, s: Step, run: nat)
    requires run < |db.runs| && !Active(db.runs[run])
    ensures run < |Next(db, s).runs| && Next(db, s).runs[run] == db.runs[run]
  {
  }

  // ---------------------------------------------------------------- what a reader can see

  /** Each step is at most one log transaction on any given run. */
  lemma StepOnRun(db: Db, s: Step, run: nat) returns (t: Txn)
    requires run < |db.runs|
    ensures run < |Next(db, s).runs|
    ensures Next(db, s).runs[run].commit == Apply(db.runs[run].commit, t)
  {
    t := Txn.Write([RunFinished(Done)]);
    assert Apply(db.runs[run].commit, t) == db.runs[run].commit;
    if Next(db, s).runs[run].commit != db.runs[run].commit {
      match s
      case DoStart(_) => t := Txn.Write([RunStarted]);
      case DoReply(_) => t := if db.runs[run].cancelRequested then Txn.Finish(Cancelled, false) else Txn.Write([MessageCompleted]);
      case DoUsage(_, _, _, _, _) => t := if db.runs[run].cancelRequested then Txn.Finish(Cancelled, false) else Txn.Finish(Budget, true);
      case DoEnd(_, outcome, hasError) => t := Txn.Finish(outcome, hasError);
      case DoCancel(_) => t := Txn.Finish(Cancelled, false);
      case DoRecover => t := Txn.Finish(Error, true);
    }
  }

  /** The run's committed state after `steps` is what the log transactions `txns` made of it. */
  ghost predicate Shows(db: Db, steps: seq<Step>, run: nat, txns: seq<Txn>, i: nat)
    requires i <= |txns|
  {
    run < |After(db, steps).runs| && After(db, steps).runs[run].commit == At(txns, i)
  }

  lemma ShowsNext(db: Db, steps: seq<Step>, s: Step, run: nat, txns: seq<Txn>) returns (t: Txn)
    requires Shows(db, steps, run, txns, |txns|)
    ensures Shows(db, steps + [s], run, txns + [t], |txns| + 1)
  {
    AfterSnoc(db, steps, s);
    t := StepOnRun(After(db, steps), s, run);
    AtPrefix(txns, t, |txns|);
  }

  /**
   From its admission on, the committed states of a run are a log history in the sense of
   `RunLog`: everything proved there about readers holds for a stream of this run, however
   its polls interleave with the steps of the whole service.
   */
  lemma {:induction false} RunHistory(db: Db, steps: seq<Step>, born: nat, run: nat) returns (txns: seq<Txn>)
    requires born <= |steps| && run < |After(db, steps[..born]).runs|
    requires After(db, steps[..born]).runs[run].commit == Commit(Queued, [])
    ensures |txns| == |steps| - born
    ensures forall i | born <= i <= |steps| :: Shows(db, steps[..i], run, txns, i - born)
  {
    txns := HistoryUpto(db, steps, born, run, |steps|);
    forall i | born <= i <= |steps|
      ensures Shows(db, steps[..i], run, txns, i - born)
    {
      var k: nat := i - born;
      assert ShowsAt(db, steps, born, run, txns, k);
    }
  }

  ghost predicate History(db: Db, steps: seq<Step>, born: nat, run: nat, n: nat, txns: seq<Txn>)
    requires born <= n <= |steps|
  {
    |txns| == n - born && forall k: nat | k <= n - born :: ShowsAt(db, steps, born, run, txns, k)
  }

  /** After k steps from `born` on, the run's history is the first k transactions. */
  ghost predicate ShowsAt(db: Db, steps: seq<Step>, born: nat, run: nat, txns: seq<Txn>, k: nat)
    requires k <= |txns|
  {
    born + k <= |steps| && Shows(db, steps[..born + k], run, txns, k)
  }

  lemma {:induction false} HistoryUpto(db: Db, steps: seq<Step>, born: nat, run: nat, n: nat) returns (txns: seq<Txn>)
    requires born <= n <= |steps| && Shows(db, steps[..born], run, [], 0)
    ensures History(db, steps, born, run, n, txns)
    decreases n
  {
    if born == n {
      txns := [];
    } else {
      var earlier := HistoryUpto(db, steps, born, run, n - 1);
      txns := HistoryNext(db, steps, born, run, n - 1, earlier);
    }
  }

  lemma HistoryNext(db: Db, steps: seq<Step>, born: nat, run: nat, n: nat, txns: seq<Txn>) returns (more: seq<Txn>)
    requires born <= n < |steps| && History(db, steps, born, run, n, txns)
    ensures History(db, steps, born, run, n + 1, more)
  {
    hide After, At, Shows;
    var last: nat := n - born;
    assert ShowsAt(db, steps, born, run, txns, last);
    var t := ShowsNext(db, steps[..n], steps[n], run, txns);
    more := txns + [t];
    assert steps[..n + 1] == steps[..n] + [steps[n]];
    forall k: nat | k <= n + 1 - born
      ensures ShowsAt(db, steps, born, run, more, k)
    {
      if k <= last {
        assert ShowsAt(db, steps, born, run, txns, k);
        ShowsStill(db, steps[..born + k], run, txns, t, k);
      }
    }
  }

  lemma ShowsStill(db: Db, steps: seq<Step>, run: nat, txns: seq<Txn>, t: Txn, i: nat)
    requires i <= |txns| && Shows(db, steps, run, txns, i)
    ensures Shows(db, steps, run, txns + [t], i)
  {
    AtPrefix(txns, t, i);
  }

  // ---------------------------------------------------------------- the budget

  /** Chats are within budget, and an executor yet to charge still has what it was promised. */
  ghost predicate WithinBudget(db: Db) {
    && (forall c | 0 <= c < |db.chats| :: 0 <= db.chats[c].spent <= db.chats[c].budget)
    && (forall r | r in db.execs :: Promised(db, r))
  }

  ghost predicate Promised(db: Db, r: nat)
    requires r in db.execs
  {
    r < |db.runs| && db.execs[r].Ready? && Active(db.runs[r]) ==>
      db.runs[r].chat < |db.chats|
      && db.execs[r].budget == db.chats[db.runs[r].chat].budget - db.chats[db.runs[r].chat].spent
  }

  /** A usage event is honest if it is the generator's only one and costs at most the budget it was given. */
  ghost predicate Honest(db: Db, s: Step) {
    s.DoUsage? && Listening(db, s.run) ==>
      db.execs[s.run].Ready? && s.cost <= db.execs[s.run].budget as real
  }

  ghost predicate AllHonest(db: Db, steps: seq<Step>) {
    forall i | 0 <= i < |steps| :: Honest(After(db, steps[..i]), steps[i])
  }

  lemma HonestUsageWithinBudget(db: Db, s: Step)
    requires s.DoUsage? && Consistent(db) && WithinBudget(db) && Honest(db, s)
    ensures WithinBudget(Next(db, s))
  {
    if Listening(db, s.run) {
      var r := db.runs[s.run];
      var chat := db.chats[r.chat];
      Money.CeilAtGridBound(s.cost, chat.budget - chat.spent);
      Money.CeilKeepsPositive(s.cost);
    }
  }

  lemma HonestStepWithinBudget(db: Db, s: Step)
    requires Consistent(db) && WithinBudget(db) && Honest(db, s)
    ensures WithinBudget(Next(db, s))
  {
    hide Consistent, Honest, Next, Promised;
    if s.DoUsage? {
      HonestUsageWithinBudget(db, s);
    } else {
      ChatsWithinBudget(db, s);
      forall r | r in Next(db, s).execs
        ensures Promised(Next(db, s), r)
      {
        assert r in db.execs ==> Promised(db, r);
        StillPromised(db, s, r);
      }
    }
  }

  lemma ChatsWithinBudget(db: Db, s: Step)
    requires !s.DoUsage? && WithinBudget(db)
    ensures forall c | 0 <= c < |Next(db, s).chats| :: 0 <= Next(db, s).chats[c].spent <= Next(db, s).chats[c].budget
  {
    hide Apply, Promised, ChatActive, PostRefusal;
    assert s.DoPatch? || Next(db, s).chats == db.chats;
  }

  /** An executor's promise stands: no chat with an active run is edited. */
  lemma StillPromised(db: Db, s: Step, r: nat)
    requires !s.DoUsage? && r in Next(db, s).execs && (r in db.execs ==> Promised(db, r))
    ensures Promised(Next(db, s), r)
  {
    hide Apply, PostRefusal;
    if r < |db.runs| && !Active(db.runs[r]) {
      TerminalRunIsFinal(db, s, r);
    }
    if s.DoPatch? && r < |db.runs| && Active(db.runs[r]) && PatchRefusal(db, s.chat, s.budget).None? {
      assert db.runs[r].chat != s.chat;
    }
  }

  /**
   With honest usage reports no reachable state of any chat has spent more than its budget,
   whatever admissions, cancellations, crashes, recoveries and budget edits happen in between.
   */
  lemma {:induction false} NeverOverBudget(db: Db, steps: seq<Step>)
    requires Fresh(db) && AllHonest(db, steps)
    ensures WithinBudget(After(db, steps))
    decreases |steps|
  {
    if steps != [] {
      var front := steps[..|steps| - 1];
      forall i | 0 <= i < |front|
        ensures Honest(After(db, front[..i]), front[i])
      {
        assert front[..i] == steps[..i];
      }
      NeverOverBudget(db, front);
      ReachableConsistent(db, front);
      HonestStepWithinBudget(After(db, front), steps[|steps| - 1]);
    }
  }

  /** NIM reports within the reservation are honest, so the bound above covers every such run. */
  lemma NimUsageIsHonest(db: Db, s: Step, p: Nim.Pricing, bytes: nat, limit: nat)
    requires s.DoUsage? && Listening(db, s.run) && db.execs[s.run].Ready?
    requires Nim.MaxTokens(p, bytes, db.execs[s.run].budget) == Ok(limit)
    requires Nim.WithinReservation(bytes, limit, s.tokensIn, s.tokensOut)
    requires s.cost == Nim.Cost(p, s.tokensIn, s.tokensOut) * Nim.GRID
    ensures Honest(db, s)
  {
    Nim.ReservedReplyFitsBudget(p, bytes, db.execs[s.run].budget, limit, s.tokensIn, s.tokensOut);
  }

  /** A usage event that is the executor's first and reports a NIM reply within its reservation. */
  ghost predicate NimReply(db: Db, s: Step) {
    s.DoUsage? && Listening(db, s.run) ==>
      db.execs[s.run].Ready? && exists p, bytes, limit :: ReplyWithin(s, db.execs[s.run].budget, p, bytes, limit)
  }

  /** The reply to a request of `bytes`, sent with the limit its reservation against `budget` allowed. */
  ghost predicate ReplyWithin(s: Step, budget: int, p: Nim.Pricing, bytes: nat, limit: nat)
    requires s.DoUsage?
  {
    && Nim.MaxTokens(p, bytes, budget) == Ok(limit)
    && Nim.WithinReservation(bytes, limit, s.tokensIn, s.tokensOut)
    && s.cost == Nim.Cost(p, s.tokensIn, s.tokensOut) * Nim.GRID
  }

  /**
   From the provider's rates to the owner's money: if every usage event reports a NIM reply
   within its reservation, then in every reachable state every chat is within its budget and
   has spent exactly what its runs cost.
   */
  lemma NimChatsWithinBudget(db: Db, steps: seq<Step>)
    requires Fresh(db)
    requires forall i | 0 <= i < |steps| :: NimReply(After(db, steps[..i]), steps[i])
    ensures var db' := After(db, steps);
            forall c | 0 <= c < |db'.chats| :: 0 <= db'.chats[c].spent == CostOf(db'.runs, c) <= db'.chats[c].budget
  {
    hide After, Nim.MaxTokens, Nim.Cost;
    forall i | 0 <= i < |steps|
      ensures Honest(After(db, steps[..i]), steps[i])
    {
      var before, s := After(db, steps[..i]), steps[i];
      assert NimReply(before, s);
      if s.DoUsage? && Listening(before, s.run) {
        var p, bytes, limit :| ReplyWithin(s, before.execs[s.run].budget, p, bytes, limit);
        NimUsageIsHonest(before, s, p, bytes, limit);
      }
    }
    NeverOverBudget(db, steps);
    ReachableConsistent(db, steps);
  }

  /**
   Exactly when one charge keeps a chat within budget, for any provider and any report: the
   exact cost must not exceed what is left. A charge that uses up the budget ends the run
   as BUDGET, and any other charge leaves it running.
   */
  lemma ChargeWithinBudgetIff(db: Db, s: Step)
    requires s.DoUsage? && Consistent(db) && Listening(db, s.run) && !db.runs[s.run].cancelRequested
    ensures var c := db.runs[s.run].chat;
            var left := db.chats[c].budget - db.chats[c].spent;
            var db' := Next(db, s);
            && (db'.chats[c].spent <= db'.chats[c].budget <==> s.cost <= left as real)
            && (db'.runs[s.run].commit.status == Ended(Budget) <==> s.cost > (left - 1) as real)
            && (Active(db'.runs[s.run]) <==> s.cost <= (left - 1) as real)
  {
    var c := db.runs[s.run].chat;
    var left := db.chats[c].budget - db.chats[c].spent;
    Money.CeilAtGridBound(s.cost, left);
    Money.CeilAtGridBound(s.cost, left - 1);
  }
}

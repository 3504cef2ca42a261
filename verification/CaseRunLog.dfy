/**
 The event log of a case-thread run. Unlike a private chat's, its writers check the status on an
 earlier read, or not at all: starting and finishing act on the status they saw, and events of
 a running attempt are appended whatever the status has become.
 */
module CaseRunLog {
  import opened RunLog

  /** `saw` is how many commits were visible when the transaction read the run's status. */
  datatype CaseTxn = Begin(saw: nat) | Emit(kinds: seq<Kind>) | End(saw: nat, outcome: Outcome, hasError: bool)

  /** A transaction cannot have read the future. */
  ghost predicate Causal(txns: seq<CaseTxn>) {
    forall i | 0 <= i < |txns| :: !txns[i].Emit? ==> txns[i].saw <= i
  }

  /** What is emitted while an attempt runs. */
  predicate Progress(kinds: seq<Kind>) {
    kinds != [] && Plain(kinds) && RunStarted !in kinds
  }

  /** Transaction i writes: an event always does, the others unless they saw a terminal status. */
  predicate Acts(txns: seq<CaseTxn>, i: nat)
    requires i < |txns|
    decreases i, 2
  {
    match txns[i]
    case Emit(kinds) => Progress(kinds)
    case Begin(saw) => saw <= i && !StateAt(txns, saw).status.Ended?
    case End(saw, _, _) => saw <= i && !StateAt(txns, saw).status.Ended?
  }

  /** The committed state after the first i transactions. */
  function StateAt(txns: seq<CaseTxn>, i: nat): Commit
    requires i <= |txns|
    decreases i, 1
  {
    if i == 0 then Commit(Queued, [])
    else
      var c := StateAt(txns, i - 1);
      if Acts(txns, i - 1) then Written(c, txns[i - 1]) else c
  }

  function Written(c: Commit, t: CaseTxn): Commit {
    match t
    case Begin(_) => Commit(Running, Append(c.log, RunStarted))
    case Emit(kinds) => Commit(c.status, AppendAll(c.log, kinds))
    case End(_, outcome, hasError) => Commit(Ended(outcome), AppendAll(c.log, FinishKinds(outcome, hasError)))
  }

  // ---------------------------------------------------------------- every history

  lemma WrittenKeeps(c: Commit, t: CaseTxn)
    requires Numbered(c.log)
    ensures Numbered(Written(c, t).log) && c.log <= Written(c, t).log
  {
    match t
    case Begin(_) => MaxSeqOfNumbered(c.log);
    case Emit(kinds) => AppendAllNumbered(c.log, kinds);
    case End(_, outcome, hasError) => AppendAllNumbered(c.log, FinishKinds(outcome, hasError));
  }

  /** In every history the events are numbered 1, 2, 3, … and the log only grows. */
  lemma {:induction false} AlwaysNumbered(txns: seq<CaseTxn>, i: nat, j: nat)
    requires i <= j <= |txns|
    ensures Numbered(StateAt(txns, j).log) && StateAt(txns, i).log <= StateAt(txns, j).log
    decreases j
  {
    if j > 0 {
      AlwaysNumbered(txns, if i < j then i else j - 1, j - 1);
      if Acts(txns, j - 1) {
        WrittenKeeps(StateAt(txns, j - 1), txns[j - 1]);
      }
    }
  }

  /** What a transaction that acts writes: the start and its status, events alone, or the end with its last events. */
  lemma WritesAs(txns: seq<CaseTxn>, i: nat)
    requires i < |txns|
    ensures var before, after := StateAt(txns, i), StateAt(txns, i + 1);
            if !Acts(txns, i) then after == before
            else match txns[i]
              case Begin(_) => after.status == Running && KindsOf(after.log) == KindsOf(before.log) + [RunStarted]
              case Emit(kinds) => after.status == before.status && KindsOf(after.log) == KindsOf(before.log) + kinds
              case End(_, outcome, hasError) =>
                && after.status == Ended(outcome)
                && KindsOf(after.log) == KindsOf(before.log) + (if hasError then [RunError] else [])
                                         + (if outcome == Cancelled then [RunCancelled] else []) + [RunFinished(outcome)]
  {
    var log := StateAt(txns, i).log;
    AlwaysNumbered(txns, i, i);
    match txns[i]
    case Begin(_) => MaxSeqOfNumbered(log);
    case Emit(kinds) => Logged(log, kinds);
    case End(_, outcome, hasError) =>
      Logged(log, FinishKinds(outcome, hasError));
      assert KindsOf(log) + FinishKinds(outcome, hasError)
          == KindsOf(log) + (if hasError then [RunError] else []) + (if outcome == Cancelled then [RunCancelled] else []) + [RunFinished(outcome)];
  }

  // ---------------------------------------------------------------- the reader, in every history

  /** All committed states of a history. */
  function StatesOf(txns: seq<CaseTxn>): (states: seq<Commit>)
    ensures |states| == |txns| + 1
  {
    seq(|txns| + 1, i requires 0 <= i <= |txns| => StateAt(txns, i))
  }

  lemma StatesOfGrow(txns: seq<CaseTxn>)
    ensures Growing(StatesOf(txns))
  {
    forall i | 0 <= i <= |txns|
      ensures Numbered(StatesOf(txns)[i].log)
    {
      AlwaysNumbered(txns, i, i);
    }
    forall i, j | 0 <= i <= j <= |txns|
      ensures StatesOf(txns)[i].log <= StatesOf(txns)[j].log
    {
      AlwaysNumbered(txns, i, j);
    }
  }

  /**
   The reader of a case thread's run, in every history of its writers and every schedule: no gap,
   no repetition, every poll read up to a full page, and on return all of the last row snapshot.
   */
  method CaseStream(txns: seq<CaseTxn>, polls: seq<Poll>, start: nat)
    returns (out: seq<Event>, returned: bool, used: nat)
    requires Schedule(polls, |txns|)
    ensures Followed(StatesOf(txns), polls, start, out, returned, used)
  {
    StatesOfGrow(txns);
    out, returned, used := Follow(StatesOf(txns), polls, start);
  }

  /** A transaction that writes lengthens the log. */
  lemma ActGrows(txns: seq<CaseTxn>, i: nat)
    requires i < |txns| && Acts(txns, i)
    ensures |StateAt(txns, i).log| < |StateAt(txns, i + 1).log|
  {
    AlwaysNumbered(txns, i, i);
    var c := StateAt(txns, i);
    match txns[i]
    case Begin(_) =>
    case Emit(kinds) => AppendAllNumbered(c.log, kinds);
    case End(_, outcome, hasError) => AppendAllNumbered(c.log, FinishKinds(outcome, hasError));
  }

  ghost predicate Quiet(txns: seq<CaseTxn>, n: nat, m: nat)
    requires m <= |txns|
  {
    forall i | n <= i < m :: !Acts(txns, i)
  }

  lemma {:induction false} SameLogIffQuiet(txns: seq<CaseTxn>, n: nat, m: nat)
    requires n <= m <= |txns|
    ensures StateAt(txns, n).log == StateAt(txns, m).log <==> Quiet(txns, n, m)
    decreases m
  {
    if n < m {
      SameLogIffQuiet(txns, n, m - 1);
      AlwaysNumbered(txns, n, m - 1);
      if Acts(txns, m - 1) {
        ActGrows(txns, m - 1);
      } else {
        assert StateAt(txns, m) == StateAt(txns, m - 1);
      }
    }
  }

  /**
   Exactly when a reader that has returned has missed events beyond its Last-Event-ID: when some
   transaction writes after the row snapshot of its last poll.
   */
  lemma ReturnedHasAllIff(txns: seq<CaseTxn>, polls: seq<Poll>, start: nat, out: seq<Event>, used: nat)
    requires Schedule(polls, |txns|) && Followed(StatesOf(txns), polls, start, out, true, used)
    ensures 0 < used <= |polls|
    ensures var final := StateAt(txns, |txns|).log;
            out == From(final, start) <==> |final| <= start || Quiet(txns, polls[used - 1].rows, |txns|)
  {
    var n := polls[used - 1].rows;
    assert n <= |txns| && out == From(StateAt(txns, n).log, start);
    AlwaysNumbered(txns, n, |txns|);
    SameLogIffQuiet(txns, n, |txns|);
    SameRestIff(StateAt(txns, n).log, StateAt(txns, |txns|).log, start);
  }

  lemma SameRestIff(log: seq<Event>, final: seq<Event>, start: nat)
    requires log <= final
    ensures From(log, start) == From(final, start) <==> |final| <= start || log == final
  {
    if |final| > start {
      assert |From(final, start)| == |final| - start;
      assert |From(log, start)| == if start <= |log| then |log| - start else 0;
    }
  }

  // ---------------------------------------------------------------- histories that leave a finished run alone

  /** No transaction writes after one that has ended the run. */
  ghost predicate Clean(txns: seq<CaseTxn>) {
    forall i, j | 0 <= i < j < |txns| && txns[i].End? && Acts(txns, i) :: !Acts(txns, j)
  }

  /** The run is terminal exactly when some transaction has ended it. */
  ghost predicate EndedBy(txns: seq<CaseTxn>, n: nat)
    requires n <= |txns|
  {
    exists i | 0 <= i < n :: txns[i].End? && Acts(txns, i)
  }

  lemma {:induction false} EndedOnlyByEnd(txns: seq<CaseTxn>, n: nat)
    requires n <= |txns| && StateAt(txns, n).status.Ended?
    ensures EndedBy(txns, n)
  {
    if !(Acts(txns, n - 1) && txns[n - 1].End?) {
      EndedOnlyByEnd(txns, n - 1);
    }
  }

  /** A clean history is one of the guarded writers' histories. */
  function Guarded(txns: seq<CaseTxn>, n: nat): (g: seq<Txn>)
    requires n <= |txns|
    ensures |g| == n
  {
    if n == 0 then []
    else
      var t := if !Acts(txns, n - 1) then Write([RunFinished(Done)])
               else match txns[n - 1]
                 case Begin(_) => Write([RunStarted])
                 case Emit(kinds) => Write(kinds)
                 case End(_, outcome, hasError) => Finish(outcome, hasError);
      Guarded(txns, n - 1) + [t]
  }

  /**
   In a clean history every committed state is one the guarded log reaches, so everything
   proved of it holds: the log is well formed and a returning reader has delivered all of it.
   */
  lemma {:induction false} CleanIsGuarded(txns: seq<CaseTxn>, n: nat)
    requires Clean(txns) && n <= |txns|
    ensures forall i | 0 <= i <= n :: StateAt(txns, i) == At(Guarded(txns, n), i)
    ensures WellFormed(StateAt(txns, n))
  {
    hide Clean, StateAt, Guarded, Apply;
    NothingGuarded(txns);
    if n > 0 {
      var before := Guarded(txns, n - 1);
      var t := GuardedNext(txns, n - 1);
      CleanIsGuarded(txns, n - 1);
      forall i | 0 <= i <= n - 1
        ensures StateAt(txns, i) == At(Guarded(txns, n), i)
      {
        AtPrefix(before, t, i);
      }
    }
    AtWellFormed(Guarded(txns, n), n);
  }

  lemma NothingGuarded(txns: seq<CaseTxn>)
    ensures StateAt(txns, 0) == At(Guarded(txns, 0), 0)
  {
  }

  lemma GuardedNext(txns: seq<CaseTxn>, n: nat) returns (t: Txn)
    requires Clean(txns) && n < |txns|
    ensures Guarded(txns, n + 1) == Guarded(txns, n) + [t]
    ensures StateAt(txns, n + 1) == Apply(StateAt(txns, n), t)
  {
    t := Guarded(txns, n + 1)[n];
    if StateAt(txns, n).status.Ended? {
      EndedOnlyByEnd(txns, n);
    }
  }

  /** A transaction that writes to a finished run leaves run.finished before its last event. */
  lemma WritingBreaks(c: Commit, t: CaseTxn)
    requires WellFormed(c) && c.status.Ended? && (t.Emit? ==> Progress(t.kinds))
    ensures !WellFormed(Written(c, t))
  {
    var at := |c.log| - 1;
    WrittenKeeps(c, t);
    assert Written(c, t).log[at] == c.log[at];
    match t
    case Begin(_) =>
    case Emit(kinds) => AppendAllNumbered(c.log, kinds);
    case End(_, outcome, hasError) => AppendAllNumbered(c.log, FinishKinds(outcome, hasError));
  }

  lemma {:induction false} FirstWriteAfter(txns: seq<CaseTxn>, i: nat, j: nat) returns (k: nat)
    requires i < j < |txns| && txns[i].End? && Acts(txns, i) && Acts(txns, j)
    ensures i < k <= j && Acts(txns, k) && StateAt(txns, k).status.Ended?
    decreases j
  {
    if m :| i < m < j && Acts(txns, m) {
      k := FirstWriteAfter(txns, i, m);
    } else {
      k := j;
      StaysEnded(txns, i, j);
    }
  }

  lemma {:induction false} StaysEnded(txns: seq<CaseTxn>, i: nat, j: nat)
    requires i < j <= |txns| && txns[i].End? && Acts(txns, i)
    requires forall m | i < m < j :: !Acts(txns, m)
    ensures StateAt(txns, j).status.Ended?
    decreases j
  {
    if j > i + 1 {
      StaysEnded(txns, i, j - 1);
    }
  }

  lemma UncleanBreaks(txns: seq<CaseTxn>) returns (n: nat)
    requires !Clean(txns)
    ensures n <= |txns| && !WellFormed(StateAt(txns, n))
  {
    hide WellFormed;
    var i, j :| 0 <= i < j < |txns| && txns[i].End? && Acts(txns, i) && Acts(txns, j);
    var k := FirstWriteAfter(txns, i, j);
    n := k;
    if WellFormed(StateAt(txns, k)) {
      WritingBreaks(StateAt(txns, k), txns[k]);
      n := k + 1;
    }
  }

  /**
   Exactly which histories keep the log's promise in every committed state, run.finished once,
   last and only on a terminal run: those in which nothing writes after the run was ended.
   */
  lemma WellFormedIffClean(txns: seq<CaseTxn>)
    ensures (forall n | 0 <= n <= |txns| :: WellFormed(StateAt(txns, n))) <==> Clean(txns)
  {
    hide WellFormed, Clean, StateAt;
    if Clean(txns) {
      forall n | 0 <= n <= |txns|
        ensures WellFormed(StateAt(txns, n))
      {
        CleanIsGuarded(txns, n);
      }
    } else {
      var n := UncleanBreaks(txns);
      assert !WellFormed(StateAt(txns, n));
    }
  }

  // ---------------------------------------------------------------- the same, transaction by transaction

  /** The place of the first transaction that ends the run, or the length of the history. */
  function FirstEnd(txns: seq<CaseTxn>, n: nat): (e: nat)
    requires n <= |txns|
    ensures e <= n
    ensures forall i | 0 <= i < e :: !(txns[i].End? && txns[i].saw <= i)
    ensures e < n ==> txns[e].End? && txns[e].saw <= e
  {
    if n == 0 then 0
    else
      var e := FirstEnd(txns, n - 1);
      if e < n - 1 || (txns[n - 1].End? && txns[n - 1].saw <= n - 1) then e else n
  }

  /** A transaction after the end read the status after it, and emits nothing. (One that read the future is none.) */
  predicate Late(t: CaseTxn, end: nat, at: nat) {
    match t
    case Emit(kinds) => !Progress(kinds)
    case Begin(saw) => end < saw || at < saw
    case End(saw, _, _) => end < saw || at < saw
  }

  lemma {:induction false} NotEndedBefore(txns: seq<CaseTxn>, n: nat)
    requires n <= FirstEnd(txns, |txns|)
    ensures !StateAt(txns, n).status.Ended?
  {
    if n > 0 {
      NotEndedBefore(txns, n - 1);
    }
  }

  /** The first end acts: nothing had ended the run for it to see. */
  lemma FirstEndActs(txns: seq<CaseTxn>)
    ensures var e := FirstEnd(txns, |txns|); e < |txns| ==> Acts(txns, e)
  {
    var e := FirstEnd(txns, |txns|);
    if e < |txns| {
      NotEndedBefore(txns, txns[e].saw);
    }
  }

  lemma {:induction false} LateIsQuiet(txns: seq<CaseTxn>, n: nat)
    requires FirstEnd(txns, |txns|) < n <= |txns|
    requires forall j | FirstEnd(txns, |txns|) < j < n :: Late(txns[j], FirstEnd(txns, |txns|), j)
    ensures StateAt(txns, n).status.Ended?
    ensures forall j | FirstEnd(txns, |txns|) < j < n :: !Acts(txns, j)
    decreases n
  {
    var e := FirstEnd(txns, |txns|);
    FirstEndActs(txns);
    if e < n - 1 {
      LateIsQuiet(txns, n - 1);
      var j := n - 1;
      if !txns[j].Emit? && txns[j].saw <= j {
        QuietStays(txns, e, txns[j].saw, n - 1);
      }
    }
  }

  lemma QuietStays(txns: seq<CaseTxn>, e: nat, m: nat, n: nat)
    requires e < m <= n <= |txns| && txns[e].End? && Acts(txns, e)
    requires forall j | e < j < n :: !Acts(txns, j)
    ensures StateAt(txns, m).status.Ended?
  {
    StaysEnded(txns, e, m);
  }

  /**
   The clean histories, judged transaction by transaction: every transaction after the first one
   that ends the run read the run's status after it, and none emits progress.
   */
  lemma CleanIffLate(txns: seq<CaseTxn>)
    ensures var e := FirstEnd(txns, |txns|);
            Clean(txns) <==> forall j | e < j < |txns| :: Late(txns[j], e, j)
  {
    var e := FirstEnd(txns, |txns|);
    FirstEndActs(txns);
    if Clean(txns) {
      forall j | e < j < |txns|
        ensures Late(txns[j], e, j)
      {
        assert !Acts(txns, j);
        if !txns[j].Emit? && txns[j].saw <= e {
          NotEndedBefore(txns, txns[j].saw);
        }
      }
    }
    if forall j | e < j < |txns| :: Late(txns[j], e, j) {
      if e < |txns| {
        LateIsQuiet(txns, |txns|);
      }
      forall i, j | 0 <= i < j < |txns| && txns[i].End? && Acts(txns, i)
        ensures !Acts(txns, j)
      {
        assert e <= i;
      }
    }
  }

  /** Such a history: two cancellations of a queued run that both read its status before either commits. */
  lemma CancelledTwice()
    ensures var txns := [End(0, Cancelled, false), End(0, Cancelled, false)];
            && Causal(txns) && !Clean(txns)
            && StateAt(txns, 2).log == [Event(1, RunCancelled), Event(2, RunFinished(Cancelled)),
                                        Event(3, RunCancelled), Event(4, RunFinished(Cancelled))]
  {
    var txns := [End(0, Cancelled, false), End(0, Cancelled, false)];
    hide StateAt, Acts;
    NothingYet(txns);
    CancelWrites(txns, 0);
    CancelWrites(txns, 1);
  }

  lemma NothingYet(txns: seq<CaseTxn>)
    ensures StateAt(txns, 0) == Commit(Queued, [])
  {
  }

  /** A cancellation that read the status at the start writes, whatever has happened since. */
  lemma CancelWrites(txns: seq<CaseTxn>, i: nat)
    requires i < |txns| && txns[i] == End(0, Cancelled, false)
    ensures Acts(txns, i)
    ensures var log := StateAt(txns, i).log;
            StateAt(txns, i + 1).log == log + [Event(|log| + 1, RunCancelled), Event(|log| + 2, RunFinished(Cancelled))]
  {
    hide AppendAll, FinishKinds;
    NothingYet(txns);
    AlwaysNumbered(txns, i, i);
    CancelEvents(StateAt(txns, i).log);
  }

  lemma {:induction false} CancelEvents(log: seq<Event>)
    requires Numbered(log)
    ensures AppendAll(log, FinishKinds(Cancelled, false))
            == log + [Event(|log| + 1, RunCancelled), Event(|log| + 2, RunFinished(Cancelled))]
    ensures Numbered(AppendAll(log, FinishKinds(Cancelled, false)))
  {
    AppendAllNumbered(log, FinishKinds(Cancelled, false));
  }
}

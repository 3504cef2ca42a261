/**
 The numbered event log of one run and the polling reader that streams it.

 Writers commit transactions: each appends events to a run that is not terminal, or
 makes the run terminal together with its last events. The reader takes two separate
 snapshots on every poll, the status first and the rows second, so any number of
 commits can fall between them.
 */
module RunLog {

  datatype Outcome = Done | Error | Cancelled | Budget

  datatype Status = Queued | Running | Ended(outcome: Outcome)

  datatype Kind = RunStarted | MessageDelta | MessageCompleted | ActivityUpdated | RunStep
                | RunError | RunCancelled | RunFinished(outcome: Outcome)

  datatype Event = Event(seqNo: nat, kind: Kind)

  /** What a database snapshot shows of one run. */
  datatype Commit = Commit(status: Status, log: seq<Event>)

  /** One writer transaction: events of a running attempt, or the terminal commit. */
  datatype Txn = Write(kinds: seq<Kind>) | Finish(outcome: Outcome, hasError: bool)

  const PAGE := 200

  // ---------------------------------------------------------------- writers

  /** coalesce(max(seq), 0) over the rows of the run. */
  function MaxSeq(log: seq<Event>): nat {
    if log == [] then 0
    else
      var rest := MaxSeq(log[..|log| - 1]);
      var last := log[|log| - 1].seqNo;
      if last > rest then last else rest
  }

  function Append(log: seq<Event>, kind: Kind): seq<Event> {
    log + [Event(MaxSeq(log) + 1, kind)]
  }

  function AppendAll(log: seq<Event>, kinds: seq<Kind>): seq<Event>
    decreases |kinds|
  {
    if kinds == [] then log else AppendAll(Append(log, kinds[0]), kinds[1..])
  }

  /** The events written together with a terminal status, in order. */
  function FinishKinds(outcome: Outcome, hasError: bool): seq<Kind> {
    (if hasError then [RunError] else [])
    + (if outcome == Cancelled then [RunCancelled] else [])
    + [RunFinished(outcome)]
  }

  predicate Plain(kinds: seq<Kind>) {
    forall k | 0 <= k < |kinds| :: !kinds[k].RunFinished?
  }

  /** A terminal run is left alone; only the terminal commit writes run.finished. */
  function Apply(c: Commit, t: Txn): Commit {
    if c.status.Ended? then c
    else match t
      case Write(kinds) =>
        if Plain(kinds) then Commit(if RunStarted in kinds then Running else c.status, AppendAll(c.log, kinds)) else c
      case Finish(outcome, hasError) =>
        Commit(Ended(outcome), AppendAll(c.log, FinishKinds(outcome, hasError)))
  }

  /** The committed state after the first `i` transactions on a newly queued run. */
  function At(txns: seq<Txn>, i: nat): Commit
    requires i <= |txns|
  {
    if i == 0 then Commit(Queued, []) else Apply(At(txns, i - 1), txns[i - 1])
  }

  lemma {:induction false} AtPrefix(txns: seq<Txn>, t: Txn, i: nat)
    requires i <= |txns|
    ensures At(txns + [t], i) == At(txns, i)
  {
    if i > 0 {
      AtPrefix(txns, t, i - 1);
    }
  }

  /** Events are numbered 1, 2, 3, ... in commit order. */
  ghost predicate Numbered(log: seq<Event>) {
    forall i | 0 <= i < |log| :: log[i].seqNo == i + 1
  }

  /** Exactly the terminal runs contain run.finished: once, last, and naming their outcome. */
  ghost predicate WellFormed(c: Commit) {
    && Numbered(c.log)
    && (forall i | 0 <= i < |c.log| && c.log[i].kind.RunFinished? :: c.status.Ended? && i == |c.log| - 1)
    && (c.status.Ended? ==> |c.log| > 0 && c.log[|c.log| - 1].kind == RunFinished(c.status.outcome))
  }

  lemma {:induction false} MaxSeqOfNumbered(log: seq<Event>)
    requires Numbered(log)
    ensures MaxSeq(log) == |log|
  {
    if log != [] {
      MaxSeqOfNumbered(log[..|log| - 1]);
    }
  }

  /** Appending extends the log by exactly the given kinds, in order, numbered on. */
  lemma {:induction false} AppendAllNumbered(log: seq<Event>, kinds: seq<Kind>)
    requires Numbered(log)
    ensures Numbered(AppendAll(log, kinds))
    ensures |AppendAll(log, kinds)| == |log| + |kinds|
    ensures forall i | 0 <= i < |log| :: AppendAll(log, kinds)[i] == log[i]
    ensures forall i | |log| <= i < |log| + |kinds| :: AppendAll(log, kinds)[i].kind == kinds[i - |log|]
    decreases |kinds|
  {
    if kinds != [] {
      MaxSeqOfNumbered(log);
      AppendAllNumbered(Append(log, kinds[0]), kinds[1..]);
    }
  }

  function KindsOf(log: seq<Event>): (kinds: seq<Kind>)
    ensures |kinds| == |log|
  {
    seq(|log|, i requires 0 <= i < |log| => log[i].kind)
  }

  lemma Logged(log: seq<Event>, kinds: seq<Kind>)
    requires Numbered(log)
    ensures Numbered(AppendAll(log, kinds)) && KindsOf(AppendAll(log, kinds)) == KindsOf(log) + kinds
  {
    AppendAllNumbered(log, kinds);
  }

  /** A transaction keeps the log well formed, only extends it, and never touches a finished run. */
  lemma ApplyKeeps(c: Commit, t: Txn)
    requires WellFormed(c)
    ensures WellFormed(Apply(c, t))
    ensures c.log <= Apply(c, t).log
    ensures c.status.Ended? ==> Apply(c, t) == c
  {
    if !c.status.Ended? {
      match t {
        case Write(kinds) =>
          AppendAllNumbered(c.log, kinds);
        case Finish(outcome, hasError) =>
          var kinds := FinishKinds(outcome, hasError);
          assert kinds[|kinds| - 1] == RunFinished(outcome);
          assert forall k | 0 <= k < |kinds| - 1 :: !kinds[k].RunFinished?;
          AppendAllNumbered(c.log, kinds);
      }
    }
  }

  /** Every committed state is well formed. */
  lemma {:induction false} AtWellFormed(txns: seq<Txn>, i: nat)
    requires i <= |txns|
    ensures WellFormed(At(txns, i))
  {
    if i > 0 {
      AtWellFormed(txns, i - 1);
      ApplyKeeps(At(txns, i - 1), txns[i - 1]);
    }
  }

  /** Later snapshots extend earlier ones; a terminal snapshot is the last word. */
  lemma {:induction false} AtGrows(txns: seq<Txn>, i: nat, j: nat)
    requires i <= j <= |txns|
    ensures At(txns, i).log <= At(txns, j).log
    ensures At(txns, i).status.Ended? ==> At(txns, j) == At(txns, i)
    decreases j
  {
    if i < j {
      AtGrows(txns, i, j - 1);
      AtWellFormed(txns, j - 1);
      ApplyKeeps(At(txns, j - 1), txns[j - 1]);
    }
  }

  // ---------------------------------------------------------------- reader

  /** Rows with seq > after, in log order. */
  function Newer(log: seq<Event>, after: nat): seq<Event> {
    if log == [] then []
    else
      var rest := Newer(log[..|log| - 1], after);
      if log[|log| - 1].seqNo > after then rest + [log[|log| - 1]] else rest
  }

  /** WHERE seq > after ORDER BY seq LIMIT 200. */
  function Fetch(log: seq<Event>, after: nat): seq<Event> {
    var rows := Newer(log, after);
    if |rows| <= PAGE then rows else rows[..PAGE]
  }

  /** The event id the reader continues from. */
  function Resume(rows: seq<Event>, after: nat): nat {
    if rows == [] then after else rows[|rows| - 1].seqNo
  }

  lemma {:induction false} NewerOfNumbered(log: seq<Event>, after: nat)
    requires Numbered(log)
    ensures Newer(log, after) == From(log, after)
  {
    if log != [] {
      var front := log[..|log| - 1];
      NewerOfNumbered(front, after);
      if after < |log| {
        assert log[after..] == front[after..] + [log[|log| - 1]];
      }
    }
  }

  /** The reader's part of a log: everything after position `start`. */
  ghost function From(log: seq<Event>, start: nat): seq<Event> {
    if start <= |log| then log[start..] else []
  }

  /** One poll of the reader: after how many commits each of its two snapshots was taken. */
  datatype Poll = Poll(status: nat, rows: nat)

  /** Any interleaving: time never runs backwards, and the status is read before the rows. */
  ghost predicate Schedule(polls: seq<Poll>, n: int) {
    && (forall i | 0 <= i < |polls| :: polls[i].status <= polls[i].rows <= n)
    && (forall i, j | 0 <= i < j < |polls| :: polls[i].rows <= polls[j].status)
  }

  /** What the reader has delivered is one contiguous stretch of the log it last saw. */
  ghost predicate Delivered(log: seq<Event>, start: nat, out: seq<Event>, after: nat) {
    && after == start + |out|
    && (out == [] || (after <= |log| && out == log[start..after]))
  }

  lemma DeliveredGrows(log: seq<Event>, log': seq<Event>, start: nat, out: seq<Event>, after: nat)
    requires Delivered(log, start, out, after) && log <= log'
    ensures Delivered(log', start, out, after)
  {
    if out != [] {
      assert log'[start..after] == log[start..after];
    }
  }

  lemma DeliveredNumbers(log: seq<Event>, start: nat, out: seq<Event>, after: nat)
    requires Numbered(log) && Delivered(log, start, out, after)
    ensures forall i | 0 <= i < |out| :: out[i].seqNo == start + i + 1
    ensures out <= From(log, start)
  {
    if out != [] {
      assert log[start..after] <= log[start..];
    }
  }

  /** Where a poll that finds `length` rows leaves a reader that had delivered `after`. */
  function Advance(after: nat, length: nat): nat {
    if length <= after then after else if length - after > 200 then after + 200 else length
  }

  /** What one fetched page adds, and what a short or a full page tells the reader. */
  lemma PageDelivers(log: seq<Event>, start: nat, out: seq<Event>, after: nat)
    requires Numbered(log) && Delivered(log, start, out, after)
    ensures var rows := Fetch(log, after);
            && Delivered(log, start, out + rows, Resume(rows, after))
            && |rows| <= 200
            && (|rows| < 200 ==> out + rows == From(log, start))
            && (|rows| == 200 ==> Resume(rows, after) == after + 200 && after + 200 <= |log|)
  {
    hide Newer, MaxSeq;
    var rows := Fetch(log, after);
    NewerOfNumbered(log, after);
    if after <= |log| {
      var stop := after + |rows|;
      assert rows == log[after..stop];
      assert rows != [] ==> rows[|rows| - 1] == log[stop - 1];
      assert out + rows == log[start..stop];
      assert |rows| < PAGE ==> stop == |log|;
    }
  }

  lemma PageAdvances(log: seq<Event>, after: nat)
    requires Numbered(log)
    ensures Resume(Fetch(log, after), after) == Advance(after, |log|)
    ensures |Fetch(log, after)| < PAGE <==> |log| < after + PAGE
  {
    NewerOfNumbered(log, after);
  }

  /** The committed states of a run, one after every commit: numbered logs, each extending the one before. */
  ghost predicate Growing(states: seq<Commit>) {
    && states != []
    && (forall i | 0 <= i < |states| :: Numbered(states[i].log))
    && (forall i, j | 0 <= i <= j < |states| :: states[i].log <= states[j].log)
  }

  /** The log as of the reader's last row snapshot. */
  ghost function Seen(states: seq<Commit>, polls: seq<Poll>, used: nat): seq<Event>
    requires used <= |polls| && Schedule(polls, |states| - 1)
  {
    if used == 0 then [] else states[polls[used - 1].rows].log
  }

  /** How far n polls take the reader: one page each, as far as rows were there. */
  ghost function Position(states: seq<Commit>, polls: seq<Poll>, start: nat, n: nat): nat
    requires n <= |polls| && Schedule(polls, |states| - 1)
  {
    if n == 0 then start else Advance(Position(states, polls, start, n - 1), |states[polls[n - 1].rows].log|)
  }

  ghost predicate EndedAt(states: seq<Commit>, polls: seq<Poll>, k: nat)
    requires k < |polls| && Schedule(polls, |states| - 1)
  {
    states[polls[k].status].status.Ended?
  }

  /** Poll k saw a terminal status and its rows did not fill a page. */
  ghost predicate StopsAt(states: seq<Commit>, polls: seq<Poll>, start: nat, k: nat)
    requires k < |polls| && Schedule(polls, |states| - 1)
  {
    EndedAt(states, polls, k) && |states[polls[k].rows].log| < Position(states, polls, start, k) + 200
  }

  /** None of the first n polls stops the reader. */
  ghost predicate ReadsUpto(states: seq<Commit>, polls: seq<Poll>, start: nat, n: nat)
    requires n <= |polls| && Schedule(polls, |states| - 1)
  {
    forall k | 0 <= k < n :: !StopsAt(states, polls, start, k)
  }

  /** After `used` polls, none of which stopped it, the reader has delivered one stretch, as far as its position. */
  ghost predicate Reading(states: seq<Commit>, polls: seq<Poll>, start: nat, used: nat, out: seq<Event>, after: nat) {
    && used <= |polls| && Schedule(polls, |states| - 1)
    && Delivered(Seen(states, polls, used), start, out, after) && after == Position(states, polls, start, used)
    && ReadsUpto(states, polls, start, used)
  }

  /**
   What following a log gives, whoever writes it: events numbered start+1, start+2, ... without gap
   or repetition; from every poll what its row snapshot shows, up to a full page; and a return at
   the first poll that saw a terminal status and did not fill its page, with all of that snapshot.
   */
  ghost predicate Followed(states: seq<Commit>, polls: seq<Poll>, start: nat, out: seq<Event>, returned: bool, used: nat) {
    && used <= |polls| && Schedule(polls, |states| - 1) && states != []
    && (forall i | 0 <= i < |out| :: out[i].seqNo == start + i + 1)
    && out <= From(states[|states| - 1].log, start)
    && start + |out| == Position(states, polls, start, used)
    && (if !returned then used == |polls| && ReadsUpto(states, polls, start, used)
        else used > 0 && ReadsUpto(states, polls, start, used - 1) && StopsAt(states, polls, start, used - 1)
             && out == From(states[polls[used - 1].rows].log, start))
  }

  /** One poll of a reader on its way: what it delivers, and whether it stops. */
  lemma PollReads(states: seq<Commit>, polls: seq<Poll>, start: nat, used: nat, out: seq<Event>, after: nat)
    requires Growing(states) && used < |polls| && Reading(states, polls, start, used, out, after)
    ensures var log := states[polls[used].rows].log;
            var rows := Fetch(log, after);
            && Delivered(log, start, out + rows, Resume(rows, after))
            && Resume(rows, after) == Position(states, polls, start, used + 1)
            && (StopsAt(states, polls, start, used) <==> EndedAt(states, polls, used) && |rows| < PAGE)
            && (|rows| < PAGE ==> out + rows == From(log, start))
  {
    hide Newer, Fetch, Resume, Numbered, Delivered, From, Advance, EndedAt, ReadsUpto;
    var log := states[polls[used].rows].log;
    DeliveredGrows(Seen(states, polls, used), log, start, out, after);
    PageDelivers(log, start, out, after);
    PageAdvances(log, after);
  }

  lemma ReadsOn(states: seq<Commit>, polls: seq<Poll>, start: nat, used: nat, out: seq<Event>, after: nat)
    requires Growing(states) && used < |polls| && Reading(states, polls, start, used, out, after)
    ensures polls[used].status <= polls[used].rows < |states|
    ensures var log := states[polls[used].rows].log;
            var rows := Fetch(log, after);
            if states[polls[used].status].status.Ended? && |rows| < PAGE
            then Followed(states, polls, start, out + rows, true, used + 1)
            else Reading(states, polls, start, used + 1, out + rows, Resume(rows, after))
  {
    hide Fetch, Resume, Numbered, Delivered, From, Advance;
    PollReads(states, polls, start, used, out, after);
    var rows := Fetch(states[polls[used].rows].log, after);
    ReadSoFar(states, polls, start, used + 1, out + rows, Resume(rows, after));
  }

  lemma ReadSoFar(states: seq<Commit>, polls: seq<Poll>, start: nat, used: nat, out: seq<Event>, after: nat)
    requires Growing(states) && used <= |polls| && Schedule(polls, |states| - 1)
    requires Delivered(Seen(states, polls, used), start, out, after)
    ensures forall i | 0 <= i < |out| :: out[i].seqNo == start + i + 1
    ensures out <= From(states[|states| - 1].log, start) && after == start + |out|
  {
    DeliveredGrows(Seen(states, polls, used), states[|states| - 1].log, start, out, after);
    DeliveredNumbers(states[|states| - 1].log, start, out, after);
  }

  /** The streaming loop, for any writers. `start` is the client's Last-Event-ID. */
  method Follow(states: seq<Commit>, polls: seq<Poll>, start: nat)
    returns (out: seq<Event>, returned: bool, used: nat)
    requires Growing(states) && Schedule(polls, |states| - 1)
    ensures Followed(states, polls, start, out, returned, used)
  {
    var after: nat := start;
    used, out := 0, [];
    assert Reading(states, polls, start, 0, [], start);
    while used < |polls|
      invariant Reading(states, polls, start, used, out, after)
      decreases |polls| - used
    {
      hide Growing, Reading, Followed, Fetch, Resume;
      ReadsOn(states, polls, start, used, out, after);
      var poll := polls[used];
      var done := states[poll.status].status.Ended?;
      var rows := Fetch(states[poll.rows].log, after);
      out := out + rows;
      after := Resume(rows, after);
      used := used + 1;
      if done && |rows| < PAGE {
        return out, true, used;
      }
    }
    returned := false;
    ReadSoFar(states, polls, start, used, out, after);
  }

  // ---------------------------------------------------------------- the reader of guarded writers

  /** All committed states of a history. */
  function States(txns: seq<Txn>): (states: seq<Commit>)
    ensures |states| == |txns| + 1
  {
    seq(|txns| + 1, i requires 0 <= i <= |txns| => At(txns, i))
  }

  lemma StatesGrow(txns: seq<Txn>)
    ensures Growing(States(txns))
  {
    forall i | 0 <= i <= |txns|
      ensures Numbered(States(txns)[i].log)
    {
      AtWellFormed(txns, i);
    }
    forall i, j | 0 <= i <= j <= |txns|
      ensures States(txns)[i].log <= States(txns)[j].log
    {
      AtGrows(txns, i, j);
    }
  }

  /** From a poll that saw the run terminal on, every poll that does not stop brings a full page. */
  lemma {:induction false} Drains(txns: seq<Txn>, polls: seq<Poll>, start: nat, k: nat, n: nat)
    requires Schedule(polls, |txns|) && k < n <= |polls| && EndedAt(States(txns), polls, k)
    requires forall m | k <= m < n :: !StopsAt(States(txns), polls, start, m)
    ensures (n - k) * PAGE <= Position(States(txns), polls, start, n) <= |At(txns, polls[k].status).log|
    decreases n
  {
    var m := n - 1;
    AtGrows(txns, polls[k].status, polls[m].status);
    AtGrows(txns, polls[m].status, polls[m].rows);
    assert !StopsAt(States(txns), polls, start, m);
    if k < m {
      Drains(txns, polls, start, k, m);
    }
  }

  /**
   The stream of a run whose writers leave a finished run alone. When the reader returns, the run
   is terminal and the reader has delivered the whole rest of its log, however many transactions
   are still attempted afterwards; and once the run is terminal, enough polls end the stream.
   */
  method Stream(txns: seq<Txn>, polls: seq<Poll>, start: nat)
    returns (out: seq<Event>, returned: bool)
    requires Schedule(polls, |txns|)
    ensures forall i | 0 <= i < |out| :: out[i].seqNo == start + i + 1
    ensures out <= From(At(txns, |txns|).log, start)
    ensures returned ==> At(txns, |txns|).status.Ended? && out == From(At(txns, |txns|).log, start)
    ensures !returned ==> start + |out| == Position(States(txns), polls, start, |polls|)
    ensures !returned ==> forall k: nat | k < |polls| && EndedAt(States(txns), polls, k) ::
                (|polls| - k) * PAGE <= |At(txns, polls[k].status).log|
  {
    StatesGrow(txns);
    var used;
    out, returned, used := Follow(States(txns), polls, start);
    if returned {
      var last := polls[used - 1];
      AtGrows(txns, last.status, last.rows);
      AtGrows(txns, last.rows, |txns|);
    } else {
      forall k: nat | k < |polls| && EndedAt(States(txns), polls, k)
        ensures (|polls| - k) * PAGE <= |At(txns, polls[k].status).log|
      {
        Drains(txns, polls, start, k, |polls|);
      }
    }
  }

  /**
   The stream of a finished run ends in its one run.finished event: a reader that returns
   has delivered it as the last event, unless it resumed from that event or later.
   */
  lemma ReturnedStreamEndsInFinished(txns: seq<Txn>, start: nat, out: seq<Event>)
    requires At(txns, |txns|).status.Ended? && out == From(At(txns, |txns|).log, start)
    ensures start < |At(txns, |txns|).log| ==>
              && |out| > 0
              && out[|out| - 1].kind == RunFinished(At(txns, |txns|).status.outcome)
              && forall i | 0 <= i < |out| - 1 :: !out[i].kind.RunFinished?
  {
    AtWellFormed(txns, |txns|);
  }
}

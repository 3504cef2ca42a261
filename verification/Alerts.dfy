/**
 Alert creation with the hourly cap of one case. The hour that is counted comes from the
 wall clock at the call; the row's `at` column defaults to the start of the surrounding
 database transaction. Times are whole seconds.
 */
module Alerts {
  import opened Common

  const HOURLY_CAP := 20
  const HOUR := 3600

  /** `count` is an OVERFLOW row's overflow_count; an ordinary row stands for one signal. */
  datatype Alert = Alert(at: int, overflow: bool, count: nat, evidence: seq<nat>)

  datatype Refusal = Conflict | Validation

  /** One call: the clock it reads, and the time its transaction began. */
  datatype Signal = Signal(clock: int, stamp: int, evidence: seq<nat>)

  function HourOf(t: int): int {
    t - t % HOUR
  }

  /** list(dict.fromkeys(xs)): first occurrences, in order. */
  function Distinct(xs: seq<nat>): (ys: seq<nat>)
    ensures forall x :: x in ys <==> x in xs
    ensures forall i, j | 0 <= i < j < |ys| :: ys[i] != ys[j]
  {
    if xs == [] then []
    else
      var front := Distinct(xs[..|xs| - 1]);
      var last := xs[|xs| - 1];
      if last in front then front else front + [last]
  }

  /** Ordinary alerts with at >= hour. */
  function OrdinarySince(alerts: seq<Alert>, hour: int): nat {
    if alerts == [] then 0
    else
      var last := alerts[|alerts| - 1];
      OrdinarySince(alerts[..|alerts| - 1], hour) + if !last.overflow && last.at >= hour then 1 else 0
  }

  /** The earliest OVERFLOW row with at >= hour. */
  function FirstOverflow(alerts: seq<Alert>, hour: int): (row: Option<nat>)
    ensures row.Some? ==> row.value < |alerts| && alerts[row.value].overflow && alerts[row.value].at >= hour
    ensures row.None? ==> forall i | 0 <= i < |alerts| && alerts[i].overflow :: alerts[i].at < hour
  {
    if alerts == [] then None
    else
      var n := |alerts| - 1;
      var rest := FirstOverflow(alerts[..n], hour);
      if alerts[n].overflow && alerts[n].at >= hour && (rest.None? || alerts[n].at < alerts[rest.value].at) then Some(n)
      else rest
  }

  function Raise(alerts: seq<Alert>, s: Signal): seq<Alert> {
    var hour := HourOf(s.clock);
    if OrdinarySince(alerts, hour) < HOURLY_CAP then alerts + [Alert(s.stamp, false, 0, Distinct(s.evidence))]
    else
      match FirstOverflow(alerts, hour)
      case None => alerts + [Alert(s.stamp, true, 1, Distinct(s.evidence))]
      case Some(i) =>
        alerts[i := alerts[i].(evidence := Distinct(alerts[i].evidence + s.evidence), count := alerts[i].count + 1)]
  }

  function RaiseAll(signals: seq<Signal>): seq<Alert>
    decreases |signals|
  {
    if signals == [] then [] else Raise(RaiseAll(signals[..|signals| - 1]), signals[|signals| - 1])
  }

  // ---------------------------------------------------------------- one signal

  /** The ordinary rows that count against the hour of the clock. */
  ghost function Counted(alerts: seq<Alert>, clock: int): set<nat> {
    set i | 0 <= i < |alerts| && !alerts[i].overflow && alerts[i].at >= 3600 * (clock / 3600)
  }

  lemma {:induction false} CountedSize(alerts: seq<Alert>, clock: int)
    ensures OrdinarySince(alerts, HourOf(clock)) == |Counted(alerts, clock)|
    decreases |alerts|
  {
    assert HourOf(clock) == 3600 * (clock / 3600);
    if alerts == [] {
      assert Counted(alerts, clock) == {};
    } else {
      var n: nat := |alerts| - 1;
      CountedSize(alerts[..n], clock);
      assert Counted(alerts, clock)
          == Counted(alerts[..n], clock) + if !alerts[n].overflow && alerts[n].at >= 3600 * (clock / 3600) then {n} else {};
    }
  }

  /** Row i collects the surplus of the hour of the clock: none that does is stamped earlier. */
  ghost predicate Collects(alerts: seq<Alert>, clock: int, i: nat) {
    && i < |alerts| && alerts[i].overflow && alerts[i].at >= 3600 * (clock / 3600)
    && forall j | 0 <= j < |alerts| && alerts[j].overflow && alerts[j].at >= 3600 * (clock / 3600) :: alerts[i].at <= alerts[j].at
  }

  lemma {:induction false} FirstOverflowCollects(alerts: seq<Alert>, hour: int)
    ensures var row := FirstOverflow(alerts, hour);
            row.Some? ==> forall j | 0 <= j < |alerts| && alerts[j].overflow && alerts[j].at >= hour :: alerts[row.value].at <= alerts[j].at
    decreases |alerts|
  {
    if alerts != [] {
      FirstOverflowCollects(alerts[..|alerts| - 1], hour);
    }
  }

  /**
   What one signal does: an ordinary alert while fewer than twenty count, then an OVERFLOW row, then
   one more signal and its evidence on the row that collects. Rows are stamped with the
   transaction's start.
   */
  lemma RaisesAs(alerts: seq<Alert>, s: Signal)
    ensures var after := Raise(alerts, s);
            if |Counted(alerts, s.clock)| < 20 then after == alerts + [Alert(s.stamp, false, 0, Distinct(s.evidence))]
            else if forall i: nat :: !Collects(alerts, s.clock, i) then after == alerts + [Alert(s.stamp, true, 1, Distinct(s.evidence))]
            else
              exists i: nat :: Collects(alerts, s.clock, i)
                          && after == alerts[i := Alert(alerts[i].at, true, alerts[i].count + 1, Distinct(alerts[i].evidence + s.evidence))]
  {
    var hour := HourOf(s.clock);
    assert hour == 3600 * (s.clock / 3600);
    CountedSize(alerts, s.clock);
    FirstOverflowCollects(alerts, hour);
    var row := FirstOverflow(alerts, hour);
    if row.Some? {
      assert Collects(alerts, s.clock, row.value);
    }
  }

  // ---------------------------------------------------------------- nothing is lost, ever

  function Stands(a: Alert): nat {
    if a.overflow then a.count else 1
  }

  /** How many signals the rows of an hour stand for, by their own time stamps. */
  function SignalsIn(alerts: seq<Alert>, hour: int): nat {
    if alerts == [] then 0
    else
      var last := alerts[|alerts| - 1];
      SignalsIn(alerts[..|alerts| - 1], hour) + if HourOf(last.at) == hour then Stands(last) else 0
  }

  function Total(alerts: seq<Alert>): nat {
    if alerts == [] then 0 else Total(alerts[..|alerts| - 1]) + Stands(alerts[|alerts| - 1])
  }

  predicate Mentions(alerts: seq<Alert>, e: nat) {
    exists i | 0 <= i < |alerts| :: e in alerts[i].evidence
  }

  lemma {:induction false} TotalUpdate(alerts: seq<Alert>, i: nat, a: Alert)
    requires i < |alerts| && a.at == alerts[i].at
    ensures Total(alerts[i := a]) == Total(alerts) + Stands(a) - Stands(alerts[i])
    ensures forall hour :: SignalsIn(alerts[i := a], hour)
              == SignalsIn(alerts, hour) + if HourOf(a.at) == hour then Stands(a) - Stands(alerts[i]) else 0
  {
    var n := |alerts| - 1;
    if i < n {
      assert alerts[i := a][..n] == alerts[..n][i := a];
      TotalUpdate(alerts[..n], i, a);
    } else {
      assert alerts[i := a][..n] == alerts[..n];
    }
  }

  lemma RaiseCounts(alerts: seq<Alert>, s: Signal)
    ensures Total(Raise(alerts, s)) == Total(alerts) + 1
  {
    var row := FirstOverflow(alerts, HourOf(s.clock));
    if row.Some? {
      var i := row.value;
      TotalUpdate(alerts, i, alerts[i].(evidence := Distinct(alerts[i].evidence + s.evidence), count := alerts[i].count + 1));
    }
    assert Raise(alerts, s)[..|alerts|] == alerts || |Raise(alerts, s)| == |alerts|;
  }

  lemma RaiseMentions(alerts: seq<Alert>, s: Signal, e: nat)
    ensures Mentions(Raise(alerts, s), e) <==> Mentions(alerts, e) || e in s.evidence
  {
    var after := Raise(alerts, s);
    if |after| > |alerts| {
      assert after[|alerts|].evidence == Distinct(s.evidence);
      assert forall i | 0 <= i < |alerts| :: after[i] == alerts[i];
    } else {
      var k := FirstOverflow(alerts, HourOf(s.clock)).value;
      assert after[k].evidence == Distinct(alerts[k].evidence + s.evidence);
      assert forall i | 0 <= i < |alerts| && i != k :: after[i] == alerts[i];
    }
  }

  /** Whatever the clocks do: every raised signal is counted once, and every piece of evidence is kept. */
  lemma {:induction false} NothingLost(signals: seq<Signal>, e: nat)
    ensures Total(RaiseAll(signals)) == |signals|
    ensures Mentions(RaiseAll(signals), e) <==> exists k | 0 <= k < |signals| :: e in signals[k].evidence
    decreases |signals|
  {
    hide Raise, Total, RaiseAll, Mentions;
    if signals == [] {
      NothingRaised(e, 0);
    } else {
      var n := |signals| - 1;
      NothingLost(signals[..n], e);
      RaiseAllNext(signals);
      RaiseCounts(RaiseAll(signals[..n]), signals[n]);
      RaiseMentions(RaiseAll(signals[..n]), signals[n], e);
      assert forall k | 0 <= k < n :: signals[..n][k] == signals[k];
    }
  }

  lemma NothingRaised(e: nat, hour: int)
    ensures RaiseAll([]) == [] && Total([]) == 0 && !Mentions([], e)
    ensures OrdinaryIn([], hour) == 0 && OrdinarySince([], hour) == 0
  {
  }

  lemma RaiseAllNext(signals: seq<Signal>)
    requires signals != []
    ensures RaiseAll(signals) == Raise(RaiseAll(signals[..|signals| - 1]), signals[|signals| - 1])
  {
  }

  // ---------------------------------------------------------------- the cap

  /** Ordinary and OVERFLOW rows stamped within one clock hour. */
  function OrdinaryIn(alerts: seq<Alert>, hour: int): nat {
    if alerts == [] then 0
    else
      var last := alerts[|alerts| - 1];
      OrdinaryIn(alerts[..|alerts| - 1], hour) + if !last.overflow && HourOf(last.at) == hour then 1 else 0
  }

  function OverflowIn(alerts: seq<Alert>, hour: int): nat {
    if alerts == [] then 0
    else
      var last := alerts[|alerts| - 1];
      OverflowIn(alerts[..|alerts| - 1], hour) + if last.overflow && HourOf(last.at) == hour then 1 else 0
  }

  ghost predicate CappedIn(alerts: seq<Alert>, hour: int) {
    OrdinaryIn(alerts, hour) <= 20 && OverflowIn(alerts, hour) <= 1
  }

  ghost predicate Capped(alerts: seq<Alert>) {
    forall hour :: CappedIn(alerts, hour)
  }

  ghost predicate NotAfter(alerts: seq<Alert>, clock: int) {
    forall i | 0 <= i < |alerts| :: alerts[i].at <= clock
  }

  lemma NotAfterHour(at: int, clock: int)
    requires at <= clock
    ensures at >= HourOf(clock) <==> HourOf(at) == HourOf(clock)
  {
  }

  /** While no row lies in the future, counting since the hour counts the hour. */
  lemma {:induction false} SinceIsIn(alerts: seq<Alert>, clock: int)
    requires NotAfter(alerts, clock)
    ensures OrdinarySince(alerts, HourOf(clock)) == OrdinaryIn(alerts, HourOf(clock))
    ensures FirstOverflow(alerts, HourOf(clock)).None? <==> OverflowIn(alerts, HourOf(clock)) == 0
  {
    hide HourOf;
    if alerts != [] {
      SinceIsIn(alerts[..|alerts| - 1], clock);
      NotAfterHour(alerts[|alerts| - 1].at, clock);
    }
  }

  lemma {:induction false} AttachKeepsRows(alerts: seq<Alert>, i: nat, a: Alert, hour: int)
    requires i < |alerts| && a.at == alerts[i].at && a.overflow == alerts[i].overflow
    ensures OrdinaryIn(alerts[i := a], hour) == OrdinaryIn(alerts, hour)
    ensures OverflowIn(alerts[i := a], hour) == OverflowIn(alerts, hour)
  {
    var n := |alerts| - 1;
    if i < n {
      assert alerts[i := a][..n] == alerts[..n][i := a];
      AttachKeepsRows(alerts[..n], i, a, hour);
    } else {
      assert alerts[i := a][..n] == alerts[..n];
    }
  }

  /** What one signal does to the rows of any hour, when its stamp falls in the hour it counted. */
  lemma PromptRaise(alerts: seq<Alert>, s: Signal, hour: int)
    requires NotAfter(alerts, s.clock) && s.stamp <= s.clock && HourOf(s.stamp) == HourOf(s.clock)
    ensures var after := Raise(alerts, s);
            var full := OrdinaryIn(alerts, hour) >= HOURLY_CAP;
            var here := hour == HourOf(s.clock);
            && OrdinaryIn(after, hour) == OrdinaryIn(alerts, hour) + (if here && !full then 1 else 0)
            && OverflowIn(after, hour) == OverflowIn(alerts, hour) + (if here && full && OverflowIn(alerts, hour) == 0 then 1 else 0)
            && SignalsIn(after, hour) == SignalsIn(alerts, hour) + (if here then 1 else 0)
            && NotAfter(after, s.clock)
  {
    var after := Raise(alerts, s);
    SinceIsIn(alerts, s.clock);
    if |after| > |alerts| {
      assert after[..|alerts|] == alerts;
    } else {
      var k := FirstOverflow(alerts, HourOf(s.clock)).value;
      var a := after[k];
      assert alerts[k].at >= HourOf(s.clock);
      assert HourOf(alerts[k].at) == HourOf(s.clock);
      AttachKeepsRows(alerts, k, a, hour);
      TotalUpdate(alerts, k, a);
    }
  }

  function Copies<T>(n: nat, x: T): (xs: seq<T>)
    ensures |xs| == n
  {
    if n == 0 then [] else Copies(n - 1, x) + [x]
  }

  lemma CopiesSnoc<T>(x: T, n: nat)
    requires n > 0
    ensures Copies(n, x)[..n - 1] == Copies(n - 1, x) && Copies(n, x)[n - 1] == x
  {
  }

  lemma {:induction false} CopiesCount(a: Alert, n: nat, hour: int)
    ensures var copies := Copies(n, a);
            && OrdinaryIn(copies, hour) == (if !a.overflow && HourOf(a.at) == hour then n else 0)
            && OrdinarySince(copies, hour) == (if !a.overflow && a.at >= hour then n else 0)
            && OverflowIn(copies, hour) == (if a.overflow && HourOf(a.at) == hour then n else 0)
    decreases n
  {
    hide HourOf, Copies;
    if n > 0 {
      CopiesSnoc(a, n);
      CopiesCount(a, n - 1, hour);
    }
  }

  /** Rows of an hour that is not over at `since` are among the rows since then. */
  lemma {:induction false} InIsSince(alerts: seq<Alert>, since: int, hour: int)
    requires since <= hour
    ensures OrdinaryIn(alerts, hour) <= OrdinarySince(alerts, since)
    ensures FirstOverflow(alerts, since).None? ==> OverflowIn(alerts, hour) == 0
  {
    if alerts != [] {
      var last := alerts[|alerts| - 1];
      InIsSince(alerts[..|alerts| - 1], since, hour);
      assert HourOf(last.at) == hour ==> last.at >= hour;
    }
  }

  /** A signal stamped no earlier than the hour it counts respects the cap in every hour. */
  lemma NoEarlierRaise(alerts: seq<Alert>, s: Signal, hour: int)
    requires HourOf(s.clock) <= HourOf(s.stamp) && CappedIn(alerts, hour)
    ensures CappedIn(Raise(alerts, s), hour)
  {
    var after := Raise(alerts, s);
    if |after| > |alerts| {
      assert after[..|alerts|] == alerts;
      InIsSince(alerts, HourOf(s.clock), HourOf(s.stamp));
    } else {
      var k := FirstOverflow(alerts, HourOf(s.clock)).value;
      AttachKeepsRows(alerts, k, after[k], hour);
    }
  }

  /**
   Exactly when one call is sure to respect the cap, for a transaction that began at `stamp`
   and a clock reading `clock`, whichever of the two clocks is ahead: the stamp must not lie in
   an hour before the one that is counted. A caller can check this before the call.
   */
  lemma CapKeptIff(clock: int, stamp: int, evidence: seq<nat>)
    ensures (forall alerts: seq<Alert> | Capped(alerts) :: Capped(Raise(alerts, Signal(clock, stamp, evidence))))
            <==> clock / 3600 <= stamp / 3600
  {
    assert HourOf(clock) == 3600 * (clock / 3600) && HourOf(stamp) == 3600 * (stamp / 3600);
    var s := Signal(clock, stamp, evidence);
    if HourOf(clock) <= HourOf(stamp) {
      forall alerts: seq<Alert> | Capped(alerts)
        ensures Capped(Raise(alerts, s))
      {
        forall hour
          ensures CappedIn(Raise(alerts, s), hour)
        {
          assert CappedIn(alerts, hour);
          NoEarlierRaise(alerts, s, hour);
        }
      }
    } else {
      FullHourOverflows(s);
    }
  }

  /** Twenty alerts in the hour of the stamp, none in the later hour that is counted: one more is let in. */
  lemma FullHourOverflows(s: Signal)
    requires HourOf(s.stamp) < HourOf(s.clock)
    ensures exists alerts: seq<Alert> :: Capped(alerts) && NotAfter(alerts, s.clock) && !Capped(Raise(alerts, s))
  {
    var a := Alert(s.stamp, false, 0, []);
    var full := Copies(HOURLY_CAP, a);
    forall hour
      ensures CappedIn(full, hour)
    {
      CopiesCount(a, HOURLY_CAP, hour);
    }
    EarlierHour(s.stamp, s.clock);
    CopiesAre(HOURLY_CAP, a);
    CopiesCount(a, HOURLY_CAP, HourOf(s.clock));
    CopiesCount(a, HOURLY_CAP, HourOf(s.stamp));
    var after := Raise(full, s);
    assert after[..HOURLY_CAP] == full;
    assert !CappedIn(after, HourOf(s.stamp));
    forall i | 0 <= i < |full|
      ensures full[i].at <= s.clock
    {
      assert full[i] in full;
    }
    assert Capped(full) && NotAfter(full, s.clock);
  }

  lemma {:induction false} CopiesAre<T>(n: nat, x: T)
    ensures forall y | y in Copies(n, x) :: y == x
  {
    if n > 0 {
      CopiesAre(n - 1, x);
    }
  }

  lemma EarlierHour(stamp: int, clock: int)
    requires HourOf(stamp) < HourOf(clock)
    ensures stamp < HourOf(clock)
  {
    assert stamp < HourOf(stamp) + HOUR;
    assert HourOf(stamp) == HOUR * (stamp / HOUR) && HourOf(clock) == HOUR * (clock / HOUR);
    assert stamp / HOUR + 1 <= clock / HOUR;
  }

  lemma LateRaise(alerts: seq<Alert>, s: Signal)
    requires s.stamp < HourOf(s.clock) && OrdinarySince(alerts, HourOf(s.clock)) == 0
    ensures OrdinarySince(Raise(alerts, s), HourOf(s.clock)) == 0
    ensures OrdinaryIn(Raise(alerts, s), HourOf(s.stamp)) == OrdinaryIn(alerts, HourOf(s.stamp)) + 1
  {
    var after := Raise(alerts, s);
    assert after == alerts + [Alert(s.stamp, false, 0, Distinct(s.evidence))];
    assert after[..|alerts|] == alerts;
  }

  /**
   How far the cap can be missed: a transaction that began in an earlier hour than it raises
   its alerts in stamps any number of ordinary alerts into that earlier hour.
   */
  lemma {:induction false} LateTransactionPassesCap(n: nat, s: Signal)
    requires HourOf(s.stamp) < HourOf(s.clock)
    ensures OrdinaryIn(RaiseAll(Copies(n, s)), HourOf(s.stamp)) == n
    ensures OrdinarySince(RaiseAll(Copies(n, s)), HourOf(s.clock)) == 0
  {
    hide Raise, HourOf, OrdinaryIn, OrdinarySince, RaiseAll;
    if n == 0 {
      NothingRaised(0, HourOf(s.stamp));
      NothingRaised(0, HourOf(s.clock));
    } else {
      var signals := Copies(n, s);
      assert signals[..|signals| - 1] == Copies(n - 1, s);
      RaiseAllNext(signals);
      LateTransactionPassesCap(n - 1, s);
      EarlierHour(s.stamp, s.clock);
      LateRaise(RaiseAll(Copies(n - 1, s)), s);
    }
  }

  // ---------------------------------------------------------------- prompt histories

  /** The case lock orders the calls; each is prompt and the clock does not run backwards. */
  ghost predicate Prompt(signals: seq<Signal>) {
    && (forall i | 0 <= i < |signals| :: signals[i].stamp <= signals[i].clock && HourOf(signals[i].stamp) == HourOf(signals[i].clock))
    && (forall i, j | 0 <= i < j < |signals| :: signals[i].clock <= signals[j].clock)
  }

  function RaisedIn(signals: seq<Signal>, hour: int): nat {
    if signals == [] then 0
    else RaisedIn(signals[..|signals| - 1], hour) + if HourOf(signals[|signals| - 1].clock) == hour then 1 else 0
  }

  /**
   Every prompt history leaves in each clock hour min(20, n) ordinary alerts for the n signals
   raised in it, one OVERFLOW row exactly when there were more than twenty, and rows that
   together stand for all n.
   */
  lemma {:induction false} PromptHistory(signals: seq<Signal>, hour: int)
    requires Prompt(signals)
    ensures var alerts := RaiseAll(signals);
            var n := RaisedIn(signals, hour);
            && OrdinaryIn(alerts, hour) == (if n <= 20 then n else 20)
            && OverflowIn(alerts, hour) == (if n <= 20 then 0 else 1)
            && SignalsIn(alerts, hour) == n
    ensures signals != [] ==> NotAfter(RaiseAll(signals), signals[|signals| - 1].clock)
    decreases |signals|
  {
    if signals != [] {
      var n := |signals| - 1;
      PromptHistory(signals[..n], hour);
      PromptRaise(RaiseAll(signals[..n]), signals[n], hour);
    }
  }

  // ---------------------------------------------------------------- the service

  class CaseAlerts {
    var alerts: seq<Alert>

    constructor ()
      ensures alerts == []
    {
      alerts := [];
    }

    /** `open` and `known` are the case's status and evidence rows, read under the case lock. */
    method RaiseAlert(s: Signal, open: bool, known: set<nat>) returns (result: Result<nat, Refusal>)
      modifies this
      ensures !open ==> result == Err(Conflict)
      ensures open && (exists e | e in s.evidence :: e !in known) ==> result == Err(Validation)
      ensures open && (forall e | e in s.evidence :: e in known) ==> result.Ok?
      ensures result.Err? ==> alerts == old(alerts)
      ensures result.Ok? ==> alerts == Raise(old(alerts), s) && result.value < |alerts|
                             && forall e | e in s.evidence :: e in alerts[result.value].evidence
    {
      if !open {
        return Err(Conflict);
      }
      if exists k | 0 <= k < |s.evidence| :: s.evidence[k] !in known {
        return Err(Validation);
      }
      var hour := HourOf(s.clock);
      var total := 0;
      for i := 0 to |alerts|
        invariant total == OrdinarySince(alerts[..i], hour)
      {
        assert alerts[..i + 1][..i] == alerts[..i];
        if !alerts[i].overflow && alerts[i].at >= hour {
          total := total + 1;
        }
      }
      assert alerts[..|alerts|] == alerts;
      var overflow, count := false, 0;
      if total >= HOURLY_CAP {
        var row := FirstOverflow(alerts, hour);
        if row.Some? {
          var a := alerts[row.value];
          alerts := alerts[row.value := a.(evidence := Distinct(a.evidence + s.evidence), count := a.count + 1)];
          return Ok(row.value);
        }
        overflow, count := true, 1;
      }
      alerts := alerts + [Alert(s.stamp, overflow, count, Distinct(s.evidence))];
      result := Ok(|alerts| - 1);
    }
  }
}

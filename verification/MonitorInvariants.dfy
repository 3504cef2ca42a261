/** What every step of a monitored case keeps. */
module MonitorInvariants {
  import opened Common
  import Alerts
  import opened Monitor

  // ---------------------------------------------------------------- counting

  lemma HitsSnoc(hits: seq<Hit>, h: Hit, r: nat)
    ensures HitsOf(hits + [h], r) == HitsOf(hits, r) + if h.run == r then 1 else 0
    ensures Alerting(hits + [h]) == Alerting(hits) + if h.alert.Some? then 1 else 0
  {
    assert (hits + [h])[..|hits|] == hits;
  }

  lemma {:induction false} NoHits(hits: seq<Hit>, r: nat)
    requires forall h | 0 <= h < |hits| :: hits[h].run != r
    ensures HitsOf(hits, r) == 0
  {
    if hits != [] {
      NoHits(hits[..|hits| - 1], r);
    }
  }

  lemma {:induction false} HitsOfZero(hits: seq<Hit>, r: nat, h: nat)
    requires HitsOf(hits, r) == 0 && h < |hits|
    ensures hits[h].run != r
  {
    if h < |hits| - 1 {
      HitsOfZero(hits[..|hits| - 1], r, h);
    }
  }

  lemma {:induction false} AlarmsUpdate(runs: seq<Run>, r: nat, run: Run)
    requires r < |runs|
    ensures Alarms(runs[r := run]) == Alarms(runs) - runs[r].alarms + run.alarms
  {
    var n := |runs| - 1;
    if r < n {
      assert runs[r := run][..n] == runs[..n][r := run];
      AlarmsUpdate(runs[..n], r, run);
    } else {
      assert runs[r := run][..n] == runs[..n];
    }
  }

  lemma RaiseGrows(alerts: seq<Alerts.Alert>, s: Alerts.Signal)
    ensures var after := Alerts.Raise(alerts, s);
            && |alerts| <= |after|
            && (forall k, e | 0 <= k < |alerts| && e in alerts[k].evidence :: e in after[k].evidence)
            && AlertRow(alerts, s) < |after|
            && (forall e | e in s.evidence :: e in after[AlertRow(alerts, s)].evidence)
  {
  }

  // ---------------------------------------------------------------- the publishing transaction

  lemma TakeKeeps(t: Tables, r: nat, f: Found, began: int, now: int)
    requires TablesOk(t) && r < |t.runs|
    ensures TablesOk(Take(t, r, f, began, now))
  {
    if !Known(t.hits, t.runs[r].item, f.hash) {
      var t' := Take(t, r, f, began, now);
      var s := Signal(f, began, now);
      var hit := t'.hits[|t.hits|];
      RaiseGrows(t.alerts, s);
      Alerts.RaiseCounts(t.alerts, s);
      HitsSnoc(t.hits, hit, r);
      AlarmsUpdate(t.runs, r, t'.runs[r]);
      TakeRows(t, r, f, began, now);
    }
  }

  lemma TakeRows(t: Tables, r: nat, f: Found, began: int, now: int)
    requires TablesOk(t) && r < |t.runs| && !Known(t.hits, t.runs[r].item, f.hash)
    ensures var t' := Take(t, r, f, began, now);
            && (forall q | 0 <= q < |t'.runs| :: RunOk(t', q))
            && (forall h | 0 <= h < |t'.hits| :: HitOk(t', h))
            && (forall g, h | 0 <= g < h < |t'.hits| :: Differ(t'.hits[g], t'.hits[h]))
  {
    var t' := Take(t, r, f, began, now);
    RaiseGrows(t.alerts, Signal(f, began, now));
    forall q | 0 <= q < |t'.runs|
      ensures RunOk(t', q)
    {
      assert RunOk(t, q);
      HitsSnoc(t.hits, t'.hits[|t.hits|], q);
    }
    forall h | 0 <= h < |t'.hits|
      ensures HitOk(t', h)
    {
      assert h < |t.hits| ==> HitOk(t, h);
    }
    forall g, h | 0 <= g < h < |t'.hits|
      ensures Differ(t'.hits[g], t'.hits[h])
    {
      assert h < |t.hits| ==> Differ(t.hits[g], t.hits[h]);
    }
  }

  lemma AlarmKeeps(t: Tables, r: nat, began: int, now: int)
    requires TablesOk(t) && r < |t.runs|
    ensures TablesOk(Alarm(t, r, began, now))
  {
    var t' := Alarm(t, r, began, now);
    var s := Alerts.Signal(now, began, []);
    RaiseGrows(t.alerts, s);
    Alerts.RaiseCounts(t.alerts, s);
    AlarmsUpdate(t.runs, r, t'.runs[r]);
    forall q | 0 <= q < |t'.runs|
      ensures RunOk(t', q)
    {
      assert RunOk(t, q);
    }
    forall h | 0 <= h < |t'.hits|
      ensures HitOk(t', h)
    {
      assert HitOk(t, h);
    }
  }

  /** Closing or reclassifying a row leaves the counts as they were. */
  lemma CloseKeeps(t: Tables, r: nat, run: Run)
    requires TablesOk(t) && r < |t.runs|
    requires run.item == t.runs[r].item && run.newHits == t.runs[r].newHits && run.alarms == t.runs[r].alarms
    requires run.startedAt == t.runs[r].startedAt && run.status != Running && run.finishedAt.Some?
    requires run.interrupted ==> run.status == Error
    ensures TablesOk(t.(runs := t.runs[r := run]))
  {
    var t' := t.(runs := t.runs[r := run]);
    AlarmsUpdate(t.runs, r, run);
    forall q | 0 <= q < |t'.runs|
      ensures RunOk(t', q)
    {
      assert RunOk(t, q);
    }
    forall h | 0 <= h < |t'.hits|
      ensures HitOk(t', h)
    {
      assert HitOk(t, h);
    }
  }

  lemma OpenKeeps(t: Tables, run: Run)
    requires TablesOk(t) && run.status == Running && run.finishedAt.None? && run.newHits == 0 && run.alarms == 0 && !run.interrupted
    ensures TablesOk(t.(runs := t.runs + [run]))
  {
    var t' := t.(runs := t.runs + [run]);
    assert t'.runs[..|t.runs|] == t.runs;
    forall q | 0 <= q < |t'.runs|
      ensures RunOk(t', q)
    {
      if q < |t.runs| {
        assert RunOk(t, q);
      } else {
        forall h | 0 <= h < |t.hits|
          ensures t.hits[h].run != q
        {
          assert HitOk(t, h);
        }
        NoHits(t.hits, q);
      }
    }
    forall h | 0 <= h < |t'.hits|
      ensures HitOk(t', h)
    {
      assert HitOk(t, h);
    }
  }

  // ---------------------------------------------------------------- steps

  lemma BeginKeeps(w: World, item: nat, allowed: bool, now: int)
    requires Inv(w)
    ensures Inv(Next(w, Begin(item, allowed, now)))
  {
    var w' := Next(w, Begin(item, allowed, now));
    if w' != w {
      OpenKeeps(w.db, w'.db.runs[|w.db.runs|]);
      forall i | i in w'.attempts
        ensures AttemptOk(w', i)
      {
        assert i != item ==> AttemptOk(w, i);
      }
      forall i | 0 <= i < |w'.items|
        ensures ItemOk(w', i)
      {
        assert ItemOk(w, i);
      }
      forall r | 0 <= r < |w'.db.runs|
        ensures Homed(w', r)
      {
        assert r < |w.db.runs| ==> Homed(w, r);
      }
    }
  }

  /** Steps that only touch the attempts' private views. */
  lemma PrivateKeeps(w: World, attempts: map<nat, Attempt>)
    requires Inv(w)
    requires OnePublisher(attempts)
    requires forall i | i in attempts :: AttemptOk(w.(attempts := attempts), i)
    ensures Inv(w.(attempts := attempts))
  {
    var w' := w.(attempts := attempts);
    forall i | i in attempts
      ensures AttemptOk(w', i)
    {
      assert AttemptOk(w.(attempts := attempts), i);
    }
    forall i | 0 <= i < |w.items|
      ensures ItemOk(w', i)
    {
      assert ItemOk(w, i);
    }
    forall r | 0 <= r < |w.db.runs|
      ensures Homed(w', r)
    {
      assert Homed(w, r);
    }
  }

  lemma DropKeeps(w: World, attempts: map<nat, Attempt>)
    requires Inv(w)
    requires forall i | i in attempts :: i in w.attempts && attempts[i] == w.attempts[i]
    ensures Inv(w.(attempts := attempts))
  {
    forall i | i in attempts
      ensures AttemptOk(w.(attempts := attempts), i)
    {
      assert AttemptOk(w, i);
    }
    PrivateKeeps(w, attempts);
  }

  lemma SetAttemptKeeps(w: World, item: nat, a: Attempt)
    requires Inv(w) && item in w.attempts
    requires AttemptOk(w.(attempts := w.attempts[item := a]), item)
    requires w.attempts[item].Publishing? || CaseFree(w)
    ensures Inv(w.(attempts := w.attempts[item := a]))
  {
    forall i | i in w.attempts
      ensures AttemptOk(w.(attempts := w.attempts[item := a]), i)
    {
      assert AttemptOk(w, i);
    }
    PrivateKeeps(w, w.attempts[item := a]);
  }

  lemma CollectedKeeps(w: World, item: nat)
    requires Inv(w)
    ensures Inv(Next(w, Collected(item)))
  {
    if item in w.attempts && CaseFree(w) {
      assert AttemptOk(w, item);
      var a := w.attempts[item];
      assert LocalOk(w.db, a.run, w.db);
      SetAttemptKeeps(w, item, Publishing(a.run, a.began, w.db));
    }
  }

  lemma AttemptIn(w: World, item: nat)
    requires Inv(w) && item in w.attempts
    ensures AttemptOk(w, item)
  {
  }

  /** The publishing transaction may replace its view by any consistent one. */
  lemma ViewKeeps(w: World, item: nat, local: Tables)
    requires Inv(w) && item in w.attempts && w.attempts[item].Publishing?
    requires w.attempts[item].run < |w.db.runs| && LocalOk(w.db, w.attempts[item].run, local)
    ensures Inv(w.(attempts := w.attempts[item := w.attempts[item].(local := local)]))
  {
    hide Inv, LocalOk;
    AttemptIn(w, item);
    SetAttemptKeeps(w, item, w.attempts[item].(local := local));
  }

  lemma TakeKeepsLocal(db: Tables, r: nat, local: Tables, f: Found, began: int, now: int)
    requires r < |db.runs| && LocalOk(db, r, local)
    ensures LocalOk(db, r, Take(local, r, f, began, now))
  {
    hide TablesOk, Known, Signal, AlertRow;
    TakeKeeps(local, r, f, began, now);
  }

  lemma AlarmKeepsLocal(db: Tables, r: nat, local: Tables, began: int, now: int)
    requires r < |db.runs| && LocalOk(db, r, local)
    ensures LocalOk(db, r, Alarm(local, r, began, now))
  {
    hide TablesOk;
    AlarmKeeps(local, r, began, now);
  }

  lemma TakeHitKeeps(w: World, item: nat, f: Found, now: int)
    requires Inv(w)
    ensures Inv(Next(w, TakeHit(item, f, now)))
  {
    hide Inv, LocalOk, Take;
    if MayPublish(w, item) {
      AttemptIn(w, item);
      var a := w.attempts[item];
      TakeKeepsLocal(w.db, a.run, a.local, f, a.began, now);
      ViewKeeps(w, item, Take(a.local, a.run, f, a.began, now));
    }
  }

  lemma RaiseAlarmKeeps(w: World, item: nat, now: int)
    requires Inv(w)
    ensures Inv(Next(w, RaiseAlarm(item, now)))
  {
    hide Inv, LocalOk, Alarm;
    if MayPublish(w, item) {
      AttemptIn(w, item);
      var a := w.attempts[item];
      AlarmKeepsLocal(w.db, a.run, a.local, a.began, now);
      ViewKeeps(w, item, Alarm(a.local, a.run, a.began, now));
    }
  }

  lemma OutsideKeeps(w: World, evidence: seq<nat>, began: int, now: int)
    requires Inv(w)
    ensures Inv(Next(w, Outside(evidence, began, now)))
  {
    if CaseFree(w) {
      var w' := Next(w, Outside(evidence, began, now));
      OutsideTables(w.db, evidence, began, now);
      forall i | i in w'.attempts
        ensures AttemptOk(w', i)
      {
        assert AttemptOk(w, i);
      }
      forall i | 0 <= i < |w'.items|
        ensures ItemOk(w', i)
      {
        assert ItemOk(w, i);
      }
      forall r | 0 <= r < |w'.db.runs|
        ensures Homed(w', r)
      {
        assert Homed(w, r);
      }
    }
  }

  /** An outside signal may join a row that stands for hits; the hits' evidence stays on it. */
  lemma OutsideTables(t: Tables, evidence: seq<nat>, began: int, now: int)
    requires TablesOk(t) && Bare(t)
    ensures TablesOk(RaiseOutside(t, evidence, began, now)) && Bare(RaiseOutside(t, evidence, began, now))
  {
    var t' := RaiseOutside(t, evidence, began, now);
    var s := Alerts.Signal(now, began, evidence);
    RaiseGrows(t.alerts, s);
    Alerts.RaiseCounts(t.alerts, s);
    forall r | 0 <= r < |t'.runs|
      ensures RunOk(t', r)
    {
      assert RunOk(t, r);
    }
    forall h | 0 <= h < |t'.hits|
      ensures HitOk(t', h)
    {
      assert HitOk(t, h);
    }
  }

  lemma CommitKeeps(w: World, item: nat, done: nat, errors: seq<Code>, now: int)
    requires Inv(w)
    ensures Inv(Next(w, Commit(item, done, errors, now)))
  {
    if MayPublish(w, item) && item < |w.items| {
      var w' := Next(w, Commit(item, done, errors, now));
      assert AttemptOk(w, item);
      var a := w.attempts[item];
      assert Homed(w, a.run) && RunOk(w.db, a.run);
      CloseKeeps(a.local, a.run, w'.db.runs[a.run]);
      forall i | i in w'.attempts
        ensures AttemptOk(w', i)
      {
        assert AttemptOk(w, i);
      }
      forall i | 0 <= i < |w'.items|
        ensures ItemOk(w', i)
      {
        assert ItemOk(w, i);
      }
      forall r | 0 <= r < |w'.db.runs|
        ensures Homed(w', r)
      {
        assert Homed(w, r) && RunOk(w.db, r);
      }
    }
  }

  lemma InterruptKeeps(w: World, r: nat, now: int)
    requires Inv(w)
    ensures Inv(TryInterrupt(w, r, now))
  {
    var w' := TryInterrupt(w, r, now);
    if w' != w {
      assert Homed(w, r) && RunOk(w.db, r);
      CloseKeeps(w.db, r, w'.db.runs[r]);
      forall i | i in w'.attempts
        ensures AttemptOk(w', i)
      {
        assert AttemptOk(w, i);
      }
      forall i | 0 <= i < |w'.items|
        ensures ItemOk(w', i)
      {
        assert ItemOk(w, i);
      }
      forall q | 0 <= q < |w'.db.runs|
        ensures Homed(w', q)
      {
        assert Homed(w, q);
      }
    }
  }

  lemma {:induction false} RecoverKeeps(w: World, candidates: seq<Closing>)
    requires Inv(w)
    ensures Inv(InterruptAll(w, candidates))
  {
    if candidates != [] {
      var n := |candidates| - 1;
      RecoverKeeps(w, candidates[..n]);
      InterruptKeeps(InterruptAll(w, candidates[..n]), candidates[n].run, candidates[n].now);
    }
  }

  lemma StepKeeps(w: World, s: Step)
    requires Inv(w)
    ensures Inv(Next(w, s))
  {
    match s
    case Begin(item, allowed, now) => BeginKeeps(w, item, allowed, now);
    case Collected(item) => CollectedKeeps(w, item);
    case TakeHit(item, found, now) => TakeHitKeeps(w, item, found, now);
    case RaiseAlarm(item, now) => RaiseAlarmKeeps(w, item, now);
    case Outside(evidence, began, now) => OutsideKeeps(w, evidence, began, now);
    case Commit(item, done, errors, now) => CommitKeeps(w, item, done, errors, now);
    case Fail(item) => DropKeeps(w, w.attempts - {item});
    case Crash => DropKeeps(w, map[]);
    case Interrupt(run, now) => InterruptKeeps(w, run, now);
    case Recover(candidates, before) => RecoverKeeps(w, candidates);
  }

  lemma {:induction false} ReachableInv(items: nat, steps: seq<Step>)
    ensures Inv(After(Fresh(items), steps))
    decreases |steps|
  {
    if steps != [] {
      ReachableInv(items, steps[..|steps| - 1]);
      StepKeeps(After(Fresh(items), steps[..|steps| - 1]), steps[|steps| - 1]);
    }
  }

  // ---------------------------------------------------------------- starting, and signals from outside

  /** An attempt starts exactly for a known, allowed item that nobody works on, while nobody publishes; its row is RUNNING and empty. */
  lemma BeginsIff(w: World, item: nat, allowed: bool, now: int)
    ensures var w' := Next(w, Begin(item, allowed, now));
            if item < |w.items| && allowed && item !in w.attempts && (forall i | i in w.attempts :: w.attempts[i].Collecting?) then
              && w'.db.runs == w.db.runs + [Run(item, Running, now, None, 0, 0, false)]
              && w'.attempts == w.attempts[item := Collecting(|w.db.runs|, now)]
              && w'.items == w.items && w'.db.hits == w.db.hits && w'.db.alerts == w.db.alerts
            else w' == w
  {
  }

  /** A signal from outside is one more signal, and its evidence is on some alert. */
  lemma OutsideRaises(w: World, evidence: seq<nat>, began: int, now: int, e: nat)
    requires CaseFree(w)
    ensures var after := Next(w, Outside(evidence, began, now)).db.alerts;
            && Alerts.Total(after) == Alerts.Total(w.db.alerts) + 1
            && (Alerts.Mentions(after, e) <==> Alerts.Mentions(w.db.alerts, e) || e in evidence)
  {
    Alerts.RaiseCounts(w.db.alerts, Alerts.Signal(now, began, evidence));
    Alerts.RaiseMentions(w.db.alerts, Alerts.Signal(now, began, evidence), e);
  }

  // ---------------------------------------------------------------- all or nothing

  /** What the tables show of attempt r: its row, and its hits among all. */
  ghost predicate SameRun(before: Tables, after: Tables, r: nat)
    requires r < |before.runs|
  {
    r < |after.runs| && after.runs[r] == before.runs[r] && HitsOf(after.hits, r) == HitsOf(before.hits, r)
  }

  /**
   Hits and the alerts of attempts only appear with an attempt's commit. Any other step, a crash
   included, shows no hit and counts no alarm; it changes the alert rows only if it is a signal
   from outside every attempt, and then by that one signal.
   */
  lemma OnlyCommitPublishes(w: World, s: Step)
    requires !s.Commit?
    ensures var db, db' := w.db, Next(w, s).db;
            && db'.hits == db.hits && Alarms(db'.runs) == Alarms(db.runs)
            && (!s.Outside? ==> db'.alerts == db.alerts && db'.outside == db.outside)
            && (s.Outside? ==> db'.runs == db.runs && (db' == db || db' == RaiseOutside(db, s.evidence, s.began, s.now)))
  {
    if s.Begin? {
      assert (w.db.runs + [Run(s.item, Running, s.now, None, 0, 0, false)])[..|w.db.runs|] == w.db.runs;
    } else if s.Interrupt? {
      InterruptAlarms(w, s.run, s.now);
    }
    if s.Recover? && Lists(w, s.candidates, s.before) {
      InterruptAllRows(w, s.candidates);
    }
  }

  lemma InterruptAlarms(w: World, r: nat, now: int)
    ensures Alarms(TryInterrupt(w, r, now).db.runs) == Alarms(w.db.runs)
  {
    var w' := TryInterrupt(w, r, now);
    if w' != w {
      AlarmsUpdate(w.db.runs, r, w'.db.runs[r]);
    }
  }

  lemma {:induction false} InterruptAllRows(w: World, candidates: seq<Closing>)
    ensures var w' := InterruptAll(w, candidates);
            && w'.db == w.db.(runs := w'.db.runs) && w'.attempts == w.attempts && Alarms(w'.db.runs) == Alarms(w.db.runs)
            && |w'.db.runs| == |w.db.runs| && |w'.items| == |w.items|
  {
    if candidates != [] {
      var n := |candidates| - 1;
      InterruptAllRows(w, candidates[..n]);
      InterruptAlarms(InterruptAll(w, candidates[..n]), candidates[n].run, candidates[n].now);
    }
  }

  /**
   The commit shows everything the attempt collected at once: exactly the hits after the old
   ones, as many as its row says, and no other attempt changes.
   */
  lemma CommitPublishesAll(w: World, item: nat, done: nat, errors: seq<Code>, now: int)
    requires Inv(w) && MayPublish(w, item)
    ensures var w' := Next(w, Commit(item, done, errors, now));
            var r := w.attempts[item].run;
            && r < |w.db.runs| && w.db.runs[r].status == Running && HitsOf(w.db.hits, r) == 0
            && Published(w'.db.runs[r]) && w'.db.runs[r].newHits == HitsOf(w'.db.hits, r)
            && w'.db.hits == w.attempts[item].local.hits && w.db.hits <= w'.db.hits
            && w'.db.runs[r].newHits == |w'.db.hits| - |w.db.hits|
            && (forall q: nat | q < |w.db.runs| && q != r :: SameRun(w.db, w'.db, q))
  {
    assert AttemptOk(w, item);
    var a := w.attempts[item];
    assert RunOk(w.db, a.run) && RunOk(a.local, a.run);
    CountNew(w.db.hits, a.local.hits, a.run);
    forall q: nat | q < |w.db.runs| && q != a.run
      ensures HitsOf(a.local.hits, q) == HitsOf(w.db.hits, q)
    {
      assert RunOk(w.db, q) && RunOk(a.local, q);
      assert a.local.runs[q] == w.db.runs[q];
    }
  }

  lemma {:induction false} CountNew(hits: seq<Hit>, more: seq<Hit>, r: nat)
    requires hits <= more && forall h | |hits| <= h < |more| :: more[h].run == r
    ensures HitsOf(more, r) == HitsOf(hits, r) + |more| - |hits|
    decreases |more|
  {
    if |more| > |hits| {
      CountNew(hits, more[..|more| - 1], r);
    } else {
      assert more == hits;
    }
  }

  /** In every reachable state an attempt that is unfinished or was interrupted shows no hit at all. */
  lemma AllOrNothing(items: nat, steps: seq<Step>, r: nat)
    requires r < |After(Fresh(items), steps).db.runs|
    ensures var db := After(Fresh(items), steps).db;
            && db.runs[r].newHits == HitsOf(db.hits, r)
            && (!Published(db.runs[r]) ==> forall h | 0 <= h < |db.hits| :: db.hits[h].run != r)
  {
    ReachableInv(items, steps);
    var db := After(Fresh(items), steps).db;
    assert RunOk(db, r);
    if !Published(db.runs[r]) {
      forall h | 0 <= h < |db.hits|
        ensures db.hits[h].run != r
      {
        HitsOfZero(db.hits, r, h);
      }
    }
  }

  // ---------------------------------------------------------------- finished rows are final

  lemma FinishedStep(w: World, s: Step, r: nat)
    requires Inv(w) && r < |w.db.runs| && w.db.runs[r].status != Running
    ensures SameRun(w.db, Next(w, s).db, r)
  {
    if s.Commit? {
      if MayPublish(w, s.item) && s.item < |w.items| {
        assert AttemptOk(w, s.item);
        CommitPublishesAll(w, s.item, s.done, s.errors, s.now);
      }
    } else {
      OnlyCommitPublishes(w, s);
      if s.Recover? {
        FinishedRecover(w, s.candidates, r);
      }
    }
  }

  lemma {:induction false} FinishedRecover(w: World, candidates: seq<Closing>, r: nat)
    requires r < |w.db.runs| && w.db.runs[r].status != Running
    ensures r < |InterruptAll(w, candidates).db.runs|
    ensures InterruptAll(w, candidates).db.runs[r] == w.db.runs[r]
  {
    if candidates != [] {
      FinishedRecover(w, candidates[..|candidates| - 1], r);
    }
  }

  /** No terminal row ever changes, nor do its hits, whatever happens afterwards. */
  lemma {:induction false} FinishedIsFinal(w: World, steps: seq<Step>, r: nat)
    requires Inv(w) && r < |w.db.runs| && w.db.runs[r].status != Running
    ensures Inv(After(w, steps)) && SameRun(w.db, After(w, steps).db, r)
    decreases |steps|
  {
    if steps != [] {
      var n := |steps| - 1;
      FinishedIsFinal(w, steps[..n], r);
      StepKeeps(After(w, steps[..n]), steps[n]);
      FinishedStep(After(w, steps[..n]), steps[n], r);
    }
  }

  // ---------------------------------------------------------------- recovery

  function ClosedRow(run: Run, now: int): Run {
    run.(status := Error, finishedAt := Some(now), interrupted := true)
  }

  /** The place of row r among the candidates, if it has one. */
  predicate NamedAt(candidates: seq<Closing>, k: nat, r: nat) {
    k < |candidates| && candidates[k].run == r
  }

  lemma {:induction false} UnnamedRow(w: World, candidates: seq<Closing>, r: nat)
    requires r < |w.db.runs| && forall k | 0 <= k < |candidates| :: candidates[k].run != r
    ensures r < |InterruptAll(w, candidates).db.runs| && InterruptAll(w, candidates).db.runs[r] == w.db.runs[r]
  {
    if candidates != [] {
      var n := |candidates| - 1;
      UnnamedRow(w, candidates[..n], r);
    }
  }

  /** A candidate's row is closed with its own reading exactly when it is RUNNING and its item is not locked. */
  lemma {:induction false} NamedRow(w: World, candidates: seq<Closing>, k: nat)
    requires CaseFree(w) && k < |candidates| && candidates[k].run < |w.db.runs|
    requires w.db.runs[candidates[k].run].item < |w.items|
    requires forall i, j | 0 <= i < j < |candidates| :: candidates[i].run != candidates[j].run
    ensures var r := candidates[k].run;
            var row := w.db.runs[r];
            && r < |InterruptAll(w, candidates).db.runs|
            && InterruptAll(w, candidates).db.runs[r]
               == if row.status == Running && row.item !in w.attempts then ClosedRow(row, candidates[k].now) else row
  {
    hide TryInterrupt;
    var n := |candidates| - 1;
    var before, r := InterruptAll(w, candidates[..n]), candidates[k].run;
    InterruptAllRows(w, candidates[..n]);
    if k < n {
      assert candidates[..n][k] == candidates[k];
      NamedRow(w, candidates[..n], k);
    } else {
      UnnamedRow(w, candidates[..n], r);
    }
    InterruptedRow(before, candidates[n], r);
  }

  lemma InterruptedRow(w: World, c: Closing, r: nat)
    requires CaseFree(w) && r < |w.db.runs| && w.db.runs[r].item < |w.items|
    ensures var row, after := w.db.runs[r], TryInterrupt(w, c.run, c.now).db.runs;
            && |after| == |w.db.runs|
            && after[r] == if c.run == r && row.status == Running && row.item !in w.attempts then ClosedRow(row, c.now) else row
  {
  }

  /**
   Recovery, whatever the order of its rows and whatever its clock readings, makes ERROR exactly
   the RUNNING rows started by `before` whose item is not locked by a live attempt, and leaves
   every other row alone.
   */
  lemma RecoverExactly(w: World, candidates: seq<Closing>, before: int, r: nat)
    requires Inv(w) && CaseFree(w) && Lists(w, candidates, before) && r < |w.db.runs|
    ensures var row, after := w.db.runs[r], Next(w, Recover(candidates, before)).db.runs;
            && r < |after|
            && (Stale(w, r, before) && row.item !in w.attempts ==>
                  exists k: nat :: NamedAt(candidates, k, r) && after[r] == ClosedRow(row, candidates[k].now))
            && (!(Stale(w, r, before) && row.item !in w.attempts) ==> after[r] == row)
  {
    assert Homed(w, r);
    if Names(candidates, r) {
      var k :| 0 <= k < |candidates| && candidates[k].run == r;
      NamedRow(w, candidates, k);
      assert NamedAt(candidates, k, r);
    } else {
      UnnamedRow(w, candidates, r);
    }
  }

  /** At startup nothing is live: after a crash, recovery leaves no RUNNING row that was started by `before`. */
  lemma StartupClosesAll(w: World, candidates: seq<Closing>, before: int, r: nat)
    requires Inv(w) && r < |w.db.runs| && w.db.runs[r].startedAt <= before
    requires Lists(Next(w, Crash), candidates, before)
    ensures r < |Next(Next(w, Crash), Recover(candidates, before)).db.runs|
    ensures Next(Next(w, Crash), Recover(candidates, before)).db.runs[r].status != Running
  {
    StepKeeps(w, Crash);
    RecoverExactly(Next(w, Crash), candidates, before, r);
  }

  /** No content is stored twice for one item; a hit has an alert iff triage called for one, and its evidence is on it. */
  lemma HitsAreDistinct(items: nat, steps: seq<Step>, g: nat, h: nat)
    requires g < h < |After(Fresh(items), steps).db.hits|
    ensures var db := After(Fresh(items), steps).db;
            && (db.hits[g].item != db.hits[h].item || db.hits[g].hash != db.hits[h].hash)
            && (db.hits[h].alert.Some? <==> db.hits[h].alertable)
            && (db.hits[h].alert.Some? ==> db.hits[h].alert.value < |db.alerts|
                                           && db.hits[h].evidence in db.alerts[db.hits[h].alert.value].evidence)
            && Alerts.Total(db.alerts) == Alerting(db.hits) + Alarms(db.runs) + db.outside
  {
    ReachableInv(items, steps);
    var db := After(Fresh(items), steps).db;
    assert Differ(db.hits[g], db.hits[h]) && HitOk(db, h);
  }
}

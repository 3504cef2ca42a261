/** The publishing loop of one attempt and the recovery loop, as they run over the case's rows. */
module MonitorRunner {
  import opened Common
  import Alerts
  import opened Monitor
  import opened MonitorInvariants

  /** A stored result, the time it is handled, and whether the case still allows its source class. */
  datatype Result = Result(found: Found, allowed: bool, at: int)

  /** What one source brought: results, or an error that may raise an alert. */
  datatype Source = Stored(results: seq<Result>) | Failing(code: Code, alarm: Option<int>)

  // ---------------------------------------------------------------- specification

  function TakeAll(t: Tables, r: nat, results: seq<Result>, began: int): (t': Tables)
    requires r < |t.runs|
    ensures |t'.runs| == |t.runs|
  {
    if results == [] then t
    else
      var before := TakeAll(t, r, results[..|results| - 1], began);
      var last := results[|results| - 1];
      if last.allowed then Take(before, r, last.found, began, last.at) else before
  }

  function TakeSource(t: Tables, r: nat, source: Source, began: int): (t': Tables)
    requires r < |t.runs|
    ensures |t'.runs| == |t.runs|
  {
    match source
    case Stored(results) => TakeAll(t, r, results, began)
    case Failing(code, alarm) => if alarm.Some? then Alarm(t, r, began, alarm.value) else t
  }

  function TakeSources(t: Tables, r: nat, sources: seq<Source>, began: int): (t': Tables)
    requires r < |t.runs|
    ensures |t'.runs| == |t.runs|
  {
    if sources == [] then t
    else TakeSource(TakeSources(t, r, sources[..|sources| - 1], began), r, sources[|sources| - 1], began)
  }

  /** A source ends in error when it failed or brought a result its case no longer allows. */
  function ErrorOf(source: Source): Option<Code> {
    match source
    case Stored(results) => if exists k | 0 <= k < |results| :: !results[k].allowed then Some(Denied) else None
    case Failing(code, alarm) => Some(code)
  }

  function ErrorsOf(sources: seq<Source>): seq<Code> {
    if sources == [] then []
    else
      var e := ErrorOf(sources[|sources| - 1]);
      ErrorsOf(sources[..|sources| - 1]) + if e.Some? then [e.value] else []
  }

  function DoneIn(sources: seq<Source>): nat {
    if sources == [] then 0 else DoneIn(sources[..|sources| - 1]) + if sources[|sources| - 1].Stored? then 1 else 0
  }

  function CountInterrupted(w: World, candidates: seq<Closing>): nat {
    if candidates == [] then 0
    else
      var before, last := InterruptAll(w, candidates[..|candidates| - 1]), candidates[|candidates| - 1];
      CountInterrupted(w, candidates[..|candidates| - 1])
      + if TryInterrupt(before, last.run, last.now) != before then 1 else 0
  }

  // ---------------------------------------------------------------- the published status

  ghost predicate SomeStored(sources: seq<Source>) {
    exists i | 0 <= i < |sources| :: sources[i].Stored?
  }

  /** The source failed, or its case no longer allowed one of its results. */
  ghost predicate InError(source: Source) {
    source.Stored? ==> exists k | 0 <= k < |source.results| :: !source.results[k].allowed
  }

  ghost predicate SomeError(sources: seq<Source>) {
    exists i | 0 <= i < |sources| :: InError(sources[i])
  }

  /** Every source was turned away for its rate. */
  ghost predicate AllLimited(sources: seq<Source>) {
    forall i | 0 <= i < |sources| :: sources[i].Failing? && sources[i].code == Limited
  }

  lemma {:induction false} CountsAre(sources: seq<Source>)
    ensures DoneIn(sources) > 0 <==> SomeStored(sources)
    ensures ErrorsOf(sources) != [] <==> SomeError(sources)
    decreases |sources|
  {
    if sources != [] {
      var n := |sources| - 1;
      CountsAre(sources[..n]);
      assert forall i | 0 <= i < n :: sources[..n][i] == sources[i];
      assert ErrorOf(sources[n]).Some? <==> InError(sources[n]);
    }
  }

  /** Without results every source contributes its code. */
  lemma {:induction false} CodeIsError(sources: seq<Source>, i: nat)
    requires i < |sources| && sources[i].Failing?
    ensures sources[i].code in ErrorsOf(sources)
    decreases |sources|
  {
    var n := |sources| - 1;
    if i < n {
      assert sources[..n][i] == sources[i];
      CodeIsError(sources[..n], i);
    }
  }

  lemma {:induction false} OnlyLimited(sources: seq<Source>)
    requires AllLimited(sources)
    ensures forall e | e in ErrorsOf(sources) :: e == Limited
    decreases |sources|
  {
    if sources != [] {
      var n := |sources| - 1;
      assert forall i | 0 <= i < n :: sources[..n][i] == sources[i];
      OnlyLimited(sources[..n]);
      assert ErrorOf(sources[n]) == Some(Limited);
    }
  }

  lemma LimitedAre(sources: seq<Source>)
    requires !SomeStored(sources)
    ensures (forall e | e in ErrorsOf(sources) :: e == Limited) <==> AllLimited(sources)
  {
    if AllLimited(sources) {
      OnlyLimited(sources);
    } else {
      var i :| 0 <= i < |sources| && !(sources[i].Failing? && sources[i].code == Limited);
      assert !sources[i].Stored?;
      CodeIsError(sources, i);
    }
  }

  ghost predicate StatusFits(s: Status, sources: seq<Source>) {
    && (s == Done <==> !SomeError(sources))
    && (s == Partial <==> SomeError(sources) && SomeStored(sources))
    && (s == RateLimited <==> sources != [] && AllLimited(sources))
    && (s == Error <==> SomeError(sources) && !SomeStored(sources) && !AllLimited(sources))
  }

  /**
   The published status read off the sources: DONE when none ended in error, PARTIAL when some
   did but some brought results, RATE_LIMITED when all were turned away for their rate, ERROR
   when none brought results and one failed for another reason.
   */
  lemma StatusOfSources(sources: seq<Source>)
    ensures StatusFits(FinalStatus(DoneIn(sources), ErrorsOf(sources)), sources)
  {
    CountsAre(sources);
    if !SomeStored(sources) {
      LimitedAre(sources);
    }
    assert sources != [] && AllLimited(sources) ==> InError(sources[0]);
  }

  // ---------------------------------------------------------------- what publishing stores

  lemma TakeKnows(t: Tables, r: nat, f: Found, began: int, now: int, hash: nat)
    requires r < |t.runs|
    ensures var t' := Take(t, r, f, began, now);
            Known(t'.hits, t.runs[r].item, hash) <==> Known(t.hits, t.runs[r].item, hash) || hash == f.hash
    ensures Take(t, r, f, began, now).runs[r].item == t.runs[r].item
  {
    var item, t' := t.runs[r].item, Take(t, r, f, began, now);
    if !Known(t.hits, item, f.hash) {
      assert t'.hits[|t.hits|].hash == f.hash && t'.hits[|t.hits|].item == item;
      assert forall h | 0 <= h < |t.hits| :: t'.hits[h] == t.hits[h];
    }
  }

  /** After publishing, the item's stored contents are the old ones and every allowed result, each once. */
  lemma {:induction false} StoresEveryResult(t: Tables, r: nat, results: seq<Result>, began: int, hash: nat)
    requires TablesOk(t) && r < |t.runs|
    ensures var t' := TakeAll(t, r, results, began);
            && TablesOk(t')
            && t'.runs[r].item == t.runs[r].item
            && (Known(t'.hits, t.runs[r].item, hash)
                <==> Known(t.hits, t.runs[r].item, hash)
                     || exists k | 0 <= k < |results| :: results[k].allowed && results[k].found.hash == hash)
    decreases |results|
  {
    if results != [] {
      var n := |results| - 1;
      StoresEveryResult(t, r, results[..n], began, hash);
      assert forall k | 0 <= k < n :: results[..n][k] == results[k];
      if results[n].allowed {
        var before := TakeAll(t, r, results[..n], began);
        TakeKeeps(before, r, results[n].found, began, results[n].at);
        TakeKnows(before, r, results[n].found, began, results[n].at, hash);
      }
    }
  }

  lemma {:induction false} ResultsKeepLocal(db: Tables, r: nat, local: Tables, results: seq<Result>, began: int)
    requires r < |db.runs| && LocalOk(db, r, local)
    ensures LocalOk(db, r, TakeAll(local, r, results, began))
    decreases |results|
  {
    if results != [] {
      var n := |results| - 1;
      ResultsKeepLocal(db, r, local, results[..n], began);
      if results[n].allowed {
        var before := TakeAll(local, r, results[..n], began);
        TakeKeepsLocal(db, r, before, results[n].found, began, results[n].at);
      }
    }
  }

  lemma {:induction false} SourcesKeepLocal(db: Tables, r: nat, local: Tables, sources: seq<Source>, began: int)
    requires r < |db.runs| && LocalOk(db, r, local)
    ensures LocalOk(db, r, TakeSources(local, r, sources, began))
    decreases |sources|
  {
    if sources != [] {
      var n := |sources| - 1;
      SourcesKeepLocal(db, r, local, sources[..n], began);
      var before := TakeSources(local, r, sources[..n], began);
      match sources[n]
      case Stored(results) => ResultsKeepLocal(db, r, before, results, began);
      case Failing(code, alarm) =>
        if alarm.Some? {
          AlarmKeepsLocal(db, r, before, began, alarm.value);
        }
    }
  }

  /** The whole publishing loop and its commit keep the invariant of the case. */
  lemma PublishKeeps(w: World, item: nat, sources: seq<Source>, now: int)
    requires Inv(w) && item in w.attempts && w.attempts[item].Publishing?
    ensures w.attempts[item].run < |w.attempts[item].local.runs|
    ensures var a := w.attempts[item];
            Inv(Next(w.(attempts := w.attempts[item := a.(local := TakeSources(a.local, a.run, sources, a.began))]),
                     Commit(item, DoneIn(sources), ErrorsOf(sources), now)))
  {
    assert AttemptOk(w, item);
    var a := w.attempts[item];
    SourcesKeepLocal(w.db, a.run, a.local, sources, a.began);
    var b := a.(local := TakeSources(a.local, a.run, sources, a.began));
    SetAttemptKeeps(w, item, b);
    CommitKeeps(w.(attempts := w.attempts[item := b]), item, DoneIn(sources), ErrorsOf(sources), now);
  }

  // ---------------------------------------------------------------- exactly what publishing stores

  /** The results a case still allows, in the order they are handled. */
  function Allowed(results: seq<Result>): seq<Found> {
    if results == [] then []
    else
      var last := results[|results| - 1];
      Allowed(results[..|results| - 1]) + if last.allowed then [last.found] else []
  }

  function AllowedIn(sources: seq<Source>): seq<Found> {
    if sources == [] then []
    else
      AllowedIn(sources[..|sources| - 1])
      + match sources[|sources| - 1]
        case Stored(results) => Allowed(results)
        case Failing(_, _) => []
  }

  /** The sources that failed so often that they raise an alert. */
  function AlarmsOf(sources: seq<Source>): nat {
    if sources == [] then 0
    else
      var last := sources[|sources| - 1];
      AlarmsOf(sources[..|sources| - 1]) + if last.Failing? && last.alarm.Some? then 1 else 0
  }

  /** The first result of each content that the item did not have, in order. */
  function NewOnes(hits: seq<Hit>, item: nat, founds: seq<Found>): seq<Found> {
    if founds == [] then []
    else
      var n := |founds| - 1;
      var seen := (exists h | 0 <= h < |hits| :: hits[h].item == item && hits[h].hash == founds[n].hash)
                  || exists j | 0 <= j < n :: founds[j].hash == founds[n].hash;
      NewOnes(hits, item, founds[..n]) + if seen then [] else [founds[n]]
  }

  function AlertableIn(founds: seq<Found>): nat {
    if founds == [] then 0 else AlertableIn(founds[..|founds| - 1]) + if founds[|founds| - 1].alertable then 1 else 0
  }

  /** The row of a stored result. It has an alert exactly if triage calls for one, with all its evidence on it. */
  ghost predicate HitFor(alerts: seq<Alerts.Alert>, hit: Hit, f: Found, r: nat, item: nat) {
    && hit == Hit(r, item, f.hash, f.evidence, f.alertable, hit.alert)
    && (hit.alert.Some? <==> f.alertable)
    && (hit.alert.Some? ==>
          && hit.alert.value < |alerts|
          && f.evidence in alerts[hit.alert.value].evidence
          && forall e | e in f.related :: e in alerts[hit.alert.value].evidence)
  }

  ghost predicate HitsFor(alerts: seq<Alerts.Alert>, hits: seq<Hit>, founds: seq<Found>, r: nat, item: nat) {
    |hits| == |founds| && forall i | 0 <= i < |hits| :: HitFor(alerts, hits[i], founds[i], r, item)
  }

  /**
   Since t, attempt r has stored one hit for each new content among `founds`, in order, counted
   it, and raised one signal for each that triage calls an alert for and one for each alarm.
   */
  ghost predicate Stores(t: Tables, t': Tables, r: nat, founds: seq<Found>, alarms: nat)
    requires r < |t.runs|
  {
    var item, n := t.runs[r].item, |t.hits|;
    var added := NewOnes(t.hits, item, founds);
    && |t'.runs| == |t.runs| && (forall q | 0 <= q < |t.runs| && q != r :: t'.runs[q] == t.runs[q])
    && t'.runs[r].item == item && t'.runs[r].newHits == t.runs[r].newHits + |added|
    && t.hits <= t'.hits && HitsFor(t'.alerts, t'.hits[n..], added, r, item)
    && Alerts.Total(t'.alerts) == Alerts.Total(t.alerts) + AlertableIn(added) + alarms
    && t'.outside == t.outside
  }

  ghost predicate Has(founds: seq<Found>, hash: nat) {
    exists j | 0 <= j < |founds| :: founds[j].hash == hash
  }

  lemma {:induction false} NewOnesCover(hits: seq<Hit>, item: nat, founds: seq<Found>, hash: nat)
    ensures Known(hits, item, hash) || Has(founds, hash) <==> Known(hits, item, hash) || Has(NewOnes(hits, item, founds), hash)
    decreases |founds|
  {
    if founds != [] {
      var n := |founds| - 1;
      var before, after := NewOnes(hits, item, founds[..n]), NewOnes(hits, item, founds);
      NewOnesCover(hits, item, founds[..n], hash);
      NewOnesCover(hits, item, founds[..n], founds[n].hash);
      assert forall j | 0 <= j < n :: founds[..n][j] == founds[j];
      assert before <= after;
      assert after != before ==> after[|before|] == founds[n];
    }
  }

  lemma StoredKnows(t: Tables, t': Tables, r: nat, founds: seq<Found>, alarms: nat, hash: nat)
    requires r < |t.runs| && Stores(t, t', r, founds, alarms)
    ensures Known(t'.hits, t.runs[r].item, hash)
            <==> Known(t.hits, t.runs[r].item, hash) || Has(founds, hash)
  {
    hide HitFor, Known, Has;
    var item, n := t.runs[r].item, |t.hits|;
    NewOnesCover(t.hits, item, founds, hash);
    KnownAmong(t.hits, t'.hits[n..], t'.alerts, NewOnes(t.hits, item, founds), r, item, hash);
    assert t'.hits == t.hits + t'.hits[n..];
  }

  lemma KnownAmong(hits: seq<Hit>, more: seq<Hit>, alerts: seq<Alerts.Alert>, founds: seq<Found>, r: nat, item: nat, hash: nat)
    requires HitsFor(alerts, more, founds, r, item)
    ensures Known(hits + more, item, hash) <==> Known(hits, item, hash) || Has(founds, hash)
  {
    if Known(hits + more, item, hash) {
      var h :| 0 <= h < |hits + more| && (hits + more)[h].item == item && (hits + more)[h].hash == hash;
      if h < |hits| {
        assert hits[h] == (hits + more)[h];
      } else {
        assert HitFor(alerts, more[h - |hits|], founds[h - |hits|], r, item);
      }
    }
    if Known(hits, item, hash) {
      var h :| 0 <= h < |hits| && hits[h].item == item && hits[h].hash == hash;
      assert (hits + more)[h] == hits[h];
    }
    if Has(founds, hash) {
      var i :| 0 <= i < |founds| && founds[i].hash == hash;
      assert HitFor(alerts, more[i], founds[i], r, item);
      assert (hits + more)[|hits| + i] == more[i];
    }
  }

  lemma MoreAlerts(before: seq<Alerts.Alert>, after: seq<Alerts.Alert>, hits: seq<Hit>, founds: seq<Found>, r: nat, item: nat)
    requires HitsFor(before, hits, founds, r, item) && |before| <= |after|
    requires forall k, e | 0 <= k < |before| && e in before[k].evidence :: e in after[k].evidence
    ensures HitsFor(after, hits, founds, r, item)
  {
    forall i | 0 <= i < |hits|
      ensures HitFor(after, hits[i], founds[i], r, item)
    {
      assert HitFor(before, hits[i], founds[i], r, item);
    }
  }

  lemma NewOnesSnoc(hits: seq<Hit>, item: nat, founds: seq<Found>, f: Found)
    ensures NewOnes(hits, item, founds + [f])
         == NewOnes(hits, item, founds)
            + if Known(hits, item, f.hash) || Has(founds, f.hash) then [] else [f]
  {
    assert (founds + [f])[..|founds|] == founds;
    assert forall j | 0 <= j < |founds| :: (founds + [f])[j] == founds[j];
  }

  lemma TakeStores(t: Tables, t': Tables, r: nat, founds: seq<Found>, alarms: nat, f: Found, began: int, now: int)
    requires r < |t.runs| && Stores(t, t', r, founds, alarms)
    ensures Stores(t, Take(t', r, f, began, now), r, founds + [f], alarms)
  {
    var item := t.runs[r].item;
    StoredKnows(t, t', r, founds, alarms, f.hash);
    NewOnesSnoc(t.hits, item, founds, f);
    if !Known(t'.hits, item, f.hash) {
      NewHit(t, t', r, founds, alarms, f, began, now);
    } else {
      assert NewOnes(t.hits, item, founds + [f]) == NewOnes(t.hits, item, founds);
    }
  }

  lemma NewHit(t: Tables, t': Tables, r: nat, founds: seq<Found>, alarms: nat, f: Found, began: int, now: int)
    requires r < |t.runs| && Stores(t, t', r, founds, alarms) && !Known(t'.hits, t.runs[r].item, f.hash)
    requires NewOnes(t.hits, t.runs[r].item, founds + [f]) == NewOnes(t.hits, t.runs[r].item, founds) + [f]
    ensures Stores(t, Take(t', r, f, began, now), r, founds + [f], alarms)
  {
    hide NewOnes, Known, AlertRow, Alerts.Raise, Signal, HitsFor, Alerts.Total;
    var item, n := t.runs[r].item, |t.hits|;
    var added, after := NewOnes(t.hits, item, founds), Take(t', r, f, began, now);
    var s := Signal(f, began, now);
    SignalCarries(f, began, now);
    RaiseGrows(t'.alerts, s);
    Alerts.RaiseCounts(t'.alerts, s);
    MoreAlerts(t'.alerts, after.alerts, t'.hits[n..], added, r, item);
    HitsNext(after.alerts, t'.hits[n..], after.hits[|t'.hits|], added, f, r, item);
    assert after.hits[n..] == t'.hits[n..] + [after.hits[|t'.hits|]];
    assert (added + [f])[..|added|] == added;
  }

  lemma HitsNext(alerts: seq<Alerts.Alert>, hits: seq<Hit>, hit: Hit, founds: seq<Found>, f: Found, r: nat, item: nat)
    requires HitsFor(alerts, hits, founds, r, item) && HitFor(alerts, hit, f, r, item)
    ensures HitsFor(alerts, hits + [hit], founds + [f], r, item)
  {
    hide HitFor;
  }

  lemma SignalCarries(f: Found, began: int, now: int)
    ensures f.evidence in Signal(f, began, now).evidence
    ensures forall e | e in f.related :: e in Signal(f, began, now).evidence
  {
    assert f.evidence in [f.evidence] + f.related;
    assert forall e | e in f.related :: e in [f.evidence] + f.related;
  }

  lemma AlarmStores(t: Tables, t': Tables, r: nat, founds: seq<Found>, alarms: nat, began: int, now: int)
    requires r < |t.runs| && Stores(t, t', r, founds, alarms)
    ensures Stores(t, Alarm(t', r, began, now), r, founds, alarms + 1)
  {
    hide NewOnes, Alerts.Raise, HitsFor, Alerts.Total;
    var item, n := t.runs[r].item, |t.hits|;
    var s := Alerts.Signal(now, began, []);
    RaiseGrows(t'.alerts, s);
    Alerts.RaiseCounts(t'.alerts, s);
    MoreAlerts(t'.alerts, Alarm(t', r, began, now).alerts, t'.hits[n..], NewOnes(t.hits, item, founds), r, item);
  }

  lemma {:induction false} ResultsStore(t: Tables, t': Tables, r: nat, founds: seq<Found>, alarms: nat, results: seq<Result>, began: int)
    requires r < |t.runs| && Stores(t, t', r, founds, alarms)
    ensures Stores(t, TakeAll(t', r, results, began), r, founds + Allowed(results), alarms)
    decreases |results|
  {
    hide Stores, Take;
    StoresRow(t, t', r, founds, alarms);
    if results == [] {
      assert founds + [] == founds;
    } else {
      var front, last := results[..|results| - 1], results[|results| - 1];
      ResultsStore(t, t', r, founds, alarms, front, began);
      if last.allowed {
        TakeStores(t, TakeAll(t', r, front, began), r, founds + Allowed(front), alarms, last.found, began, last.at);
        assert founds + Allowed(results) == (founds + Allowed(front)) + [last.found];
      } else {
        assert Allowed(results) == Allowed(front);
      }
    }
  }

  lemma StoresRow(t: Tables, t': Tables, r: nat, founds: seq<Found>, alarms: nat)
    requires r < |t.runs| && Stores(t, t', r, founds, alarms)
    ensures |t'.runs| == |t.runs|
  {
  }

  /** Writing the final status and time leaves what was stored as it is. */
  lemma ClosedStores(t: Tables, t': Tables, r: nat, founds: seq<Found>, alarms: nat, run: Run)
    requires r < |t.runs| && Stores(t, t', r, founds, alarms)
    requires run == t'.runs[r].(status := run.status, finishedAt := run.finishedAt)
    ensures Stores(t, t'.(runs := t'.runs[r := run]), r, founds, alarms)
  {
    hide NewOnes;
  }

  lemma NothingStored(t: Tables, r: nat)
    requires r < |t.runs|
    ensures Stores(t, t, r, [], 0)
  {
    assert t.hits[|t.hits|..] == [];
  }

  /** What publishing all sources stores, from any view of the tables. */
  lemma {:induction false} SourcesStore(t: Tables, r: nat, sources: seq<Source>, began: int)
    requires r < |t.runs|
    ensures Stores(t, TakeSources(t, r, sources, began), r, AllowedIn(sources), AlarmsOf(sources))
    decreases |sources|
  {
    hide Stores, TakeAll, Alarm, Allowed;
    if sources == [] {
      NothingStored(t, r);
    } else {
      var front, last := sources[..|sources| - 1], sources[|sources| - 1];
      SourcesStore(t, r, front, began);
      var before := TakeSources(t, r, front, began);
      match last
      case Stored(results) => ResultsStore(t, before, r, AllowedIn(front), AlarmsOf(front), results, began);
      case Failing(code, alarm) =>
        assert AllowedIn(sources) == AllowedIn(front);
        if alarm.Some? {
          AlarmStores(t, before, r, AllowedIn(front), AlarmsOf(front), began, alarm.value);
        }
    }
  }

  // ---------------------------------------------------------------- how many recovery closes

  ghost function Unfinished(runs: seq<Run>): set<nat> {
    set r | 0 <= r < |runs| && runs[r].status == Running
  }

  lemma ClosesOne(w: World, r: nat, now: int)
    ensures |Unfinished(TryInterrupt(w, r, now).db.runs)|
         == |Unfinished(w.db.runs)| - if TryInterrupt(w, r, now) != w then 1 else 0
  {
    if Closable(w, r) {
      assert Unfinished(TryInterrupt(w, r, now).db.runs) == Unfinished(w.db.runs) - {r};
      assert r in Unfinished(w.db.runs);
    }
  }

  /** The loop counts exactly the RUNNING rows it has closed. */
  lemma {:induction false} CountsClosed(w: World, candidates: seq<Closing>)
    ensures CountInterrupted(w, candidates) == |Unfinished(w.db.runs)| - |Unfinished(InterruptAll(w, candidates).db.runs)|
    decreases |candidates|
  {
    hide TryInterrupt;
    if candidates != [] {
      var n := |candidates| - 1;
      CountsClosed(w, candidates[..n]);
      ClosesOne(InterruptAll(w, candidates[..n]), candidates[n].run, candidates[n].now);
    }
  }

  // ---------------------------------------------------------------- the loops

  class CaseMonitor {
    var db: Tables
    var items: seq<Item>
    var attempts: map<nat, Attempt>

    function State(): World
      reads this
    {
      World(db, items, attempts)
    }

    constructor (count: nat)
      ensures State() == Fresh(count)
    {
      db := Tables([], [], [], 0);
      items := seq(count, _ => Item(None, None));
      attempts := map[];
    }

    /** The results of one source, one by one, on the transaction's own view. */
    method TakeResults(t: Tables, r: nat, results: seq<Result>, began: int) returns (local: Tables, error: Option<Code>)
      requires r < |t.runs|
      ensures local == TakeAll(t, r, results, began)
      ensures error == ErrorOf(Stored(results))
    {
      local, error := t, None;
      for i := 0 to |results|
        invariant local == TakeAll(t, r, results[..i], began)
        invariant error == if exists k | 0 <= k < i :: !results[k].allowed then Some(Denied) else None
      {
        assert results[..i + 1][..i] == results[..i];
        if !results[i].allowed {
          error := Some(Denied);
        } else {
          var f := results[i].found;
          var item := local.runs[r].item;
          if !Known(local.hits, item, f.hash) {
            var alert := None;
            var alerts := local.alerts;
            if f.alertable {
              var s := Signal(f, began, results[i].at);
              alert := Some(AlertRow(alerts, s));
              alerts := Alerts.Raise(alerts, s);
            }
            var row := local.runs[r];
            local := Tables(local.runs[r := row.(newHits := row.newHits + 1)], local.hits + [Hit(r, item, f.hash, f.evidence, f.alertable, alert)],
                            alerts, local.outside);
          }
        }
      }
      assert results[..|results|] == results;
    }

    /**
     The second half of _run_item, from holding the case lock to the commit: every source's
     results, then the final status, the item's record and the release of its lock.
     */
    method Publish(item: nat, sources: seq<Source>, now: int)
      requires item in attempts && attempts[item].Publishing? && item < |items|
      requires attempts[item].run < |attempts[item].local.runs|
      modifies this
      ensures var a := old(attempts)[item];
              State() == Next(old(State()).(attempts := old(attempts)[item := a.(local := TakeSources(a.local, a.run, sources, a.began))]),
                              Commit(item, DoneIn(sources), ErrorsOf(sources), now))
      ensures var a := old(attempts)[item];
              && Stores(a.local, db, a.run, AllowedIn(sources), AlarmsOf(sources))
              && StatusFits(db.runs[a.run].status, sources) && db.runs[a.run].finishedAt == Some(now)
      ensures items == old(items)[item := Item(Some(now), Some(old(attempts)[item].run))] && attempts == old(attempts) - {item}
    {
      hide Stores, StatusFits;
      var a := attempts[item];
      var local, done, errors := a.local, 0, [];
      for i := 0 to |sources|
        invariant local == TakeSources(a.local, a.run, sources[..i], a.began)
        invariant done == DoneIn(sources[..i]) && errors == ErrorsOf(sources[..i])
        invariant unchanged(this)
      {
        assert sources[..i + 1][..i] == sources[..i];
        match sources[i]
        case Stored(results) =>
          var error;
          local, error := TakeResults(local, a.run, results, a.began);
          done := done + 1;
          if error.Some? {
            errors := errors + [error.value];
          }
        case Failing(code, alarm) =>
          errors := errors + [code];
          if alarm.Some? {
            local := Alarm(local, a.run, a.began, alarm.value);
          }
      }
      assert sources[..|sources|] == sources;
      ghost var before := State().(attempts := attempts[item := a.(local := local)]);
      var run := local.runs[a.run].(status := FinalStatus(done, errors), finishedAt := Some(now));
      db := local.(runs := local.runs[a.run := run]);
      items := items[item := Item(Some(now), Some(a.run))];
      attempts := attempts - {item};
      assert before.attempts - {item} == attempts;
      StatusOfSources(sources);
      SourcesStore(a.local, a.run, sources, a.began);
      ClosedStores(a.local, local, a.run, AllowedIn(sources), AlarmsOf(sources), run);
    }

    /** interrupt_run. */
    method InterruptRun(r: nat, now: int)
      requires r < |db.runs| && db.runs[r].item < |items|
      modifies this
      ensures State() == Interrupted(old(State()), r, now)
    {
      var run := db.runs[r];
      var item := items[run.item];
      db := db.(runs := db.runs[r := run.(status := Error, finishedAt := Some(now), interrupted := true)]);
      if item.lastRunAt.None? || item.lastRunAt.value <= run.startedAt {
        items := items[run.item := Item(Some(now), Some(r))];
      }
    }

    /** The recovery loop over the listed rows; `recovered` counts the rows it closed. */
    method Recover(candidates: seq<Closing>) returns (recovered: nat)
      requires CaseFree(State())
      requires forall k | 0 <= k < |candidates| :: candidates[k].run < |db.runs| && db.runs[candidates[k].run].item < |items|
      modifies this
      ensures State() == InterruptAll(old(State()), candidates)
      ensures recovered == CountInterrupted(old(State()), candidates)
    {
      recovered := 0;
      ghost var start := State();
      for i := 0 to |candidates|
        invariant State() == InterruptAll(start, candidates[..i])
        invariant recovered == CountInterrupted(start, candidates[..i])
        invariant attempts == start.attempts
        invariant |db.runs| == |start.db.runs| && |items| == |start.items|
        invariant forall k | 0 <= k < |db.runs| :: db.runs[k].item == start.db.runs[k].item
      {
        assert candidates[..i + 1][..i] == candidates[..i];
        var r := candidates[i].run;
        if db.runs[r].item !in attempts && db.runs[r].status == Running {
          InterruptRun(r, candidates[i].now);
          recovered := recovered + 1;
        }
      }
      assert candidates[..|candidates|] == candidates;
    }
  }
}

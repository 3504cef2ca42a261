/**
 Monitoring attempts of one case: a RUNNING row committed before collection, everything found
 committed in one transaction with the final status, crashes at any point, and recovery.
 Every time is a clock reading of the moment, and readings may come in any order. Rows are
 numbered by position. An item's advisory lock is held exactly while it has an entry in
 `attempts`; the case row lock is held exactly while an attempt is publishing.
 */
module Monitor {
  import opened Common
  import Alerts

  datatype Status = Running | Done | Partial | RateLimited | Error

  /** `alarms` counts the source-failure alerts the attempt raised; it is not a column. */
  datatype Run = Run(item: nat, status: Status, startedAt: int, finishedAt: Option<int>, newHits: nat, alarms: nat, interrupted: bool)

  /** `alertable` is the triage verdict the row was stored with. */
  datatype Hit = Hit(run: nat, item: nat, hash: nat, evidence: nat, alertable: bool, alert: Option<nat>)

  datatype Item = Item(lastRunAt: Option<int>, lastRun: Option<nat>)

  /**
   `outside` counts the signals raised by others than attempts: promoted trends and refused
   execution authority. They share the alert rows of the case; the count is not a column.
   */
  datatype Tables = Tables(runs: seq<Run>, hits: seq<Hit>, alerts: seq<Alerts.Alert>, outside: nat)

  /** A live attempt; while publishing it works on its transaction's own view of the tables. */
  datatype Attempt =
    | Collecting(run: nat, began: int)
    | Publishing(run: nat, began: int, local: Tables)

  datatype World = World(db: Tables, items: seq<Item>, attempts: map<nat, Attempt>)

  /** A stored result of a source; `alertable` is the triage verdict, `related` further evidence for the alert. */
  datatype Found = Found(hash: nat, evidence: nat, related: seq<nat>, alertable: bool)

  datatype Code = Denied | Limited | Failed

  // ---------------------------------------------------------------- rows

  function HitsOf(hits: seq<Hit>, r: nat): nat {
    if hits == [] then 0 else HitsOf(hits[..|hits| - 1], r) + if hits[|hits| - 1].run == r then 1 else 0
  }

  function Alerting(hits: seq<Hit>): nat {
    if hits == [] then 0 else Alerting(hits[..|hits| - 1]) + if hits[|hits| - 1].alert.Some? then 1 else 0
  }

  function Alarms(runs: seq<Run>): nat {
    if runs == [] then 0 else Alarms(runs[..|runs| - 1]) + runs[|runs| - 1].alarms
  }

  predicate Known(hits: seq<Hit>, item: nat, hash: nat) {
    exists h | 0 <= h < |hits| :: hits[h].item == item && hits[h].hash == hash
  }

  predicate Published(run: Run) {
    run.status != Running && !run.interrupted
  }

  ghost predicate RunOk(t: Tables, r: nat)
    requires r < |t.runs|
  {
    var run := t.runs[r];
    && run.newHits == HitsOf(t.hits, r)
    && (run.status == Running <==> run.finishedAt.None?)
    && (run.interrupted ==> run.status == Error)
  }

  ghost predicate HitOk(t: Tables, h: nat)
    requires h < |t.hits|
  {
    var hit := t.hits[h];
    && hit.run < |t.runs| && t.runs[hit.run].item == hit.item
    && (hit.alert.Some? <==> hit.alertable)
    && (hit.alert.Some? ==> hit.alert.value < |t.alerts| && hit.evidence in t.alerts[hit.alert.value].evidence)
  }

  ghost predicate Differ(g: Hit, h: Hit) {
    g.item != h.item || g.hash != h.hash
  }

  /** Counters equal rows, no item has one content twice, alerts stand for alerting hits, alarms and outside signals. */
  ghost predicate TablesOk(t: Tables) {
    && (forall r | 0 <= r < |t.runs| :: RunOk(t, r))
    && (forall h | 0 <= h < |t.hits| :: HitOk(t, h))
    && (forall g, h | 0 <= g < h < |t.hits| :: Differ(t.hits[g], t.hits[h]))
    && Alerts.Total(t.alerts) == Alerting(t.hits) + Alarms(t.runs) + t.outside
  }

  /** An attempt that has not published shows nothing. */
  ghost predicate Bare(t: Tables) {
    forall r | 0 <= r < |t.runs| && !Published(t.runs[r]) :: t.runs[r].newHits == 0 && t.runs[r].alarms == 0
  }

  // ---------------------------------------------------------------- publishing

  function Signal(f: Found, began: int, now: int): Alerts.Signal {
    Alerts.Signal(now, began, Alerts.Distinct([f.evidence] + f.related))
  }

  /** The row that stands for the signal. */
  function AlertRow(alerts: seq<Alerts.Alert>, s: Alerts.Signal): (row: nat) {
    var hour := Alerts.HourOf(s.clock);
    var overflow := Alerts.FirstOverflow(alerts, hour);
    if Alerts.OrdinarySince(alerts, hour) < Alerts.HOURLY_CAP || overflow.None? then |alerts| else overflow.value
  }

  /** One result: content already known for the item is skipped, else an alert may be raised and a hit is added. */
  function Take(t: Tables, r: nat, f: Found, began: int, now: int): Tables
    requires r < |t.runs|
  {
    var item := t.runs[r].item;
    if Known(t.hits, item, f.hash) then t
    else
      var s := Signal(f, began, now);
      var alert := if f.alertable then Some(AlertRow(t.alerts, s)) else None;
      Tables(
        t.runs[r := t.runs[r].(newHits := t.runs[r].newHits + 1)],
        t.hits + [Hit(r, item, f.hash, f.evidence, f.alertable, alert)],
        if f.alertable then Alerts.Raise(t.alerts, s) else t.alerts,
        t.outside)
  }

  /** A source that keeps failing raises an alert without evidence. */
  function Alarm(t: Tables, r: nat, began: int, now: int): Tables
    requires r < |t.runs|
  {
    t.(runs := t.runs[r := t.runs[r].(alarms := t.runs[r].alarms + 1)],
       alerts := Alerts.Raise(t.alerts, Alerts.Signal(now, began, [])))
  }

  /** A signal that belongs to no attempt. */
  function RaiseOutside(t: Tables, evidence: seq<nat>, began: int, now: int): Tables {
    t.(alerts := Alerts.Raise(t.alerts, Alerts.Signal(now, began, evidence)), outside := t.outside + 1)
  }

  function FinalStatus(done: nat, errors: seq<Code>): (s: Status)
    ensures s != Running
    ensures s == Done <==> errors == []
    ensures s == Partial <==> errors != [] && done > 0
    ensures s == RateLimited <==> errors != [] && done == 0 && forall e | e in errors :: e == Limited
    ensures s == Error <==> done == 0 && exists e :: e in errors && e != Limited
  {
    if errors == [] then Done
    else if done > 0 then Partial
    else if forall e | e in errors :: e == Limited then RateLimited
    else Error
  }

  // ---------------------------------------------------------------- steps

  datatype Step =
    | Begin(item: nat, allowed: bool, now: int)
    | Collected(item: nat)
    | TakeHit(item: nat, found: Found, now: int)
    | RaiseAlarm(item: nat, now: int)
    | Outside(evidence: seq<nat>, began: int, now: int)
    | Commit(item: nat, done: nat, errors: seq<Code>, now: int)
    | Fail(item: nat)
    | Crash
    | Interrupt(run: nat, now: int)
    | Recover(candidates: seq<Closing>, before: int)

  /** A row to be closed by recovery, and the reading taken when its turn comes. */
  datatype Closing = Closing(run: nat, now: int)

  predicate CaseFree(w: World) {
    forall i | i in w.attempts :: w.attempts[i].Collecting?
  }

  /** The item's record gives way to attempt r when it is dated no later than r's start. */
  predicate Yields(w: World, r: nat)
    requires r < |w.db.runs| && w.db.runs[r].item < |w.items|
  {
    var at := w.items[w.db.runs[r].item].lastRunAt;
    at.None? || at.value <= w.db.runs[r].startedAt
  }

  /** interrupt_run. */
  function Interrupted(w: World, r: nat, now: int): World
    requires r < |w.db.runs| && w.db.runs[r].item < |w.items|
  {
    var run := w.db.runs[r];
    w.(db := w.db.(runs := w.db.runs[r := run.(status := Error, finishedAt := Some(now), interrupted := true)]),
       items := if Yields(w, r) then w.items[run.item := Item(Some(now), Some(r))] else w.items)
  }

  /** Attempt r can be interrupted: a RUNNING row whose item lock is free. */
  predicate Closable(w: World, r: nat) {
    && r < |w.db.runs| && w.db.runs[r].item < |w.items| && w.db.runs[r].status == Running
    && w.db.runs[r].item !in w.attempts && CaseFree(w)
  }

  /** persist_interruption, and one candidate of recovery. */
  function TryInterrupt(w: World, r: nat, now: int): World {
    if Closable(w, r) then Interrupted(w, r, now) else w
  }

  function InterruptAll(w: World, candidates: seq<Closing>): World {
    if candidates == [] then w
    else
      var last := candidates[|candidates| - 1];
      TryInterrupt(InterruptAll(w, candidates[..|candidates| - 1]), last.run, last.now)
  }

  predicate Stale(w: World, r: nat, before: int)
    requires r < |w.db.runs|
  {
    w.db.runs[r].status == Running && w.db.runs[r].startedAt <= before
  }

  predicate Names(candidates: seq<Closing>, r: nat) {
    exists k | 0 <= k < |candidates| :: candidates[k].run == r
  }

  /** The recovery query lists exactly the RUNNING rows started by `before`, each once; their order is left open. */
  ghost predicate Lists(w: World, candidates: seq<Closing>, before: int) {
    && (forall r: nat :: Names(candidates, r) <==> r < |w.db.runs| && Stale(w, r, before))
    && (forall i, j | 0 <= i < j < |candidates| :: candidates[i].run != candidates[j].run)
  }

  ghost predicate MayPublish(w: World, item: nat) {
    item in w.attempts && w.attempts[item].Publishing? && w.attempts[item].run < |w.attempts[item].local.runs|
  }

  ghost function Next(w: World, s: Step): World {
    match s
    case Begin(item, allowed, now) =>
      if item < |w.items| && item !in w.attempts && allowed && CaseFree(w) then
        w.(db := w.db.(runs := w.db.runs + [Run(item, Running, now, None, 0, 0, false)]),
           attempts := w.attempts[item := Collecting(|w.db.runs|, now)])
      else w
    case Collected(item) =>
      if item in w.attempts && CaseFree(w) then
        w.(attempts := w.attempts[item := Publishing(w.attempts[item].run, w.attempts[item].began, w.db)])
      else w
    case TakeHit(item, found, now) =>
      if MayPublish(w, item) then
        var a := w.attempts[item];
        w.(attempts := w.attempts[item := a.(local := Take(a.local, a.run, found, a.began, now))])
      else w
    case RaiseAlarm(item, now) =>
      if MayPublish(w, item) then
        var a := w.attempts[item];
        w.(attempts := w.attempts[item := a.(local := Alarm(a.local, a.run, a.began, now))])
      else w
    case Outside(evidence, began, now) =>
      if CaseFree(w) then w.(db := RaiseOutside(w.db, evidence, began, now)) else w
    case Commit(item, done, errors, now) =>
      if MayPublish(w, item) && item < |w.items| then
        var a := w.attempts[item];
        var run := a.local.runs[a.run].(status := FinalStatus(done, errors), finishedAt := Some(now));
        w.(db := a.local.(runs := a.local.runs[a.run := run]),
           items := w.items[item := Item(Some(now), Some(a.run))],
           attempts := w.attempts - {item})
      else w
    case Fail(item) => w.(attempts := w.attempts - {item})
    case Crash => w.(attempts := map[])
    case Interrupt(run, now) => TryInterrupt(w, run, now)
    case Recover(candidates, before) => if Lists(w, candidates, before) then InterruptAll(w, candidates) else w
  }

  ghost function After(w: World, steps: seq<Step>): World {
    if steps == [] then w else Next(After(w, steps[..|steps| - 1]), steps[|steps| - 1])
  }

  function Fresh(items: nat): World {
    World(Tables([], [], [], 0), seq(items, _ => Item(None, None)), map[])
  }

  // ---------------------------------------------------------------- the invariant

  /** The publishing transaction sees the committed rows plus its own hits, counted in its own row. */
  ghost predicate LocalOk(db: Tables, r: nat, local: Tables)
    requires r < |db.runs|
  {
    && TablesOk(local)
    && |local.runs| == |db.runs| && local.outside == db.outside
    && local.runs == db.runs[r := db.runs[r].(newHits := local.runs[r].newHits, alarms := local.runs[r].alarms)]
    && db.hits <= local.hits
    && forall h | |db.hits| <= h < |local.hits| :: local.hits[h].run == r
  }

  /** No attempt on the item was started after r. */
  ghost predicate NewestOf(db: Tables, i: nat, r: nat) {
    forall q | r < q < |db.runs| :: db.runs[q].item != i
  }

  ghost predicate AttemptOk(w: World, i: nat)
    requires i in w.attempts
  {
    var a := w.attempts[i];
    && i < |w.items| && a.run < |w.db.runs|
    && w.db.runs[a.run].item == i && w.db.runs[a.run].status == Running
    && NewestOf(w.db, i, a.run)
    && (a.Publishing? ==> LocalOk(w.db, a.run, a.local))
  }

  /** The item shows a finished attempt of its own. */
  ghost predicate ItemOk(w: World, i: nat)
    requires i < |w.items|
  {
    var item := w.items[i];
    && (item.lastRun.Some? <==> item.lastRunAt.Some?)
    && (item.lastRun.Some? ==>
          && item.lastRun.value < |w.db.runs|
          && w.db.runs[item.lastRun.value].item == i
          && w.db.runs[item.lastRun.value].finishedAt == item.lastRunAt)
  }

  /** An attempt is of an item of the case; once one is published, its item shows an attempt. */
  ghost predicate Homed(w: World, r: nat)
    requires r < |w.db.runs|
  {
    var run := w.db.runs[r];
    run.item < |w.items| && (Published(run) ==> w.items[run.item].lastRun.Some?)
  }

  ghost predicate OnePublisher(attempts: map<nat, Attempt>) {
    forall i, j | i in attempts && j in attempts && attempts[i].Publishing? && attempts[j].Publishing? :: i == j
  }

  ghost predicate Inv(w: World) {
    && TablesOk(w.db) && Bare(w.db)
    && (forall i | i in w.attempts :: AttemptOk(w, i))
    && OnePublisher(w.attempts)
    && (forall i | 0 <= i < |w.items| :: ItemOk(w, i))
    && (forall r | 0 <= r < |w.db.runs| :: Homed(w, r))
  }
}

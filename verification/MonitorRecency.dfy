/**
 Which attempt an item shows. Attempts are numbered in the order in which they were started; an
 interruption compares clock readings, so what it does to a newer result depends on them.
 */
module MonitorRecency {
  import opened Common
  import Alerts
  import opened Monitor
  import opened MonitorInvariants

  // ---------------------------------------------------------------- one interruption

  /** What an interruption does to the records of the items, for every clock reading. */
  lemma InterruptionShows(w: World, r: nat, now: int)
    requires Closable(w, r)
    ensures var i, w' := w.db.runs[r].item, Next(w, Interrupt(r, now));
            && w'.items == (if Yields(w, r) then w.items[i := Item(Some(now), Some(r))] else w.items)
            && w'.db.runs[r].interrupted
  {
  }

  /**
   In every reachable state: interrupting an attempt displaces the published result its item
   shows exactly when that result's final reading is not after the attempt's start.
   */
  lemma DisplacedIff(items: nat, steps: seq<Step>, p: nat, r: nat, now: int)
    requires var w := After(Fresh(items), steps);
             && Closable(w, r) && p < |w.db.runs| && Published(w.db.runs[p]) && w.db.runs[p].item == w.db.runs[r].item
             && w.items[w.db.runs[r].item].lastRun == Some(p)
    ensures var w := After(Fresh(items), steps);
            var w' := Next(w, Interrupt(r, now));
            var i := w.db.runs[r].item;
            && w.db.runs[p].finishedAt.Some? && r != p
            && w'.items[i].lastRun == Some(if w.db.runs[p].finishedAt.value <= w.db.runs[r].startedAt then r else p)
  {
    ReachableInv(items, steps);
    var w := After(Fresh(items), steps);
    assert ItemOk(w, w.db.runs[r].item);
    InterruptionShows(w, r, now);
  }

  /**
   The smallest such history: an attempt crashes, a newer one is published, the old one is
   interrupted. The item ends up showing the old one exactly when the newer one's final reading
   is not after the old one's start, which takes a clock that was set back or stood still.
   */
  lemma OlderDisplacesNewer(first: int, second: int, finished: int, now: int)
    ensures var w := After(Fresh(1), [Begin(0, true, first), Crash, Begin(0, true, second), Collected(0),
                                      Commit(0, 1, [], finished), Interrupt(0, now)]);
            && |w.db.runs| == 2 && |w.items| == 1 && Published(w.db.runs[1]) && w.db.runs[0].interrupted
            && w.items[0].lastRun == Some(if finished <= first then 0 else 1)
  {
    hide After, Next;
    var steps := [Begin(0, true, first), Crash, Begin(0, true, second), Collected(0), Commit(0, 1, [], finished), Interrupt(0, now)];
    AfterSix(Fresh(1), steps);
    CrashedStart(first);
    Restarted(first, second);
    PublishedSecond(first, second, finished);
    InterruptionShows(SecondDone(first, second, finished), 0, now);
    assert Yields(SecondDone(first, second, finished), 0) <==> finished <= first;
    FirstClosed(first, second, finished, now);
  }

  lemma AfterSix(w: World, steps: seq<Step>)
    requires |steps| == 6
    ensures After(w, steps) == Next(Next(Next(Next(Next(Next(w, steps[0]), steps[1]), steps[2]), steps[3]), steps[4]), steps[5])
  {
    hide Next;
    AfterNext(w, steps, 0);
    AfterNext(w, steps, 1);
    AfterNext(w, steps, 2);
    AfterNext(w, steps, 3);
    AfterNext(w, steps, 4);
    AfterNext(w, steps, 5);
    assert steps[..6] == steps;
  }

  /** The row of an attempt on the one item that has just been started. */
  function Started(at: int): Run {
    Run(0, Running, at, None, 0, 0, false)
  }

  function OneItem(runs: seq<Run>, record: Item): World {
    World(Tables(runs, [], [], 0), [record], map[])
  }

  function SecondDone(first: int, second: int, finished: int): World {
    OneItem([Started(first), Started(second).(status := Done, finishedAt := Some(finished))], Item(Some(finished), Some(1)))
  }

  lemma CrashedStart(first: int)
    ensures Next(Next(Fresh(1), Begin(0, true, first)), Crash) == OneItem([Started(first)], Item(None, None))
  {
    assert Fresh(1) == OneItem([], Item(None, None));
  }

  lemma Restarted(first: int, second: int)
    ensures var rows := OneItem([Started(first), Started(second)], Item(None, None));
            Next(Next(OneItem([Started(first)], Item(None, None)), Begin(0, true, second)), Collected(0))
            == rows.(attempts := map[0 := Publishing(1, second, rows.db)])
  {
    var w := OneItem([Started(first)], Item(None, None));
    var began := Next(w, Begin(0, true, second));
    assert began == OneItem([Started(first), Started(second)], Item(None, None)).(attempts := map[0 := Collecting(1, second)]);
    assert map[0 := Collecting(1, second)][0 := Publishing(1, second, began.db)] == map[0 := Publishing(1, second, began.db)];
  }

  lemma PublishedSecond(first: int, second: int, finished: int)
    ensures var rows := OneItem([Started(first), Started(second)], Item(None, None));
            Next(rows.(attempts := map[0 := Publishing(1, second, rows.db)]), Commit(0, 1, [], finished))
            == SecondDone(first, second, finished)
  {
    var rows := OneItem([Started(first), Started(second)], Item(None, None));
    assert map[0 := Publishing(1, second, rows.db)] - {0} == map[];
  }

  lemma FirstClosed(first: int, second: int, finished: int, now: int)
    ensures var w := Next(SecondDone(first, second, finished), Interrupt(0, now));
            |w.db.runs| == 2 && |w.items| == 1 && Published(w.db.runs[1]) && w.db.runs[0].interrupted
  {
  }

  lemma AfterNext(w: World, steps: seq<Step>, n: nat)
    requires n < |steps|
    ensures After(w, steps[..0]) == w
    ensures After(w, steps[..n + 1]) == Next(After(w, steps[..n]), steps[n])
  {
    assert steps[..n + 1][..n] == steps[..n];
  }

  // ---------------------------------------------------------------- histories

  /** No published attempt is newer than the one its item shows. */
  ghost predicate Kept(w: World) {
    forall p | 0 <= p < |w.db.runs| && Published(w.db.runs[p]) :: KeptFor(w, p)
  }

  ghost predicate KeptFor(w: World, p: nat)
    requires p < |w.db.runs|
  {
    var i := w.db.runs[p].item;
    i < |w.items| && w.items[i].lastRun.Some? && p <= w.items[i].lastRun.value
  }

  /** A published attempt of r's item that was started after r. */
  ghost predicate NewerPublished(w: World, r: nat) {
    exists p :: r < p < |w.db.runs| && Published(w.db.runs[p]) && w.db.runs[p].item == w.db.runs[r].item
  }

  /** The step interrupts an attempt, and the record of a newer published one gives way to it. */
  ghost predicate Displaces(w: World, s: Step) {
    s.Interrupt? && Closable(w, s.run) && NewerPublished(w, s.run) && Yields(w, s.run)
  }

  lemma CommitKeepsNewest(w: World, s: Step)
    requires s.Commit? && Inv(w) && Kept(w)
    ensures Kept(Next(w, s))
  {
    if MayPublish(w, s.item) && s.item < |w.items| {
      var w' := Next(w, s);
      AttemptIn(w, s.item);
      var r := w.attempts[s.item].run;
      forall p | 0 <= p < |w'.db.runs| && Published(w'.db.runs[p])
        ensures KeptFor(w', p)
      {
        assert p != r ==> w'.db.runs[p] == w.db.runs[p] && KeptFor(w, p);
      }
    }
  }

  lemma InterruptKeepsNewestIff(w: World, s: Step)
    requires s.Interrupt? && Inv(w) && Kept(w)
    ensures Kept(Next(w, s)) <==> !Displaces(w, s)
  {
    var r, w' := s.run, Next(w, s);
    if Closable(w, r) {
      InterruptionShows(w, r, s.now);
      if Displaces(w, s) {
        var p :| r < p < |w.db.runs| && Published(w.db.runs[p]) && w.db.runs[p].item == w.db.runs[r].item;
        assert w'.db.runs[p] == w.db.runs[p] && !KeptFor(w', p);
      } else {
        forall p | 0 <= p < |w'.db.runs| && Published(w'.db.runs[p])
          ensures KeptFor(w', p)
        {
          assert p != r && w'.db.runs[p] == w.db.runs[p] && KeptFor(w, p);
        }
      }
    }
  }

  /** One transaction leaves no newer result displaced unless it is just such an interruption. */
  lemma StepKeepsNewestIff(w: World, s: Step)
    requires Inv(w) && Kept(w) && !s.Recover?
    ensures Kept(Next(w, s)) <==> !Displaces(w, s)
  {
    if s.Commit? {
      CommitKeepsNewest(w, s);
    } else if s.Interrupt? {
      InterruptKeepsNewestIff(w, s);
    } else {
      var w' := Next(w, s);
      forall p | 0 <= p < |w'.db.runs| && Published(w'.db.runs[p])
        ensures KeptFor(w', p)
      {
        assert p < |w.db.runs| && w'.db.runs[p] == w.db.runs[p] && KeptFor(w, p);
      }
    }
  }

  /** Recovery is spelled out as the interruptions it makes. */
  ghost predicate Single(steps: seq<Step>) {
    forall n | 0 <= n < |steps| :: !steps[n].Recover?
  }

  /** In step n of the history nothing is displaced. */
  ghost predicate SparesAt(items: nat, steps: seq<Step>, n: nat)
    requires n < |steps|
  {
    !Displaces(After(Fresh(items), steps[..n]), steps[n])
  }

  ghost predicate KeptAt(items: nat, steps: seq<Step>, n: nat)
    requires n <= |steps|
  {
    Kept(After(Fresh(items), steps[..n]))
  }

  lemma KeptNext(items: nat, steps: seq<Step>, n: nat)
    requires Single(steps) && n < |steps| && KeptAt(items, steps, n)
    ensures KeptAt(items, steps, n + 1) <==> SparesAt(items, steps, n)
  {
    hide After, Kept, Inv, Displaces;
    ReachableInv(items, steps[..n]);
    StepKeepsNewestIff(After(Fresh(items), steps[..n]), steps[n]);
    AfterNext(Fresh(items), steps, n);
  }

  lemma {:induction false} SparedIsKept(items: nat, steps: seq<Step>, n: nat)
    requires Single(steps) && n <= |steps| && forall m | 0 <= m < n :: SparesAt(items, steps, m)
    ensures KeptAt(items, steps, n)
  {
    if n > 0 {
      SparedIsKept(items, steps, n - 1);
      KeptNext(items, steps, n - 1);
    }
  }

  /**
   Exactly which histories never let an older attempt displace a newer published result: those in
   which every interruption of an attempt with a newer published one finds a record dated after
   the attempt's start. No order of the clock readings is assumed.
   */
  lemma NewerResultKeptIff(items: nat, steps: seq<Step>)
    requires Single(steps)
    ensures (forall n | 0 <= n <= |steps| :: KeptAt(items, steps, n)) <==> (forall n | 0 <= n < |steps| :: SparesAt(items, steps, n))
  {
    if forall n | 0 <= n < |steps| :: SparesAt(items, steps, n) {
      forall n | 0 <= n <= |steps|
        ensures KeptAt(items, steps, n)
      {
        SparedIsKept(items, steps, n);
      }
    }
    if forall n | 0 <= n <= |steps| :: KeptAt(items, steps, n) {
      forall n | 0 <= n < |steps|
        ensures SparesAt(items, steps, n)
      {
        assert KeptAt(items, steps, n) && KeptAt(items, steps, n + 1);
        KeptNext(items, steps, n);
      }
    }
  }

  // ---------------------------------------------------------------- spelling recovery out

  function Interruptions(candidates: seq<Closing>): seq<Step> {
    seq(|candidates|, k requires 0 <= k < |candidates| => Interrupt(candidates[k].run, candidates[k].now))
  }

  lemma {:induction false} RecoveryIsInterruptions(w: World, candidates: seq<Closing>)
    ensures After(w, Interruptions(candidates)) == InterruptAll(w, candidates)
  {
    if candidates != [] {
      var n := |candidates| - 1;
      RecoveryIsInterruptions(w, candidates[..n]);
      assert Interruptions(candidates)[..n] == Interruptions(candidates[..n]);
    }
  }

  lemma {:induction false} AfterJoin(w: World, a: seq<Step>, b: seq<Step>)
    ensures After(w, a + b) == After(After(w, a), b)
    decreases |b|
  {
    if b == [] {
      assert a + b == a;
    } else {
      assert (a + b)[..|a + b| - 1] == a + b[..|b| - 1];
      AfterJoin(w, a, b[..|b| - 1]);
    }
  }

  /** A step as single interruptions, if it is a recovery; as it is otherwise. */
  ghost function Spelling(w: World, s: Step): seq<Step> {
    if !s.Recover? then [s] else if Lists(w, s.candidates, s.before) then Interruptions(s.candidates) else []
  }

  lemma SpellingIsSame(w: World, s: Step)
    ensures Single(Spelling(w, s)) && After(w, Spelling(w, s)) == Next(w, s)
  {
    hide InterruptAll, Lists;
    if s.Recover? {
      RecoveryIsInterruptions(w, s.candidates);
    } else {
      assert [s][..0] == [];
    }
  }

  /** The history with every recovery replaced by its interruptions. */
  ghost function Spelled(w: World, steps: seq<Step>): seq<Step> {
    if steps == [] then []
    else Spelled(w, steps[..|steps| - 1]) + Spelling(After(w, steps[..|steps| - 1]), steps[|steps| - 1])
  }

  /** Every history has the same outcome as one without recoveries, so the exact condition covers them all. */
  lemma {:induction false} SpelledIsSame(w: World, steps: seq<Step>)
    ensures Single(Spelled(w, steps)) && After(w, Spelled(w, steps)) == After(w, steps)
    decreases |steps|
  {
    hide Spelling, Next;
    if steps != [] {
      var front, s := steps[..|steps| - 1], steps[|steps| - 1];
      SpelledIsSame(w, front);
      SpellingIsSame(After(w, front), s);
      AfterJoin(w, Spelled(w, front), Spelling(After(w, front), s));
    }
  }

  // ---------------------------------------------------------------- clocks that never run back

  /** The reading a step stores or compares. */
  function ReadingOf(s: Step): Option<int> {
    match s
    case Begin(_, _, now) => Some(now)
    case Commit(_, _, _, now) => Some(now)
    case Interrupt(_, now) => Some(now)
    case _ => None
  }

  /** The last reading of a history that began at `start`. */
  function Clock(start: int, steps: seq<Step>): int {
    if steps == [] then start
    else
      var reading := ReadingOf(steps[|steps| - 1]);
      if reading.Some? then reading.value else Clock(start, steps[..|steps| - 1])
  }

  predicate Forward(start: int, steps: seq<Step>) {
    steps == []
    || (Forward(start, steps[..|steps| - 1])
        && (ReadingOf(steps[|steps| - 1]).Some? ==>
              Clock(start, steps[..|steps| - 1]) <= ReadingOf(steps[|steps| - 1]).value))
  }

  ghost predicate TimelyRun(w: World, r: nat, clock: int)
    requires r < |w.db.runs|
  {
    var run := w.db.runs[r];
    && run.startedAt <= clock
    && (run.finishedAt.Some? ==> run.startedAt <= run.finishedAt.value <= clock)
    && (Published(run) && run.finishedAt.Some? ==>
          && run.item < |w.items|
          && var item := w.items[run.item];
             item.lastRun.Some? && item.lastRun.value < |w.db.runs| && item.lastRunAt.Some?
             && run.finishedAt.value <= item.lastRunAt.value
             && run.startedAt <= w.db.runs[item.lastRun.value].startedAt)
  }

  /** A live attempt started when, or after, its item's record was written. */
  ghost predicate TimelyAttempt(w: World, i: nat)
    requires i in w.attempts
  {
    i < |w.items| && w.attempts[i].run < |w.db.runs|
    && (w.items[i].lastRunAt.Some? ==> w.items[i].lastRunAt.value <= w.db.runs[w.attempts[i].run].startedAt)
  }

  ghost predicate Timely(w: World, clock: int) {
    && (forall r | 0 <= r < |w.db.runs| :: TimelyRun(w, r, clock))
    && (forall i | i in w.attempts :: TimelyAttempt(w, i))
  }

  lemma TimelyRecord(w: World, i: nat, clock: int)
    requires Inv(w) && Timely(w, clock) && i < |w.items|
    ensures w.items[i].lastRunAt.Some? ==> w.items[i].lastRunAt.value <= clock
  {
    assert ItemOk(w, i);
    if w.items[i].lastRun.Some? {
      assert TimelyRun(w, w.items[i].lastRun.value, clock);
    }
  }

  lemma TimelyBegin(w: World, s: Step, clock: int)
    requires s.Begin? && Inv(w) && Timely(w, clock) && clock <= s.now
    ensures Timely(Next(w, s), s.now)
  {
    var w' := Next(w, s);
    forall r | 0 <= r < |w'.db.runs|
      ensures TimelyRun(w', r, s.now)
    {
      assert r < |w.db.runs| ==> TimelyRun(w, r, clock);
    }
    if s.item < |w.items| {
      TimelyRecord(w, s.item, clock);
    }
    forall i | i in w'.attempts
      ensures TimelyAttempt(w', i)
    {
      assert i in w.attempts ==> TimelyAttempt(w, i);
    }
  }

  lemma TimelyCommit(w: World, s: Step, clock: int)
    requires s.Commit? && Inv(w) && Timely(w, clock) && clock <= s.now
    ensures Timely(Next(w, s), s.now)
  {
    var w' := Next(w, s);
    if MayPublish(w, s.item) && s.item < |w.items| {
      AttemptIn(w, s.item);
      assert TimelyAttempt(w, s.item);
      forall r | 0 <= r < |w'.db.runs|
        ensures TimelyRun(w', r, s.now)
      {
        assert TimelyRun(w, r, clock) && RunOk(w.db, r);
      }
    } else {
      TimelyLater(w, clock, s.now);
    }
    forall i | i in w'.attempts
      ensures TimelyAttempt(w', i)
    {
      AttemptIn(w, i);
      assert TimelyAttempt(w, i);
    }
  }

  lemma TimelyLater(w: World, clock: int, later: int)
    requires Timely(w, clock) && clock <= later
    ensures Timely(w, later)
  {
    forall r | 0 <= r < |w.db.runs|
      ensures TimelyRun(w, r, later)
    {
      assert TimelyRun(w, r, clock);
    }
  }

  lemma TimelyInterrupt(w: World, s: Step, clock: int)
    requires s.Interrupt? && Inv(w) && Timely(w, clock) && clock <= s.now
    ensures Timely(Next(w, s), s.now)
  {
    var w' := Next(w, s);
    if Closable(w, s.run) {
      InterruptionShows(w, s.run, s.now);
      TimelyRecord(w, w.db.runs[s.run].item, clock);
      assert TimelyRun(w, s.run, clock);
      forall r | 0 <= r < |w'.db.runs|
        ensures TimelyRun(w', r, s.now)
      {
        assert TimelyRun(w, r, clock) && RunOk(w.db, r);
      }
    } else {
      TimelyLater(w, clock, s.now);
    }
    forall i | i in w'.attempts
      ensures TimelyAttempt(w', i)
    {
      AttemptIn(w, i);
      assert TimelyAttempt(w, i);
    }
  }

  lemma TimelyOther(w: World, s: Step, clock: int)
    requires Inv(w) && Timely(w, clock) && ReadingOf(s).None? && !s.Recover?
    ensures Timely(Next(w, s), clock)
  {
    var w' := Next(w, s);
    assert w'.db.runs == w.db.runs && w'.items == w.items;
    forall r | 0 <= r < |w'.db.runs|
      ensures TimelyRun(w', r, clock)
    {
      assert TimelyRun(w, r, clock);
    }
    forall i | i in w'.attempts
      ensures TimelyAttempt(w', i)
    {
      assert i in w.attempts && TimelyAttempt(w, i);
    }
  }

  lemma {:induction false} ForwardIsTimely(items: nat, start: int, steps: seq<Step>)
    requires Single(steps) && Forward(start, steps)
    ensures Timely(After(Fresh(items), steps), Clock(start, steps))
    decreases |steps|
  {
    if steps != [] {
      hide Timely, Inv, Next;
      var front, s := steps[..|steps| - 1], steps[|steps| - 1];
      ForwardIsTimely(items, start, front);
      ReachableInv(items, front);
      var w, clock := After(Fresh(items), front), Clock(start, front);
      match s
      case Begin(_, _, _) => TimelyBegin(w, s, clock);
      case Commit(_, _, _, _) => TimelyCommit(w, s, clock);
      case Interrupt(_, _) => TimelyInterrupt(w, s, clock);
      case _ => TimelyOther(w, s, clock);
    }
  }

  /**
   With a clock that never runs back, the attempt an item shows was started no earlier, by the
   clock, than any published attempt of the item.
   */
  lemma NewerResultKept(items: nat, start: int, steps: seq<Step>, p: nat)
    requires Single(steps) && Forward(start, steps)
    requires p < |After(Fresh(items), steps).db.runs| && Published(After(Fresh(items), steps).db.runs[p])
    ensures var w := After(Fresh(items), steps);
            && w.db.runs[p].item < |w.items|
            && var shown := w.items[w.db.runs[p].item].lastRun;
               shown.Some? && shown.value < |w.db.runs| && w.db.runs[p].startedAt <= w.db.runs[shown.value].startedAt
  {
    ReachableInv(items, steps);
    ForwardIsTimely(items, start, steps);
    var w := After(Fresh(items), steps);
    assert RunOk(w.db, p) && TimelyRun(w, p, Clock(start, steps));
  }

  /** Whatever the clocks: once an attempt is published, its item shows a finished attempt of its own. */
  lemma ShowsFinished(items: nat, steps: seq<Step>, p: nat)
    requires p < |After(Fresh(items), steps).db.runs| && Published(After(Fresh(items), steps).db.runs[p])
    ensures var w := After(Fresh(items), steps);
            && w.db.runs[p].item < |w.items|
            && var shown := w.items[w.db.runs[p].item].lastRun;
               shown.Some? && shown.value < |w.db.runs|
               && w.db.runs[shown.value].item == w.db.runs[p].item && w.db.runs[shown.value].status != Running
  {
    ReachableInv(items, steps);
    var w := After(Fresh(items), steps);
    assert Homed(w, p);
    assert ItemOk(w, w.db.runs[p].item);
    assert RunOk(w.db, w.items[w.db.runs[p].item].lastRun.value);
  }
}

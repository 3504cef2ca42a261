/** What one correlation run leaves in the candidate table, whatever pairs it scored. */
module Rescoring {
  import opened Common
  import opened LinkCandidates

  /** The pair has no version yet, or its newest one was scored from other features. */
  predicate Changed(cs: seq<Candidate>, s: Scored) {
    var newest := Newest(cs, s.a, s.b);
    newest.None? || cs[newest.value].digest != s.digest
  }

  /** Row i is the next version of the pair, not yet reviewed, and carries what was scored. */
  ghost predicate AddedFor(cs: seq<Candidate>, i: nat, s: Scored)
    requires i < |cs|
  {
    && Changed(cs[..i], s)
    && cs[i] == Candidate(s.a, s.b, CountPair(cs[..i], s.a, s.b) + 1, Newest(cs[..i], s.a, s.b), s.digest, s.score, Pending)
  }

  ghost predicate SamePair(s: Scored, t: Scored) {
    s.a == t.a && s.b == t.b
  }

  /** The last score of its pair. */
  ghost predicate LastScore(scored: seq<Scored>, k: nat)
    requires k < |scored|
  {
    forall j | k < j < |scored| :: !SamePair(scored[k], scored[j])
  }

  ghost predicate Carries(cs: seq<Candidate>, s: Scored) {
    var newest := Newest(cs, s.a, s.b);
    newest.Some? && cs[newest.value].digest == s.digest
  }

  ghost predicate AddedByRun(cs: seq<Candidate>, i: nat, scored: seq<Scored>)
    requires i < |cs|
  {
    exists k :: 0 <= k < |scored| && AddedFor(cs, i, scored[k])
  }

  /** Old rows stand, every new one was called for, and each scored pair's newest version carries its last score's digest. */
  ghost predicate RunLeaves(before: seq<Candidate>, after: seq<Candidate>, scored: seq<Scored>) {
    && before <= after
    && (forall i | |before| <= i < |after| :: AddedByRun(after, i, scored))
    && (forall k | 0 <= k < |scored| && LastScore(scored, k) :: Carries(after, scored[k]))
  }

  /** A run scores each pair once. */
  ghost predicate Distinct(scored: seq<Scored>) {
    forall j, k | 0 <= j < k < |scored| :: !SamePair(scored[j], scored[k])
  }

  ghost function Where(scored: seq<Scored>, p: Scored -> bool): set<nat> {
    set k | 0 <= k < |scored| && p(scored[k])
  }

  /** The scored pairs without a version, and those whose newest version was scored from other features. */
  ghost function FirstVersions(cs: seq<Candidate>, scored: seq<Scored>): set<nat> {
    Where(scored, (s: Scored) => Newest(cs, s.a, s.b).None?)
  }

  ghost function NewVersions(cs: seq<Candidate>, scored: seq<Scored>): set<nat> {
    Where(scored, (s: Scored) => Newest(cs, s.a, s.b).Some? && Changed(cs, s))
  }

  // ---------------------------------------------------------------- the counters of the loop

  function Created(cs: seq<Candidate>, scored: seq<Scored>): nat {
    if scored == [] then 0
    else
      var front, s := scored[..|scored| - 1], scored[|scored| - 1];
      Created(cs, front) + if Newest(RescoreAll(cs, front), s.a, s.b).None? then 1 else 0
  }

  function Rescored(cs: seq<Candidate>, scored: seq<Scored>): nat {
    if scored == [] then 0
    else
      var front, s := scored[..|scored| - 1], scored[|scored| - 1];
      var table := RescoreAll(cs, front);
      Rescored(cs, front) + if Newest(table, s.a, s.b).Some? && Changed(table, s) then 1 else 0
  }

  lemma NothingCounted(cs: seq<Candidate>)
    ensures Created(cs, []) == 0 && Rescored(cs, []) == 0
  {
  }

  lemma CountersNext(cs: seq<Candidate>, scored: seq<Scored>, i: nat)
    requires i < |scored|
    ensures var s, table := scored[i], RescoreAll(cs, scored[..i]);
            && Created(cs, scored[..i + 1]) == Created(cs, scored[..i]) + (if Newest(table, s.a, s.b).None? then 1 else 0)
            && Rescored(cs, scored[..i + 1])
               == Rescored(cs, scored[..i]) + (if Newest(table, s.a, s.b).Some? && Changed(table, s) then 1 else 0)
  {
    assert scored[..i + 1][..i] == scored[..i];
  }

  /** Rows added as a pair's first version, and as a later one. */
  ghost function RootRows(cs: seq<Candidate>, n: nat): set<nat> {
    set i | n <= i < |cs| && cs[i].supersedes.None?
  }

  ghost function LaterRows(cs: seq<Candidate>, n: nat): set<nat> {
    set i | n <= i < |cs| && cs[i].supersedes.Some?
  }

  // ---------------------------------------------------------------- one pair

  /** A row is added exactly when the pair had no version or its newest was scored from other features. */
  lemma RescoreAddsIff(cs: seq<Candidate>, s: Scored)
    requires Versioned(cs)
    ensures var cs' := Rescore(cs, s);
            && Versioned(cs') && Carries(cs', s)
            && (Changed(cs, s) ==> |cs'| == |cs| + 1 && cs'[..|cs|] == cs && AddedFor(cs', |cs|, s))
            && (!Changed(cs, s) ==> cs' == cs)
  {
    RescoreKeepsVersions(cs, s);
    VersionsCount(cs, s.a, s.b);
  }

  lemma StillAdded(cs: seq<Candidate>, more: seq<Candidate>, i: nat, scored: seq<Scored>, s: Scored)
    requires i < |cs| && cs <= more && AddedByRun(cs, i, scored)
    ensures AddedByRun(more, i, scored + [s])
  {
    var k :| 0 <= k < |scored| && AddedFor(cs, i, scored[k]);
    assert more[..i] == cs[..i];
    assert AddedFor(more, i, (scored + [s])[k]);
  }

  // ---------------------------------------------------------------- the run

  /** What a run does to the table, for every table of version chains and every list of scores. */
  lemma {:induction false} RescoreAllLeaves(cs: seq<Candidate>, scored: seq<Scored>)
    requires Versioned(cs)
    ensures Versioned(RescoreAll(cs, scored))
    ensures RunLeaves(cs, RescoreAll(cs, scored), scored)
    ensures Created(cs, scored) == |RootRows(RescoreAll(cs, scored), |cs|)|
    ensures Rescored(cs, scored) == |LaterRows(RescoreAll(cs, scored), |cs|)|
    ensures Created(cs, scored) + Rescored(cs, scored) == |RescoreAll(cs, scored)| - |cs|
    decreases |scored|
  {
    hide Versioned, Rescore;
    if scored == [] {
      assert RootRows(cs, |cs|) == {} && LaterRows(cs, |cs|) == {};
    } else {
      var front, s := scored[..|scored| - 1], scored[|scored| - 1];
      RescoreAllLeaves(cs, front);
      var before := RescoreAll(cs, front);
      RescoreAddsIff(before, s);
      assert front + [s] == scored;
      LeavesNext(cs, before, Rescore(before, s), front, s);
      RowsNext(|cs|, before, Rescore(before, s), s);
    }
  }

  lemma LeavesNext(cs: seq<Candidate>, before: seq<Candidate>, after: seq<Candidate>, front: seq<Scored>, s: Scored)
    requires Versioned(before) && RunLeaves(cs, before, front) && after == Rescore(before, s)
    ensures RunLeaves(cs, after, front + [s])
  {
    hide Versioned, Newest, AddedFor, AddedByRun, Carries;
    RescoreAddsIff(before, s);
    var scored := front + [s];
    forall i | |cs| <= i < |after|
      ensures AddedByRun(after, i, scored)
    {
      AddedNext(before, after, front, s, i);
    }
    forall k | 0 <= k < |scored| && LastScore(scored, k)
      ensures Carries(after, scored[k])
    {
      if k < |front| {
        assert !SamePair(scored[k], scored[|front|]);
        assert LastScore(front, k) by {
          assert forall j | k < j < |front| :: front[j] == scored[j];
        }
        OtherCarries(before, s, front[k]);
      }
    }
  }

  lemma AddedNext(before: seq<Candidate>, after: seq<Candidate>, front: seq<Scored>, s: Scored, i: nat)
    requires Versioned(before) && after == Rescore(before, s) && i < |after|
    requires i < |before| ==> AddedByRun(before, i, front)
    ensures AddedByRun(after, i, front + [s])
  {
    hide Versioned, Newest, AddedFor, Rescore;
    RescoreAddsIff(before, s);
    RescoreKeepsVersions(before, s);
    if i < |before| {
      StillAdded(before, after, i, front, s);
    } else {
      assert AddedFor(after, i, (front + [s])[|front|]);
    }
  }

  lemma OtherCarries(before: seq<Candidate>, s: Scored, t: Scored)
    requires Versioned(before) && !SamePair(t, s) && Carries(before, t)
    ensures Carries(Rescore(before, s), t)
  {
    RescoreKeepsVersions(before, s);
  }

  lemma RowsNext(n: nat, before: seq<Candidate>, after: seq<Candidate>, s: Scored)
    requires Versioned(before) && after == Rescore(before, s) && n <= |before|
    ensures |RootRows(after, n)| == |RootRows(before, n)| + if Newest(before, s.a, s.b).None? then 1 else 0
    ensures |LaterRows(after, n)|
         == |LaterRows(before, n)| + if Newest(before, s.a, s.b).Some? && Changed(before, s) then 1 else 0
  {
    hide Versioned, Rescore, Newest, RootRows, LaterRows, CountPair;
    RescoreAddsIff(before, s);
    if Changed(before, s) {
      assert after == before + [after[|before|]];
      RowCounted(n, before, after[|before|]);
    }
  }

  lemma RowCounted(n: nat, rows: seq<Candidate>, c: Candidate)
    requires n <= |rows|
    ensures |RootRows(rows + [c], n)| == |RootRows(rows, n)| + if c.supersedes.None? then 1 else 0
    ensures |LaterRows(rows + [c], n)| == |LaterRows(rows, n)| + if c.supersedes.Some? then 1 else 0
  {
    assert RootRows(rows + [c], n) == RootRows(rows, n) + if c.supersedes.None? then {|rows|} else {};
    assert LaterRows(rows + [c], n) == LaterRows(rows, n) + if c.supersedes.Some? then {|rows|} else {};
  }

  // ---------------------------------------------------------------- a run that scores each pair once

  lemma {:induction false} Untouched(cs: seq<Candidate>, scored: seq<Scored>, t: Scored)
    requires Versioned(cs) && forall k | 0 <= k < |scored| :: !SamePair(scored[k], t)
    ensures Newest(RescoreAll(cs, scored), t.a, t.b) == Newest(cs, t.a, t.b)
    ensures Changed(RescoreAll(cs, scored), t) <==> Changed(cs, t)
    decreases |scored|
  {
    hide Versioned, Rescore, Newest;
    RescoreAllLeaves(cs, scored);
    if scored != [] {
      var front := scored[..|scored| - 1];
      Untouched(cs, front, t);
      RescoreAllLeaves(cs, front);
      RescoreKeepsVersions(RescoreAll(cs, front), scored[|scored| - 1]);
    }
    NewestIn(cs, t);
  }

  lemma NewestIn(cs: seq<Candidate>, t: Scored)
    ensures Newest(cs, t.a, t.b).Some? ==> Newest(cs, t.a, t.b).value < |cs|
  {
  }

  /** Then `created` counts the pairs without a version before, and `rescored` those with another digest. */
  lemma {:induction false} RunCounts(cs: seq<Candidate>, scored: seq<Scored>)
    requires Versioned(cs) && Distinct(scored)
    ensures Created(cs, scored) == |FirstVersions(cs, scored)|
    ensures Rescored(cs, scored) == |NewVersions(cs, scored)|
    decreases |scored|
  {
    hide Versioned, Newest, Changed, RescoreAll, FirstVersions, NewVersions;
    NoVersions(cs);
    if scored != [] {
      RunCounts(cs, scored[..|scored| - 1]);
      Untouched(cs, scored[..|scored| - 1], scored[|scored| - 1]);
      VersionsNext(cs, scored);
    }
  }

  lemma RunCountsIf(cs: seq<Candidate>, scored: seq<Scored>)
    requires Versioned(cs)
    ensures Distinct(scored) ==>
              Created(cs, scored) == |FirstVersions(cs, scored)| && Rescored(cs, scored) == |NewVersions(cs, scored)|
  {
    if Distinct(scored) {
      RunCounts(cs, scored);
    }
  }

  lemma NoVersions(cs: seq<Candidate>)
    ensures FirstVersions(cs, []) == {} && NewVersions(cs, []) == {}
  {
  }

  lemma VersionsNext(cs: seq<Candidate>, scored: seq<Scored>)
    requires scored != []
    ensures var front, s := scored[..|scored| - 1], scored[|scored| - 1];
            && |FirstVersions(cs, scored)| == |FirstVersions(cs, front)| + (if Newest(cs, s.a, s.b).None? then 1 else 0)
            && |NewVersions(cs, scored)|
               == |NewVersions(cs, front)| + (if Newest(cs, s.a, s.b).Some? && Changed(cs, s) then 1 else 0)
  {
    WhereNext(scored, (s: Scored) => Newest(cs, s.a, s.b).None?);
    WhereNext(scored, (s: Scored) => Newest(cs, s.a, s.b).Some? && Changed(cs, s));
  }

  lemma WhereNext(scored: seq<Scored>, p: Scored -> bool)
    requires scored != []
    ensures var n := |scored| - 1;
            |Where(scored, p)| == |Where(scored[..n], p)| + if p(scored[n]) then 1 else 0
  {
    var n: nat := |scored| - 1;
    assert Where(scored, p) == Where(scored[..n], p) + if p(scored[n]) then {n} else {};
  }
}

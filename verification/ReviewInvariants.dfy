/**
 What every sequence of reviews and rescoring runs keeps: decisions form chains, and
 candidates, edges, findings and alerts always agree with the heads of those chains.
 */
module ReviewInvariants {
  import opened Common
  import opened Decisions
  import opened LinkCandidates
  import opened CaseReview

  // ---------------------------------------------------------------- the invariant

  ghost function LinkVerdict(db: Db, i: nat): Option<Verdict>
    requires i < |db.candidates|
  {
    HeadVerdict(db.decisions, LinkTarget(db.candidates, i))
  }

  ghost function FindingVerdict(db: Db, i: nat): Option<Verdict>
    requires i < |db.findings|
  {
    HeadVerdict(db.decisions, FindingTargetOf(db.findings, i))
  }

  /** Decisions concern existing rows, at the version those rows carry. */
  ghost predicate TargetOk(db: Db, t: Target) {
    match t.kind
    case Link => t.id < |db.candidates| && t.version == db.candidates[t.id].version
    case FindingTarget => t.id < |db.findings| && t.version == db.findings[t.id].version
    case AlertTarget => t.id < |db.alerts| && t.version == 1
  }

  ghost predicate DecisionsOk(db: Db) {
    && Chained(db.decisions)
    && forall i | 0 <= i < |db.decisions| :: TargetOk(db, db.decisions[i].target)
  }

  ghost predicate CandidateOk(db: Db, i: nat)
    requires i < |db.candidates|
  {
    db.candidates[i].a < db.candidates[i].b && db.candidates[i].status == ReviewStatusOf(LinkVerdict(db, i))
  }

  ghost predicate CandidatesOk(db: Db) {
    Versioned(db.candidates) && forall i | 0 <= i < |db.candidates| :: CandidateOk(db, i)
  }

  ghost predicate Current(db: Db, i: nat)
    requires i < |db.candidates|
  {
    Newest(db.candidates, db.candidates[i].a, db.candidates[i].b) == Some(i)
  }

  /** The possible-operator edge a candidate's head decision calls for. */
  ghost function EdgeFor(db: Db, i: nat): Edge
    requires i < |db.candidates|
  {
    Edge(EdgeStatusOf(LinkVerdict(db, i)), Some(i), Head(db.decisions, LinkTarget(db.candidates, i)), Some(db.candidates[i].score))
  }

  /** A confirmation edge names the candidate it was made for, and stands only on that candidate's head ACCEPT. */
  ghost predicate ConfirmationOk(db: Db, k: Key)
    requires k in db.edges
  {
    var e := db.edges[k];
    && e.candidate.Some? && e.candidate.value < |db.candidates|
    && OfPair(db.candidates[e.candidate.value], k.src, k.dst)
    && (e.status == EdgeRejected
        || (LinkVerdict(db, e.candidate.value) == Some(Accept) && e == EdgeFor(db, e.candidate.value)))
  }

  ghost predicate EdgeOk(db: Db, k: Key)
    requires k in db.edges
  {
    match k.kind
    case AnalystConfirmedRelated => ConfirmationOk(db, k)
    case PossibleSameOperator => Newest(db.candidates, k.src, k.dst).Some?
    case _ => db.edges[k].candidate.None? && (db.edges[k].status == EdgeInfo || db.edges[k].status == EdgeRejected)
  }

  /** An accepted current candidate shows in its confirmation edge. */
  ghost predicate Confirms(db: Db, i: nat)
    requires i < |db.candidates|
  {
    Current(db, i) && LinkVerdict(db, i) == Some(Accept) ==>
      var k := Key(db.candidates[i].a, db.candidates[i].b, AnalystConfirmedRelated);
      k in db.edges && db.edges[k] == EdgeFor(db, i)
  }

  /** A current candidate has its possible-operator edge, saying what its head decision says. */
  ghost predicate Shows(db: Db, i: nat)
    requires i < |db.candidates|
  {
    Current(db, i) ==>
      var k := Key(db.candidates[i].a, db.candidates[i].b, PossibleSameOperator);
      k in db.edges && db.edges[k] == EdgeFor(db, i)
  }

  ghost predicate EdgesOk(db: Db) {
    && (forall k | k in db.edges :: EdgeOk(db, k))
    && (forall i | 0 <= i < |db.candidates| :: Confirms(db, i))
  }

  ghost predicate GraphCurrent(db: Db) {
    forall i | 0 <= i < |db.candidates| :: Shows(db, i)
  }

  /** A finding points at its own head decision and is CONFIRMED exactly when that is ACCEPT. */
  ghost predicate FindingOk(db: Db, i: nat)
    requires i < |db.findings|
  {
    var f := db.findings[i];
    && f.version >= 1
    && f.decision == Head(db.decisions, FindingTargetOf(db.findings, i))
    && (f.kind == Confirmed <==> FindingVerdict(db, i) == Some(Accept))
    && (f.status == Promoted ==> f.kind == Confirmed)
    && (f.supersedes.Some? ==> f.supersedes.value < i && db.findings[f.supersedes.value].status == Retired
                               && f.version == db.findings[f.supersedes.value].version + 1)
  }

  ghost predicate FindingsOk(db: Db) {
    forall i | 0 <= i < |db.findings| :: FindingOk(db, i)
  }

  ghost predicate AlertStatusFits(status: AlertStatus, v: Option<Verdict>) {
    match v
    case None => status == AlertOpen
    case Some(Accept) => status == Acknowledged || status == Escalated
    case Some(verdict) => status == AlertStatusOf(verdict)
  }

  ghost predicate AlertOk(db: Db, i: nat)
    requires i < |db.alerts|
  {
    var a := db.alerts[i];
    && a.decision == Head(db.decisions, AlertTargetOf(i))
    && AlertStatusFits(a.status, HeadVerdict(db.decisions, AlertTargetOf(i)))
    && (a.status == Escalated ==> a.finding.Some?)
    && (a.finding.Some? ==> a.decision.Some?)
    && (a.finding.Some? ==> a.finding.value < |db.findings| && db.findings[a.finding.value].evidence <= a.evidence)
  }

  ghost predicate AlertsOk(db: Db) {
    forall i | 0 <= i < |db.alerts| :: AlertOk(db, i)
  }

  ghost predicate Inv(db: Db) {
    DecisionsOk(db) && CandidatesOk(db) && EdgesOk(db) && GraphCurrent(db) && FindingsOk(db) && AlertsOk(db)
  }

  // ---------------------------------------------------------------- decisions on links

  /** What a new decision leaves alone: every other target. */
  lemma InsertFrame(db: Db, t: Target, v: Verdict, db': Db)
    requires DecisionsOk(db) && TargetOk(db, t)
    requires db'.decisions == Insert(db.decisions, t, v)
    requires |db'.candidates| == |db.candidates| && |db'.findings| == |db.findings| && |db'.alerts| == |db.alerts|
    requires forall i | 0 <= i < |db.candidates| :: db'.candidates[i].version == db.candidates[i].version
    requires forall i | 0 <= i < |db.findings| :: db'.findings[i].version == db.findings[i].version
    ensures DecisionsOk(db')
    ensures forall u :: Head(db'.decisions, u) == if u == t then Some(|db.decisions|) else Head(db.decisions, u)
    ensures forall u :: HeadVerdict(db'.decisions, u) == if u == t then Some(v) else HeadVerdict(db.decisions, u)
  {
    InsertKeepsChains(db.decisions, t, v);
    forall i | 0 <= i < |db'.decisions|
      ensures TargetOk(db', db'.decisions[i].target)
    {
      assert i < |db.decisions| ==> db'.decisions[i] == db.decisions[i] && TargetOk(db, db.decisions[i].target);
    }
  }

  lemma DecideLinkKeeps(db: Db, id: nat, v: Verdict)
    requires Inv(db) && id < |db.candidates| && Current(db, id)
    ensures Inv(DecideLink(db, id, v))
  {
    var db' := DecideLink(db, id, v);
    var t := LinkTarget(db.candidates, id);
    InsertFrame(db, t, v, db');
    var status := ReviewStatusOf(Some(v));
    StatusKeepsVersions(db.candidates, id, status);
    forall a: nat, b: nat
      ensures Newest(db'.candidates, a, b) == Newest(db.candidates, a, b)
    {
      StatusKeepsNewest(db.candidates, id, status, a, b);
    }
    forall i | 0 <= i < |db.candidates|
      ensures VerdictAfter(db, id, v, db', i)
      ensures CandidateOk(db', i)
    {
      assert CandidateOk(db, i);
    }
    DecideLinkEdges(db, id, v, db');
    OtherRowsKept(db, db', t);
  }

  /** Findings and alerts do not notice decisions on other targets. */
  lemma OtherRowsKept(db: Db, db': Db, t: Target)
    requires FindingsOk(db) && AlertsOk(db)
    requires db'.findings == db.findings && db'.alerts == db.alerts
    requires t.kind == Link
    requires forall u | u != t :: Head(db'.decisions, u) == Head(db.decisions, u)
    requires forall u | u != t :: HeadVerdict(db'.decisions, u) == HeadVerdict(db.decisions, u)
    ensures FindingsOk(db') && AlertsOk(db')
  {
    forall i | 0 <= i < |db.findings|
      ensures FindingOk(db', i)
    {
      assert FindingOk(db, i);
    }
    forall i | 0 <= i < |db.alerts|
      ensures AlertOk(db', i)
    {
      assert AlertOk(db, i);
    }
  }

  /** What DecideLink changes, in the terms of the invariant. */
  ghost predicate LinkDecided(db: Db, id: nat, v: Verdict, db': Db)
    requires id < |db.candidates|
  {
    && db' == DecideLink(db, id, v)
    && (forall a: nat, b: nat :: Newest(db'.candidates, a, b) == Newest(db.candidates, a, b))
    && (forall i | 0 <= i < |db.candidates| :: VerdictAfter(db, id, v, db', i))
  }

  ghost predicate VerdictAfter(db: Db, id: nat, v: Verdict, db': Db, i: nat)
    requires id < |db.candidates| == |db'.candidates| && i < |db.candidates|
  {
    && LinkVerdict(db', i) == (if i == id then Some(v) else LinkVerdict(db, i))
    && EdgeFor(db', i) == (if i == id then Edge(EdgeStatusOf(Some(v)), Some(id), Some(|db.decisions|), Some(db.candidates[id].score))
                           else EdgeFor(db, i))
  }

  lemma DecidedEdge(db: Db, id: nat, v: Verdict, db': Db, k: Key)
    requires id < |db.candidates| && Current(db, id) && LinkDecided(db, id, v, db')
    requires k in db'.edges && (k in db.edges ==> EdgeOk(db, k))
    ensures EdgeOk(db', k)
  {
    var c := db.candidates[id];
    assert VerdictAfter(db, id, v, db', id);
    if k.kind == AnalystConfirmedRelated {
      if k in db.edges {
        var basis := db.edges[k].candidate.value;
        assert VerdictAfter(db, id, v, db', basis);
      }
      if k == Key(c.a, c.b, AnalystConfirmedRelated) {
        assert ConfirmationOk(db', k);
      } else {
        // An edge of another pair stands on a candidate of that pair.
        assert k in db.edges && ConfirmationOk(db', k);
      }
    }
  }

  lemma DecidedCandidate(db: Db, id: nat, v: Verdict, db': Db, i: nat)
    requires id < |db.candidates| && Current(db, id) && LinkDecided(db, id, v, db')
    requires i < |db.candidates| && Confirms(db, i) && Shows(db, i)
    ensures Confirms(db', i) && Shows(db', i)
  {
    assert VerdictAfter(db, id, v, db', i);
  }

  lemma DecideLinkEdges(db: Db, id: nat, v: Verdict, db': Db)
    requires Inv(db) && id < |db.candidates| && Current(db, id)
    requires LinkDecided(db, id, v, db')
    ensures EdgesOk(db') && GraphCurrent(db')
  {
    forall k | k in db'.edges
      ensures EdgeOk(db', k)
    {
      assert k in db.edges ==> EdgeOk(db, k);
      DecidedEdge(db, id, v, db', k);
    }
    forall i | 0 <= i < |db.candidates|
      ensures Confirms(db', i) && Shows(db', i)
    {
      assert Confirms(db, i) && Shows(db, i);
      DecidedCandidate(db, id, v, db', i);
    }
  }

  // ---------------------------------------------------------------- decisions on findings and alerts

  /** Candidates and edges only depend on decisions on links. */
  lemma LinkSideKept(db: Db, db': Db)
    requires CandidatesOk(db) && EdgesOk(db) && GraphCurrent(db)
    requires db'.candidates == db.candidates && db'.edges == db.edges
    requires forall u: Target | u.kind == Link :: Head(db'.decisions, u) == Head(db.decisions, u)
    requires forall u: Target | u.kind == Link :: HeadVerdict(db'.decisions, u) == HeadVerdict(db.decisions, u)
    ensures CandidatesOk(db') && EdgesOk(db') && GraphCurrent(db')
  {
    forall i | 0 <= i < |db.candidates|
      ensures EdgeFor(db', i) == EdgeFor(db, i)
      ensures CandidateOk(db', i) && Confirms(db', i) && Shows(db', i)
    {
      assert CandidateOk(db, i) && Confirms(db, i) && Shows(db, i);
    }
    forall k | k in db'.edges
      ensures EdgeOk(db', k)
    {
      assert EdgeOk(db, k);
    }
  }

  lemma DecideFindingKeeps(db: Db, id: nat, v: Verdict)
    requires Inv(db) && id < |db.findings| && db.findings[id].status != Retired
    ensures Inv(DecideFinding(db, id, v))
  {
    hide Insert, Head, HeadVerdict;
    var db' := DecideFinding(db, id, v);
    var t := FindingTargetOf(db.findings, id);
    InsertFrame(db, t, v, db');
    LinkSideKept(db, db');
    forall i | 0 <= i < |db.findings|
      ensures FindingOk(db', i)
    {
      assert FindingOk(db, i);
    }
    forall i | 0 <= i < |db.alerts|
      ensures AlertOk(db', i)
    {
      assert AlertOk(db, i);
    }
  }

  lemma DecideAlertKeeps(db: Db, id: nat, v: Verdict)
    requires Inv(db) && id < |db.alerts|
    ensures Inv(DecideAlert(db, id, v))
  {
    hide Insert, Head, HeadVerdict;
    var db' := DecideAlert(db, id, v);
    InsertFrame(db, AlertTargetOf(id), v, db');
    LinkSideKept(db, db');
    forall i | 0 <= i < |db.findings|
      ensures FindingOk(db', i)
    {
      assert FindingOk(db, i);
    }
    forall i | 0 <= i < |db.alerts|
      ensures AlertOk(db', i)
    {
      assert AlertOk(db, i);
    }
  }

  lemma DecideKeeps(db: Db, q: Request)
    requires Inv(db)
    ensures Inv(Decide(db, q))
  {
    if DecideRefusal(db, q).None? {
      match q.kind
      case Link => DecideLinkKeeps(db, q.id, q.verdict);
      case FindingTarget => DecideFindingKeeps(db, q.id, q.verdict);
      case AlertTarget => DecideAlertKeeps(db, q.id, q.verdict);
    }
  }

  // ---------------------------------------------------------------- findings

  /** Rows appended to the findings table, with older rows at most retired. */
  ghost predicate FindingsGrow(db: Db, db': Db) {
    && db' == db.(findings := db'.findings)
    && |db.findings| <= |db'.findings|
    && forall i | 0 <= i < |db.findings| ::
         db'.findings[i] == db.findings[i] || db'.findings[i] == db.findings[i].(status := Retired)
  }

  lemma NoDecisionYet(db: Db, t: Target)
    requires DecisionsOk(db) && !TargetOk(db, t)
    ensures Head(db.decisions, t).None?
  {
  }

  lemma GrowKeeps(db: Db, db': Db)
    requires Inv(db) && FindingsGrow(db, db')
    requires forall i | |db.findings| <= i < |db'.findings| :: FindingOk(db', i)
    ensures Inv(db')
  {
    forall i | 0 <= i < |db.decisions|
      ensures TargetOk(db', db'.decisions[i].target)
    {
      assert TargetOk(db, db.decisions[i].target);
    }
    LinkSideKept(db, db');
    forall i | 0 <= i < |db'.findings|
      ensures FindingOk(db', i)
    {
      assert i < |db.findings| ==> FindingOk(db, i);
    }
    forall i | 0 <= i < |db.alerts|
      ensures AlertOk(db', i)
    {
      assert AlertOk(db, i);
    }
  }

  lemma CreateKeeps(db: Db, d: Submission)
    requires Inv(db)
    ensures Inv(CreateFinding(db, d))
  {
    if DraftRefusal(d).None? {
      var db' := CreateFinding(db, d);
      NoDecisionYet(db, Target(FindingTarget, |db.findings|, 1));
      GrowKeeps(db, db');
    }
  }

  lemma ReplaceFacts(db: Db, id: nat, d: Submission)
    requires Inv(db) && ReplaceRefusal(db, id, d).None?
    ensures id < |db.findings| && FindingOk(db, id) && DecisionsOk(db)
    ensures db.findings[id].status != Retired
  {
  }

  lemma ReplaceKeeps(db: Db, id: nat, d: Submission)
    requires Inv(db)
    ensures Inv(Replace(db, id, d))
  {
    hide Inv, Head;
    if ReplaceRefusal(db, id, d).None? {
      ReplaceFacts(db, id, d);
      var db' := Replace(db, id, d);
      NoDecisionYet(db, Target(FindingTarget, |db.findings|, db.findings[id].version + 1));
      GrowKeeps(db, db');
    }
  }

  lemma PromoteKeeps(db: Db, id: nat, decision: nat)
    requires Inv(db)
    ensures Inv(Promote(db, id, decision))
  {
    if PromoteRefusal(db, id, decision).None? {
      var db' := Promote(db, id, decision);
      LatestIsHead(db.decisions, FindingTargetOf(db.findings, id));
      forall i | 0 <= i < |db.decisions|
        ensures TargetOk(db', db'.decisions[i].target)
      {
        assert TargetOk(db, db.decisions[i].target);
      }
      LinkSideKept(db, db');
      forall i | 0 <= i < |db.findings|
        ensures FindingOk(db', i)
      {
        assert FindingOk(db, i) && FindingOk(db, id);
      }
      forall i | 0 <= i < |db.alerts|
        ensures AlertOk(db', i)
      {
        assert AlertOk(db, i);
      }
    }
  }

  // ---------------------------------------------------------------- alerts

  /** Replacing or adding alert rows that agree with their decisions. */
  lemma AlertsChange(db: Db, db': Db)
    requires Inv(db) && db' == db.(alerts := db'.alerts) && |db.alerts| <= |db'.alerts|
    requires AlertsOk(db')
    ensures Inv(db')
  {
    forall i | 0 <= i < |db.decisions|
      ensures TargetOk(db', db'.decisions[i].target)
    {
      assert TargetOk(db, db.decisions[i].target);
    }
    LinkSideKept(db, db');
    forall i | 0 <= i < |db.findings|
      ensures FindingOk(db', i)
    {
      assert FindingOk(db, i);
    }
  }

  lemma AttachKeeps(db: Db, id: nat, claim: string, evidence: set<nat>)
    requires Inv(db)
    ensures Inv(Attach(db, id, claim, evidence))
  {
    var db' := Attach(db, id, claim, evidence);
    forall i | 0 <= i < |db'.alerts|
      ensures AlertOk(db', i)
    {
      assert AlertOk(db, i);
    }
    AlertsChange(db, db');
  }

  lemma RaiseKeeps(db: Db, claim: string, evidence: set<nat>, overflow: bool)
    requires Inv(db)
    ensures Inv(RaiseAlert(db, claim, evidence, overflow))
  {
    var db' := RaiseAlert(db, claim, evidence, overflow);
    NoDecisionYet(db, AlertTargetOf(|db.alerts|));
    forall i | 0 <= i < |db'.alerts|
      ensures AlertOk(db', i)
    {
      assert i < |db.alerts| ==> AlertOk(db, i);
    }
    AlertsChange(db, db');
  }

  lemma HandleKeeps(db: Db, id: nat, action: AlertAction, rationale: string, usable: bool)
    requires Inv(db)
    ensures Inv(Handle(db, id, action, rationale, usable))
  {
    if HandleRefusal(db, id, action, rationale, usable).None? {
      var q := AlertRequest(id, action, rationale);
      DecideKeeps(db, q);
      if action == Escalate {
        var decided := Decide(db, q);
        var d := EscalationDraft(db.alerts[id], usable);
        CreateKeeps(decided, d);
        var created := CreateFinding(decided, d);
        EscalatedKeeps(created, id, |db.findings|);
      }
    }
  }

  /** An alert whose decision is an escalation takes the finding that carries its evidence. */
  lemma EscalatedKeeps(db: Db, id: nat, finding: nat)
    requires Inv(db) && id < |db.alerts| && finding < |db.findings|
    requires HeadVerdict(db.decisions, AlertTargetOf(id)) == Some(Accept)
    requires db.findings[finding].evidence <= db.alerts[id].evidence
    ensures Inv(db.(alerts := db.alerts[id := db.alerts[id].(status := Escalated, finding := Some(finding))]))
  {
    hide Head, DecisionsOk, CandidatesOk, EdgesOk, GraphCurrent, FindingsOk;
    var db' := db.(alerts := db.alerts[id := db.alerts[id].(status := Escalated, finding := Some(finding))]);
    forall i | 0 <= i < |db.alerts|
      ensures AlertOk(db', i)
    {
      assert AlertOk(db, i);
    }
    AlertsChange(db, db');
  }

  // ---------------------------------------------------------------- rescoring

  /** Everything but the possible-operator edges, which the run rewrites at its end. */
  ghost predicate BeforeGraph(db: Db) {
    DecisionsOk(db) && CandidatesOk(db) && EdgesOk(db) && FindingsOk(db) && AlertsOk(db)
  }

  lemma RescoreKeeps(db: Db, s: Scored)
    requires BeforeGraph(db) && s.a < s.b
    ensures BeforeGraph(db.(candidates := Rescore(db.candidates, s)))
  {
    var db' := db.(candidates := Rescore(db.candidates, s));
    RescoreKeepsVersions(db.candidates, s);
    if db' != db {
      var n := |db.candidates|;
      assert forall i | 0 <= i < n :: db'.candidates[i] == db.candidates[i];
      NoDecisionYet(db, LinkTarget(db'.candidates, n));
      forall i | 0 <= i < |db.decisions|
        ensures TargetOk(db', db'.decisions[i].target)
      {
        assert TargetOk(db, db.decisions[i].target);
      }
      forall i | 0 <= i < |db'.candidates|
        ensures CandidateOk(db', i) && Confirms(db', i)
      {
        if i < n {
          assert CandidateOk(db, i) && Confirms(db, i);
          assert EdgeFor(db', i) == EdgeFor(db, i);
        }
      }
      forall k | k in db'.edges
        ensures EdgeOk(db', k)
      {
        assert EdgeOk(db, k);
        if k.kind == AnalystConfirmedRelated {
          assert EdgeFor(db', db.edges[k].candidate.value) == EdgeFor(db, db.edges[k].candidate.value);
        }
      }
      FindingsAndAlertsKept(db, db');
    }
  }

  lemma FindingsAndAlertsKept(db: Db, db': Db)
    requires FindingsOk(db) && AlertsOk(db)
    requires db'.decisions == db.decisions && db'.findings == db.findings && db'.alerts == db.alerts
    ensures FindingsOk(db') && AlertsOk(db')
  {
    forall i | 0 <= i < |db.findings|
      ensures FindingOk(db', i)
    {
      assert FindingOk(db, i);
    }
    forall i | 0 <= i < |db.alerts|
      ensures AlertOk(db', i)
    {
      assert AlertOk(db, i);
    }
  }

  lemma {:induction false} RescoreAllKeeps(db: Db, scored: seq<Scored>)
    requires BeforeGraph(db) && forall i | 0 <= i < |scored| :: scored[i].a < scored[i].b
    ensures BeforeGraph(db.(candidates := RescoreAll(db.candidates, scored)))
    decreases |scored|
  {
    if scored != [] {
      var front := scored[..|scored| - 1];
      RescoreAllKeeps(db, front);
      RescoreKeeps(db.(candidates := RescoreAll(db.candidates, front)), scored[|scored| - 1]);
    }
  }

  lemma CurrentEdgeIsEdgeFor(db: Db, i: nat)
    requires DecisionsOk(db) && i < |db.candidates|
    ensures CurrentEdge(db, i) == EdgeFor(db, i)
  {
    LatestIsHead(db.decisions, LinkTarget(db.candidates, i));
  }

  lemma CurrentKeysIff(db: Db, k: Key)
    requires CandidatesOk(db)
    ensures k in CurrentKeys(db.candidates) <==> k.kind == PossibleSameOperator && Newest(db.candidates, k.src, k.dst).Some?
  {
    if k.kind == PossibleSameOperator && Newest(db.candidates, k.src, k.dst).Some? {
      LatestLinkIsNewest(db.candidates, Newest(db.candidates, k.src, k.dst).value);
    }
  }

  /** Whatever the graph said before, after materialising it shows every current candidate as decided. */
  lemma MaterialiseKeeps(db: Db, derived: set<Key>)
    requires BeforeGraph(db) && forall k | k in derived :: Derived(k.kind)
    ensures Inv(Materialise(db, derived))
  {
    var db' := Materialise(db, derived);
    forall i | 0 <= i < |db.candidates|
      ensures CandidateOk(db', i) && Confirms(db', i) && Shows(db', i)
    {
      assert CandidateOk(db, i) && Confirms(db, i);
      assert EdgeFor(db', i) == EdgeFor(db, i);
      CurrentKeysIff(db, Key(db.candidates[i].a, db.candidates[i].b, PossibleSameOperator));
      CurrentKeysIff(db, Key(db.candidates[i].a, db.candidates[i].b, AnalystConfirmedRelated));
      CurrentEdgeIsEdgeFor(db, i);
    }
    forall k | k in db'.edges
      ensures EdgeOk(db', k)
    {
      CurrentKeysIff(db, k);
      assert k in db.edges ==> EdgeOk(db, k);
      if k.kind == AnalystConfirmedRelated {
        assert EdgeFor(db', db.edges[k].candidate.value) == EdgeFor(db, db.edges[k].candidate.value);
      }
    }
    forall i | 0 <= i < |db.decisions|
      ensures TargetOk(db', db'.decisions[i].target)
    {
      assert TargetOk(db, db.decisions[i].target);
    }
    FindingsAndAlertsKept(db, db');
  }

  // ---------------------------------------------------------------- every run

  lemma RunKeeps(db: Db, scored: seq<Scored>, derived: set<Key>)
    requires Inv(db) && RunInput(scored, derived)
    ensures Inv(RunCase(db, scored, derived))
  {
    hide RescoreAll, Materialise;
    RescoreAllKeeps(db, scored);
    MaterialiseKeeps(db.(candidates := RescoreAll(db.candidates, scored)), derived);
  }

  /** Each transaction keeps the invariant. */
  lemma StepKeeps(db: Db, s: Step)
    requires Inv(db)
    ensures Inv(Next(db, s))
  {
    hide Inv, Decide, CreateFinding, Promote, Replace, RaiseAlert, Attach, Handle, RunCase, RunInput;
    match s
    case DoDecide(request) => DecideKeeps(db, request);
    case DoCreate(draft) => CreateKeeps(db, draft);
    case DoPromote(finding, decision) => PromoteKeeps(db, finding, decision);
    case DoReplace(original, replacement) => ReplaceKeeps(db, original, replacement);
    case DoAlert(claim, evidence, overflow) => RaiseKeeps(db, claim, evidence, overflow);
    case DoAttach(alert, claim, evidence) => AttachKeeps(db, alert, claim, evidence);
    case DoHandle(alert, action, rationale, usable) => HandleKeeps(db, alert, action, rationale, usable);
    case DoRun(scored, derived) =>
      if RunInput(scored, derived) {
        RunKeeps(db, scored, derived);
      }
  }

  /** For callers that may or may not start from an agreeing state. */
  lemma StepKeepsIf(db: Db, s: Step)
    ensures Inv(db) ==> Inv(Next(db, s))
  {
    if Inv(db) {
      StepKeeps(db, s);
    }
  }

  /** Every sequence of decisions, promotions, replacements, alerts and rescoring runs keeps it. */
  lemma {:induction false} ReachableInv(steps: seq<Step>)
    ensures Inv(After(steps))
    decreases |steps|
  {
    if steps != [] {
      ReachableInv(steps[..|steps| - 1]);
      StepKeeps(After(steps[..|steps| - 1]), steps[|steps| - 1]);
    }
  }

  // ---------------------------------------------------------------- what readers may rely on

  /** The rows a graph query selects. */
  predicate Selected(db: Db, k: Key, includePending: bool, includeRejected: bool) {
    && k in db.edges
    && (includePending || db.edges[k].status != EdgePending)
    && (includeRejected || db.edges[k].status != EdgeRejected)
    && (db.edges[k].candidate.None?
        || (db.edges[k].candidate.value < |db.candidates| && IsLatestLink(db.candidates, db.edges[k].candidate.value)))
  }

  /**
   In every reachable state an edge that any graph query returns as CONFIRMED is a link edge
   whose candidate is the pair's latest version, and whose decision is the unsuperseded one
   for exactly that version, an ACCEPT.
   */
  lemma ConfirmedEdgeIsAccepted(steps: seq<Step>, k: Key, includePending: bool, includeRejected: bool)
    requires var db := After(steps); Selected(db, k, includePending, includeRejected) && db.edges[k].status == EdgeConfirmed
    ensures var db := After(steps);
            var e := db.edges[k];
            && e.candidate.Some? && e.candidate == Newest(db.candidates, k.src, k.dst)
            && e.decision.Some? && e.decision.value < |db.decisions| && e.decision == Latest(db.decisions, LinkTarget(db.candidates, e.candidate.value))
            && !Superseded(db.decisions, e.decision.value)
            && db.decisions[e.decision.value].verdict == Accept
  {
    var db := After(steps);
    ReachableInv(steps);
    assert EdgeOk(db, k);
    if k.kind == PossibleSameOperator {
      assert Shows(db, Newest(db.candidates, k.src, k.dst).value);
    } else {
      LatestLinkIsNewest(db.candidates, db.edges[k].candidate.value);
    }
    var t := LinkTarget(db.candidates, db.edges[k].candidate.value);
    LatestIsHead(db.decisions, t);
    SupersededIffNotHead(db.decisions, db.edges[k].decision.value);
  }

  /** Conversely, a current candidate is accepted exactly when both of its edges are selected as CONFIRMED. */
  lemma AcceptedCandidateIsConfirmed(steps: seq<Step>, i: nat, includePending: bool, includeRejected: bool)
    requires var db := After(steps); i < |db.candidates| && IsLatestLink(db.candidates, i)
    ensures var db := After(steps);
            var c := db.candidates[i];
            var accepted := HeadVerdict(db.decisions, LinkTarget(db.candidates, i)) == Some(Accept);
            forall kind | kind == PossibleSameOperator || kind == AnalystConfirmedRelated ::
              var k := Key(c.a, c.b, kind);
              accepted <==> Selected(db, k, includePending, includeRejected) && db.edges[k].status == EdgeConfirmed
  {
    var db := After(steps);
    var c := db.candidates[i];
    ReachableInv(steps);
    LatestLinkIsNewest(db.candidates, i);
    assert Confirms(db, i) && Shows(db, i);
    var k := Key(c.a, c.b, AnalystConfirmedRelated);
    if Selected(db, k, includePending, includeRejected) && db.edges[k].status == EdgeConfirmed {
      assert EdgeOk(db, k);
      LatestLinkIsNewest(db.candidates, db.edges[k].candidate.value);
    }
  }

  /** A rescore withdraws the confirmation: until its new version is decided, no query returns the pair as CONFIRMED. */
  lemma RescoreWithdrawsConfirmation(steps: seq<Step>, scored: seq<Scored>, derived: set<Key>, i: nat,
                                     k: Key, includePending: bool, includeRejected: bool)
    requires RunInput(scored, derived)
    requires var db := Next(After(steps), DoRun(scored, derived));
             && |After(steps).candidates| <= i < |db.candidates| && IsLatestLink(db.candidates, i)
             && k.src == db.candidates[i].a && k.dst == db.candidates[i].b
    ensures var db := Next(After(steps), DoRun(scored, derived));
            Selected(db, k, includePending, includeRejected) ==> db.edges[k].status != EdgeConfirmed
  {
    var all := steps + [DoRun(scored, derived)];
    assert all[..|steps|] == steps;
    var db := Next(After(steps), DoRun(scored, derived));
    assert After(all) == db;
    if Selected(db, k, includePending, includeRejected) && db.edges[k].status == EdgeConfirmed {
      ConfirmedEdgeIsAccepted(all, k, includePending, includeRejected);
      ReachableInv(all);
      LatestLinkIsNewest(db.candidates, i);
      ReachableInv(steps);
      NoDecisionYet(After(steps), LinkTarget(db.candidates, i));
      LatestIsHead(db.decisions, LinkTarget(db.candidates, i));
      assert false;
    }
  }

  /**
   In every reachable state a finding is CONFIRMED exactly when the unsuperseded decision for
   its own version is ACCEPT, its decision_id is that decision, and only CONFIRMED findings
   are promoted.
   */
  lemma ConfirmedFindingIsAccepted(steps: seq<Step>, i: nat)
    requires i < |After(steps).findings|
    ensures var db := After(steps);
            var f := db.findings[i];
            var head := Latest(db.decisions, FindingTargetOf(db.findings, i));
            && f.decision == head
            && (f.kind == Confirmed <==> head.Some? && head.value < |db.decisions| && db.decisions[head.value].verdict == Accept)
            && (f.status == Promoted ==> f.kind == Confirmed)
  {
    var db := After(steps);
    ReachableInv(steps);
    assert FindingOk(db, i);
    LatestIsHead(db.decisions, FindingTargetOf(db.findings, i));
  }
}

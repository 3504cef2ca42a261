/** What each review request does to the tables, and when it is refused, request by request. */
module ReviewOutcomes {
  import opened Common
  import opened Decisions
  import opened LinkCandidates
  import opened CaseReview

  /** A decision of the target stands: none supersedes it. */
  ghost predicate Stands(ds: seq<Decision>, t: Target, i: nat) {
    i < |ds| && ds[i].target == t && forall j | 0 <= j < |ds| :: ds[j].supersedes != Some(i)
  }

  ghost predicate Decided(ds: seq<Decision>, t: Target) {
    exists i :: Stands(ds, t, i)
  }

  lemma {:induction false} LatestStands(ds: seq<Decision>, t: Target, n: nat)
    requires n <= |ds|
    ensures LatestBelow(ds, t, n).Some? ==> LatestBelow(ds, t, n).value < n && Stands(ds, t, LatestBelow(ds, t, n).value)
    ensures LatestBelow(ds, t, n).None? ==> forall i | 0 <= i < n :: !Stands(ds, t, i)
  {
    if n > 0 {
      LatestStands(ds, t, n - 1);
    }
  }

  /** The query's answer is the last decision that stands. */
  lemma LatestIsStanding(ds: seq<Decision>, t: Target)
    ensures Latest(ds, t).Some? <==> Decided(ds, t)
    ensures Latest(ds, t).Some? ==> Stands(ds, t, Latest(ds, t).value)
  {
    LatestStands(ds, t, |ds|);
  }

  // ---------------------------------------------------------------- when a decision is refused

  ghost predicate BadRationale(q: Request) {
    q.rationale == "" || |q.rationale| > 10000 || ((q.verdict == Accept || q.verdict == Reject) && |q.rationale| < 10)
  }

  ghost predicate Missing(db: Db, q: Request) {
    match q.kind
    case Link => q.id >= |db.candidates|
    case FindingTarget => q.id >= |db.findings|
    case AlertTarget => q.id >= |db.alerts|
  }

  /** A newer version of the pair exists, or the finding has been retired. */
  ghost predicate Outdated(db: Db, q: Request)
    requires !Missing(db, q)
  {
    match q.kind
    case Link =>
      var c := db.candidates[q.id];
      exists j :: 0 <= j < |db.candidates| && OfPair(db.candidates[j], c.a, c.b) && db.candidates[j].version > c.version
    case FindingTarget => db.findings[q.id].status == Retired
    case AlertTarget => false
  }

  ghost function Targeted(db: Db, q: Request): Target
    requires !Missing(db, q)
  {
    match q.kind
    case Link => Target(Link, q.id, db.candidates[q.id].version)
    case FindingTarget => Target(FindingTarget, q.id, db.findings[q.id].version)
    case AlertTarget => Target(AlertTarget, q.id, 1)
  }

  /** A target known and current, and asked for in its own version. */
  ghost predicate Current(db: Db, q: Request)
    requires !Missing(db, q)
  {
    !Outdated(db, q) && (q.version.None? || q.version.value == Targeted(db, q).version)
  }

  lemma OutdatedIff(db: Db, q: Request)
    requires Versioned(db.candidates) && !Missing(db, q)
    ensures TargetRefusal(db, q.kind, q.id) == if Outdated(db, q) then Some(Conflict) else None
    ensures !Outdated(db, q) ==> TargetOf(db, q.kind, q.id) == Targeted(db, q)
  {
    if q.kind == Link {
      LatestLinkIsNewest(db.candidates, q.id);
    }
  }

  /** Every refusal of a decision with its exact condition. */
  lemma DecisionRefusedIff(db: Db, q: Request)
    requires Versioned(db.candidates)
    ensures var refusal := DecideRefusal(db, q);
            && (refusal == Some(Validation) <==> BadRationale(q))
            && (refusal == Some(NotFound) <==> !BadRationale(q) && Missing(db, q))
            && (refusal == Some(Conflict) <==>
                  !BadRationale(q) && !Missing(db, q)
                  && (!Current(db, q) || (Decided(db.decisions, Targeted(db, q)) && !q.supersede)))
            && (refusal == Some(Forbidden) <==>
                  !BadRationale(q) && !Missing(db, q) && Current(db, q)
                  && Decided(db.decisions, Targeted(db, q)) && q.supersede && !q.maySupersede)
            && (refusal == None <==>
                  !BadRationale(q) && !Missing(db, q) && Current(db, q)
                  && (Decided(db.decisions, Targeted(db, q)) ==> q.supersede && q.maySupersede))
  {
    hide Latest, Newest, Outdated;
    if !Missing(db, q) {
      OutdatedIff(db, q);
      LatestIsStanding(db.decisions, Targeted(db, q));
    }
  }

  // ---------------------------------------------------------------- what an admitted decision writes

  /** One row: the verdict on this version of the target, in place of the decision that stood. */
  ghost predicate RowAdded(before: seq<Decision>, after: seq<Decision>, t: Target, v: Verdict) {
    && |after| == |before| + 1 && after[..|before|] == before
    && var row := after[|before|];
       && row.target == t && row.verdict == v
       && (row.supersedes.Some? <==> Decided(before, t))
       && (row.supersedes.Some? ==> Stands(before, t, row.supersedes.value))
  }

  lemma InsertAdds(ds: seq<Decision>, t: Target, v: Verdict)
    ensures RowAdded(ds, Insert(ds, t, v), t, v)
  {
    LatestIsStanding(ds, t);
  }

  /** The pair's edges after a verdict on candidate `id`; no other edge changes. */
  ghost predicate EdgesFollow(before: map<Key, Edge>, after: map<Key, Edge>, c: Candidate, id: nat, row: nat, v: Verdict) {
    var possible, confirmed := Key(c.a, c.b, PossibleSameOperator), Key(c.a, c.b, AnalystConfirmedRelated);
    && possible in after
    && after[possible] == Edge(match v case Accept => EdgeConfirmed case Reject => EdgeRejected case _ => EdgePending,
                               Some(id), Some(row), Some(c.score))
    && (v == Accept ==> confirmed in after && after[confirmed] == Edge(EdgeConfirmed, Some(id), Some(row), Some(c.score)))
    && (v != Accept && confirmed in before ==>
          confirmed in after
          && after[confirmed] == Edge(EdgeRejected, before[confirmed].candidate, Some(row), before[confirmed].score))
    && (v != Accept && confirmed !in before ==> confirmed !in after)
    && (forall k | k != possible && k != confirmed :: (k in after <==> k in before) && (k in before ==> after[k] == before[k]))
  }

  /** Accepting a link confirms it, rejecting it rejects it, and any other verdict leaves it pending. */
  lemma LinkDecided(db: Db, q: Request)
    requires q.kind == Link && DecideRefusal(db, q) == None
    ensures q.id < |db.candidates|
    ensures var c, db' := db.candidates[q.id], Decide(db, q);
            && db'.candidates == db.candidates[q.id := Candidate(c.a, c.b, c.version, c.supersedes, c.digest, c.score,
                                   match q.verdict case Accept => Accepted case Reject => Rejected case _ => Pending)]
            && RowAdded(db.decisions, db'.decisions, Target(Link, q.id, c.version), q.verdict)
            && EdgesFollow(db.edges, db'.edges, c, q.id, |db.decisions|, q.verdict)
            && db'.findings == db.findings && db'.alerts == db.alerts
  {
    hide Latest, Newest;
    InsertAdds(db.decisions, LinkTarget(db.candidates, q.id), q.verdict);
  }

  /** An accepted finding is confirmed and keeps its status; any other verdict returns it to a draft candidate. */
  lemma FindingDecided(db: Db, q: Request)
    requires q.kind == FindingTarget && DecideRefusal(db, q) == None
    ensures q.id < |db.findings|
    ensures var f, db' := db.findings[q.id], Decide(db, q);
            && db'.findings == db.findings[q.id :=
                                 if q.verdict == Accept
                                 then Finding(f.claim, f.evidence, Confirmed, f.status, f.version, f.supersedes, Some(|db.decisions|))
                                 else Finding(f.claim, f.evidence, CandidateKind, Draft, f.version, f.supersedes, Some(|db.decisions|))]
            && RowAdded(db.decisions, db'.decisions, Target(FindingTarget, q.id, f.version), q.verdict)
            && db'.candidates == db.candidates && db'.edges == db.edges && db'.alerts == db.alerts
  {
    hide Latest, Newest;
    InsertAdds(db.decisions, FindingTargetOf(db.findings, q.id), q.verdict);
  }

  /** Accepting an alert acknowledges it, rejecting it dismisses it, and any other verdict leaves it open. */
  lemma AlertDecided(db: Db, q: Request)
    requires q.kind == AlertTarget && DecideRefusal(db, q) == None
    ensures q.id < |db.alerts|
    ensures var a, db' := db.alerts[q.id], Decide(db, q);
            && db'.alerts == db.alerts[q.id := AlertRow(match q.verdict case Accept => Acknowledged case Reject => Dismissed case _ => AlertOpen,
                                                        Some(|db.decisions|), a.finding, a.claim, a.evidence, a.overflow)]
            && RowAdded(db.decisions, db'.decisions, Target(AlertTarget, q.id, 1), q.verdict)
            && db'.candidates == db.candidates && db'.edges == db.edges && db'.findings == db.findings
  {
    hide Latest, Newest;
    InsertAdds(db.decisions, AlertTargetOf(q.id), q.verdict);
  }

  // ---------------------------------------------------------------- alerts

  /** The alert is known and open, and has evidence if it is to be escalated. */
  ghost predicate Handleable(db: Db, id: nat, action: AlertAction) {
    id < |db.alerts| && db.alerts[id].status == AlertOpen && (action == Escalate ==> db.alerts[id].evidence != {})
  }

  /** Every refusal of an action on an alert with its exact condition. */
  lemma HandleRefusedIff(db: Db, id: nat, action: AlertAction, rationale: string, usable: bool)
    ensures var refusal := HandleRefusal(db, id, action, rationale, usable);
            var able, worded := Handleable(db, id, action), 10 <= |rationale| <= 10000;
            var decided := Decided(db.decisions, Target(AlertTarget, id, 1));
            && (refusal == Some(NotFound) <==>
                  rationale != ""
                  && (id >= |db.alerts|
                      || (able && worded && !decided && action == Escalate && db.alerts[id].claim != "" && !usable)))
            && (refusal == Some(Conflict) <==> rationale != "" && id < |db.alerts| && (!able || (worded && decided)))
            && (refusal == Some(Validation) <==>
                  rationale == "" || (able && !worded)
                  || (able && !decided && action == Escalate && db.alerts[id].claim == ""))
            && (refusal == None <==>
                  able && worded && !decided && (action == Escalate ==> usable && db.alerts[id].claim != ""))
  {
    hide Latest;
    LatestIsStanding(db.decisions, Target(AlertTarget, id, 1));
  }

  /**
   Acknowledging and dismissing decide the alert; escalating also drafts a candidate finding with
   the alert's claim and evidence and links the two.
   */
  lemma AlertHandled(db: Db, id: nat, action: AlertAction, rationale: string, usable: bool)
    requires HandleRefusal(db, id, action, rationale, usable) == None
    ensures id < |db.alerts|
    ensures var a, db' := db.alerts[id], Handle(db, id, action, rationale, usable);
            && db'.candidates == db.candidates && db'.edges == db.edges
            && RowAdded(db.decisions, db'.decisions, Target(AlertTarget, id, 1), if action == Dismiss then Reject else Accept)
            && db'.findings == db.findings
                               + (if action == Escalate then [Finding(a.claim, a.evidence, CandidateKind, Draft, 1, None, None)] else [])
            && db'.alerts == db.alerts[id :=
                               AlertRow(match action case Acknowledge => Acknowledged case Dismiss => Dismissed case Escalate => Escalated,
                                        Some(|db.decisions|), if action == Escalate then Some(|db.findings|) else a.finding,
                                        a.claim, a.evidence, a.overflow)]
  {
    hide Latest, Newest;
    AlertDecided(db, AlertRequest(id, action, rationale));
  }

  /** A signal opens an alert of its own, or joins an OVERFLOW row, whose claim it replaces and whose evidence it extends. */
  lemma SignalTaken(db: Db, id: nat, claim: string, evidence: set<nat>, overflow: bool)
    ensures RaiseAlert(db, claim, evidence, overflow)
         == Db(db.decisions, db.candidates, db.edges, db.findings,
               db.alerts + [AlertRow(AlertOpen, None, None, claim, evidence, overflow)])
    ensures id < |db.alerts| && db.alerts[id].overflow ==>
              var a := db.alerts[id];
              Attach(db, id, claim, evidence)
              == Db(db.decisions, db.candidates, db.edges, db.findings,
                    db.alerts[id := AlertRow(a.status, a.decision, a.finding, claim, a.evidence + evidence, true)])
    ensures id >= |db.alerts| || !db.alerts[id].overflow ==> Attach(db, id, claim, evidence) == db
  {
  }

  // ---------------------------------------------------------------- findings

  /** Drafts start at version 1; CONFIRMED cannot be asked for, and claim, procedure and usable evidence are required. */
  lemma DraftAdmittedIff(db: Db, d: Submission)
    ensures var usable := d.evidence.Some?;
            && (DraftRefusal(d) == Some(Validation) <==>
                  d.hint == Confirmed || d.claim == "" || d.procedure == "" || (usable && d.evidence.value == {}))
            && (DraftRefusal(d) == Some(NotFound) <==> d.hint != Confirmed && d.claim != "" && d.procedure != "" && !usable)
            && (DraftRefusal(d) == None <==>
                  d.hint != Confirmed && d.claim != "" && d.procedure != "" && usable && d.evidence.value != {})
            && CreateFinding(db, d)
               == if DraftRefusal(d) != None then db
                  else Db(db.decisions, db.candidates, db.edges,
                          db.findings + [Finding(d.claim, d.evidence.value, d.hint, Draft, 1, None, None)], db.alerts)
  {
  }

  /** Promotion takes the standing ACCEPT of exactly the finding's version. */
  lemma PromotionAdmittedIff(db: Db, id: nat, decision: nat)
    requires Chained(db.decisions)
    ensures var refusal := PromoteRefusal(db, id, decision);
            && (refusal == Some(NotFound) <==> id >= |db.findings|)
            && (refusal == None <==>
                  id < |db.findings| && db.findings[id].status != Retired
                  && Stands(db.decisions, Target(FindingTarget, id, db.findings[id].version), decision)
                  && db.decisions[decision].verdict == Accept)
            && (refusal != None && id < |db.findings| ==> refusal == Some(Conflict))
            && Promote(db, id, decision)
               == if refusal != None then db
                  else
                    var f := db.findings[id];
                    Db(db.decisions, db.candidates, db.edges,
                       db.findings[id := Finding(f.claim, f.evidence, Confirmed, Promoted, f.version, f.supersedes, Some(decision))],
                       db.alerts)
  {
    hide Latest;
    if id < |db.findings| {
      var t := FindingTargetOf(db.findings, id);
      LatestIsStanding(db.decisions, t);
      if Stands(db.decisions, t, decision) {
        OneStands(db.decisions, t, decision, Latest(db.decisions, t).value);
      }
    }
  }

  /** In a chained table only the last decision of a target stands. */
  lemma OneStands(ds: seq<Decision>, t: Target, i: nat, j: nat)
    requires Chained(ds) && Stands(ds, t, i) && Stands(ds, t, j)
    ensures i == j
  {
    SupersededIffNotHead(ds, i);
    SupersededIffNotHead(ds, j);
  }

  /** Replacing a finding retires it and drafts the next version, which names it. */
  lemma ReplacementAdmittedIff(db: Db, id: nat, d: Submission)
    ensures var refusal := ReplaceRefusal(db, id, d);
            && (refusal == None <==>
                  && id < |db.findings| && db.findings[id].status != Retired
                  && d.hint != Confirmed && d.claim != "" && d.procedure != "" && d.evidence.Some? && d.evidence.value != {})
            && (id >= |db.findings| ==> refusal == Some(NotFound))
            && (id < |db.findings| && db.findings[id].status == Retired ==> refusal == Some(Conflict))
            && (id < |db.findings| && db.findings[id].status != Retired ==> refusal == DraftRefusal(d))
            && Replace(db, id, d)
               == if refusal != None then db
                  else
                    var f := db.findings[id];
                    Db(db.decisions, db.candidates, db.edges,
                       db.findings[id := Finding(f.claim, f.evidence, f.kind, Retired, f.version, f.supersedes, f.decision)]
                       + [Finding(d.claim, d.evidence.value, d.hint, Draft, f.version + 1, Some(id), None)],
                       db.alerts)
  {
  }

  // ---------------------------------------------------------------- the graph

  /** Candidate i is its pair's latest version. */
  ghost predicate IsCurrent(cs: seq<Candidate>, i: nat) {
    i < |cs| && forall j | 0 <= j < |cs| && OfPair(cs[j], cs[i].a, cs[i].b) :: cs[j].version <= cs[i].version
  }

  ghost predicate PairCurrent(cs: seq<Candidate>, k: Key, i: nat) {
    IsCurrent(cs, i) && k == Key(cs[i].a, cs[i].b, PossibleSameOperator)
  }

  /** The edge of a current candidate follows the decision that stands for its version. */
  ghost predicate FollowsDecision(db: Db, i: nat, e: Edge)
    requires i < |db.candidates|
  {
    var c := db.candidates[i];
    var t := Target(Link, i, c.version);
    && e.candidate == Some(i) && e.score == Some(c.score)
    && (e.decision.Some? <==> Decided(db.decisions, t))
    && (e.decision.Some? ==> Stands(db.decisions, t, e.decision.value))
    && e.status == (if e.decision.Some? && e.decision.value < |db.decisions| then
                      match db.decisions[e.decision.value].verdict
                      case Accept => EdgeConfirmed case Reject => EdgeRejected case _ => EdgePending
                    else EdgePending)
  }

  /**
   The rebuilt edge table, key by key: every current candidate's edge follows its decision, every
   derived edge is shown, every other derived-kind edge is hidden, and the rest is as it was.
   */
  lemma GraphRebuilt(db: Db, derived: set<Key>, k: Key)
    requires Versioned(db.candidates) && forall d | d in derived :: Derived(d.kind)
    ensures var after := Materialise(db, derived).edges;
            && (k in after <==> k in db.edges || k in derived || exists i :: PairCurrent(db.candidates, k, i))
            && (forall i | PairCurrent(db.candidates, k, i) :: k in after && FollowsDecision(db, i, after[k]))
            && (k in derived ==> after[k] == Edge(EdgeInfo, None, None, None))
            && (k in db.edges && k !in derived && k.kind in {CoOccurs, Uses, MentionsLocation} ==>
                  after[k] == db.edges[k].(status := EdgeRejected))
            && ((k in db.edges && k !in derived && k.kind !in {CoOccurs, Uses, MentionsLocation}
                 && forall i :: !PairCurrent(db.candidates, k, i)) ==> after[k] == db.edges[k])
  {
    hide Latest, Newest;
    CurrentKeyIff(db.candidates, k);
    forall i | PairCurrent(db.candidates, k, i)
      ensures FollowsDecision(db, i, Materialise(db, derived).edges[k])
    {
      CurrentIsNewest(db.candidates, i);
      LatestIsStanding(db.decisions, LinkTarget(db.candidates, i));
    }
  }

  lemma CurrentIsNewest(cs: seq<Candidate>, i: nat)
    requires Versioned(cs) && IsCurrent(cs, i)
    ensures Newest(cs, cs[i].a, cs[i].b) == Some(i)
  {
    LatestLinkIsNewest(cs, i);
  }

  lemma CurrentKeyIff(cs: seq<Candidate>, k: Key)
    ensures k in CurrentKeys(cs) <==> exists i :: PairCurrent(cs, k, i)
  {
    if i :| PairCurrent(cs, k, i) {
      assert IsLatestLink(cs, i);
    }
    if k in CurrentKeys(cs) {
      var i :| 0 <= i < |cs| && IsLatestLink(cs, i) && k == Key(cs[i].a, cs[i].b, PossibleSameOperator);
      assert PairCurrent(cs, k, i);
    }
  }
}

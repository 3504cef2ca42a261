/**
 The review transactions performed step by step on one case's tables. Each method reaches
 exactly the state its transaction in `CaseReview` describes, for which `ReviewInvariants`
 proves what every sequence of them keeps.
 */
module CaseStore {
  import opened Common
  import opened Decisions
  import opened LinkCandidates
  import opened Rescoring
  import opened CaseReview
  import opened ReviewInvariants

  lemma RefusedDecision(db: Db, q: Request)
    requires DecideRefusal(db, q).Some?
    ensures Decide(db, q) == db
  {
  }

  class Case {
    var decisions: seq<Decision>
    var candidates: seq<Candidate>
    var edges: map<Key, Edge>
    var findings: seq<Finding>
    var alerts: seq<AlertRow>

    function View(): Db
      reads this
    {
      Db(decisions, candidates, edges, findings, alerts)
    }

    constructor ()
      ensures View() == NO_ROWS
    {
      decisions, candidates, edges, findings, alerts := [], [], map[], [], [];
    }

    /** latest_decision: scan back for the target's unsuperseded row. */
    method LatestDecision(t: Target) returns (latest: Option<nat>)
      ensures latest == Latest(decisions, t)
    {
      var n: nat := |decisions|;
      while n > 0
        invariant n <= |decisions|
        invariant Latest(decisions, t) == LatestBelow(decisions, t, n)
      {
        if decisions[n - 1].target == t && !Superseded(decisions, n - 1) {
          return Some(n - 1);
        }
        n := n - 1;
      }
      latest := None;
    }

    method DecideTarget(q: Request) returns (result: Result<nat, Refusal>)
      modifies this
      ensures View() == Decide(old(View()), q)
      ensures result == match DecideRefusal(old(View()), q)
                        case Some(refusal) => Err(refusal)
                        case None => Ok(old(|decisions|))
      ensures Inv(old(View())) ==> Inv(View())
    {
      hide Inv, Decide, DecideRefusal;
      StepKeepsIf(View(), DoDecide(q));
      var checked := CheckDecision(q);
      match checked {
        case Err(refusal) =>
          RefusedDecision(View(), q);
          return Err(refusal);
        case Ok(previous) =>
          result := Ok(|decisions|);
          WriteDecision(q, previous);
      }
    }

    /** The checks of one decision, in order, and the row it would supersede. */
    method CheckDecision(q: Request) returns (result: Result<Option<nat>, Refusal>)
      ensures result == match DecideRefusal(View(), q)
                        case Some(refusal) => Err(refusal)
                        case None => Ok(Latest(decisions, TargetOf(View(), q.kind, q.id)))
    {
      hide Latest, TargetRefusal;
      if !RationaleOk(q.verdict, q.rationale) {
        return Err(Validation);
      }
      var refusal := TargetRefusal(View(), q.kind, q.id);
      if refusal.Some? {
        return Err(refusal.value);
      }
      var t := TargetOf(View(), q.kind, q.id);
      if q.version.Some? && q.version.value != t.version {
        return Err(Conflict);
      }
      var previous := LatestDecision(t);
      if previous.Some? {
        if !q.supersede {
          return Err(Conflict);
        }
        if !q.maySupersede {
          return Err(Forbidden);
        }
      }
      result := Ok(previous);
    }

    /** The row of an admitted decision and what it changes in its target. */
    method WriteDecision(q: Request, previous: Option<nat>)
      requires DecideRefusal(View(), q).None? && previous == Latest(decisions, TargetOf(View(), q.kind, q.id))
      modifies this
      ensures View() == Decide(old(View()), q)
    {
      hide Latest, LinkEffects, Newest;
      var t, row := TargetOf(View(), q.kind, q.id), |decisions|;
      decisions := decisions + [Decision(t, q.verdict, previous)];
      match q.kind {
        case Link =>
          var c := candidates[q.id];
          candidates := candidates[q.id := c.(status := ReviewStatusOf(Some(q.verdict)))];
          UpdateLinkEdges(c, q.id, row, q.verdict);
        case FindingTarget =>
          findings := findings[q.id := findings[q.id].(decision := Some(row),
                                 kind := if q.verdict == Accept then Confirmed else CandidateKind)];
          if q.verdict != Accept {
            findings := findings[q.id := findings[q.id].(status := Draft)];
          }
        case AlertTarget =>
          alerts := alerts[q.id := alerts[q.id].(status := AlertStatusOf(q.verdict), decision := Some(row))];
      }
    }

    method UpdateLinkEdges(c: Candidate, id: nat, row: nat, v: Verdict)
      modifies this`edges
      ensures edges == LinkEffects(old(edges), c, id, row, v)
    {
      var possible := Key(c.a, c.b, PossibleSameOperator);
      var confirmed := Key(c.a, c.b, AnalystConfirmedRelated);
      var existing := if confirmed in edges then Some(edges[confirmed]) else None;
      edges := edges[possible := Edge(EdgeStatusOf(Some(v)), Some(id), Some(row), Some(c.score))];
      if v == Accept {
        edges := edges[confirmed := Edge(EdgeConfirmed, Some(id), Some(row), Some(c.score))];
      } else if existing.Some? {
        edges := edges[confirmed := existing.value.(status := EdgeRejected, decision := Some(row))];
      }
    }

    method CreateDraft(d: Submission) returns (result: Result<nat, Refusal>)
      modifies this`findings
      ensures View() == CreateFinding(old(View()), d)
      ensures result == match DraftRefusal(d)
                        case Some(refusal) => Err(refusal)
                        case None => Ok(old(|findings|))
      ensures Inv(old(View())) ==> Inv(View())
    {
      hide Inv;
      StepKeepsIf(View(), DoCreate(d));
      var refusal := DraftRefusal(d);
      if refusal.Some? {
        return Err(refusal.value);
      }
      result := Ok(|findings|);
      findings := findings + [NewFinding(d, 1, None)];
    }

    method PromoteFinding(id: nat, decision: nat) returns (refusal: Option<Refusal>)
      modifies this`findings
      ensures View() == Promote(old(View()), id, decision)
      ensures refusal == PromoteRefusal(old(View()), id, decision)
      ensures Inv(old(View())) ==> Inv(View())
    {
      hide Inv;
      StepKeepsIf(View(), DoPromote(id, decision));
      if id >= |findings| {
        return Some(NotFound);
      }
      var latest := LatestDecision(FindingTargetOf(findings, id));
      if latest != Some(decision) || decision >= |decisions| || decisions[decision].verdict != Accept {
        return Some(Conflict);
      }
      if findings[id].status == Retired {
        return Some(Conflict);
      }
      findings := findings[id := findings[id].(kind := Confirmed, status := Promoted, decision := Some(decision))];
      refusal := None;
    }

    method SupersedeFinding(id: nat, d: Submission) returns (result: Result<nat, Refusal>)
      modifies this`findings
      ensures View() == Replace(old(View()), id, d)
      ensures result == match ReplaceRefusal(old(View()), id, d)
                        case Some(refusal) => Err(refusal)
                        case None => Ok(old(|findings|))
      ensures Inv(old(View())) ==> Inv(View())
    {
      hide Inv;
      StepKeepsIf(View(), DoReplace(id, d));
      if id >= |findings| {
        return Err(NotFound);
      }
      if findings[id].status == Retired {
        return Err(Conflict);
      }
      result := CreateDraft(d);
      if result.Ok? {
        var replacement := result.value;
        findings := findings[replacement := findings[replacement].(version := findings[id].version + 1, supersedes := Some(id))];
        findings := findings[id := findings[id].(status := Retired)];
      }
    }

    /** The surplus branch of raise_alert: the signal joins the OVERFLOW row. */
    method AttachSignal(id: nat, claim: string, evidence: set<nat>)
      requires id < |alerts| && alerts[id].overflow
      modifies this`alerts
      ensures View() == Attach(old(View()), id, claim, evidence)
      ensures Inv(old(View())) ==> Inv(View())
    {
      hide Inv;
      StepKeepsIf(View(), DoAttach(id, claim, evidence));
      alerts := alerts[id := alerts[id].(claim := claim, evidence := alerts[id].evidence + evidence)];
    }

    /** Whatever refuses on the way, the transaction is rolled back. */
    method HandleAlert(id: nat, action: AlertAction, rationale: string, usable: bool) returns (refusal: Option<Refusal>)
      modifies this
      ensures View() == Handle(old(View()), id, action, rationale, usable)
      ensures refusal == HandleRefusal(old(View()), id, action, rationale, usable)
      ensures Inv(old(View())) ==> Inv(View())
    {
      hide Inv;
      StepKeepsIf(View(), DoHandle(id, action, rationale, usable));
      if rationale == "" {
        return Some(Validation);
      }
      if id >= |alerts| {
        return Some(NotFound);
      }
      if alerts[id].status != AlertOpen || (action == Escalate && alerts[id].evidence == {}) {
        return Some(Conflict);
      }
      var before := View();
      var row := DecideTarget(AlertRequest(id, action, rationale));
      if row.Err? {
        return Some(row.error);
      }
      refusal := None;
      if action == Escalate {
        var created := CreateDraft(EscalationDraft(alerts[id], usable));
        if created.Err? {
          decisions, candidates, edges, findings, alerts :=
            before.decisions, before.candidates, before.edges, before.findings, before.alerts;
          return Some(created.error);
        }
        alerts := alerts[id := alerts[id].(status := Escalated, finding := Some(created.value))];
      }
    }

    /** One correlation run: changed pairs get a new version, then the graph is rewritten. */
    method RunCorrelation(scored: seq<Scored>, derived: set<Key>) returns (created: nat, rescored: nat)
      requires Versioned(candidates)
      modifies this`candidates, this`edges
      ensures View() == RunCase(old(View()), scored, derived)
      ensures Inv(old(View())) && RunInput(scored, derived) ==> Inv(View())
      ensures created + rescored == |candidates| - |old(candidates)|
      ensures RunLeaves(old(candidates), candidates, scored)
      ensures created == |RootRows(candidates, |old(candidates)|)| && rescored == |LaterRows(candidates, |old(candidates)|)|
      ensures Distinct(scored) ==>
                created == |FirstVersions(old(candidates), scored)| && rescored == |NewVersions(old(candidates), scored)|
    {
      hide Inv, RescoreAll, Versioned, RunLeaves, RootRows, LaterRows, FirstVersions, NewVersions, Distinct;
      RescoreAllLeaves(candidates, scored);
      RunCountsIf(candidates, scored);
      StepKeepsIf(View(), DoRun(scored, derived));
      created, rescored := RescorePairs(scored);
      MaterialiseGraph(derived);
    }

    method RescorePairs(scored: seq<Scored>) returns (created: nat, rescored: nat)
      requires Versioned(candidates)
      modifies this`candidates
      ensures candidates == RescoreAll(old(candidates), scored) && Versioned(candidates)
      ensures created == Created(old(candidates), scored) && rescored == Rescored(old(candidates), scored)
    {
      hide Versioned, RescoreAll, Created, Rescored;
      created, rescored := 0, 0;
      NoneScored(candidates);
      NothingCounted(candidates);
      assert scored[..0] == [];
      for i := 0 to |scored|
        invariant candidates == RescoreAll(old(candidates), scored[..i])
        invariant created == Created(old(candidates), scored[..i]) && rescored == Rescored(old(candidates), scored[..i])
        invariant Versioned(candidates)
      {
        NextScored(old(candidates), scored, i);
        CountersNext(old(candidates), scored, i);
        RescoreKeepsVersions(candidates, scored[i]);
        var s := scored[i];
        var previous := Newest(candidates, s.a, s.b);
        if previous.None? || candidates[previous.value].digest != s.digest {
          var version := if previous.Some? then candidates[previous.value].version + 1 else 1;
          candidates := candidates + [Candidate(s.a, s.b, version, previous, s.digest, s.score, Pending)];
          if previous.Some? {
            rescored := rescored + 1;
          } else {
            created := created + 1;
          }
        }
      }
      assert scored[..|scored|] == scored;
    }

    method MaterialiseGraph(derived: set<Key>)
      requires Versioned(candidates)
      modifies this`edges
      ensures View() == Materialise(old(View()), derived)
    {
      hide MaterialisedEdge, IsLatestLink, Latest, Newest;
      var shown := ShowDerived(edges, derived);
      var kept := HideObsolete(shown, edges.Keys, derived);
      ghost var db := View();
      var i, next := 0, kept;
      while i < |candidates|
        invariant i <= |candidates| && View() == db
        invariant next == OverlayBelow(db, kept, i)
      {
        if IsLatestLink(candidates, i) {
          var c := candidates[i];
          var latest := LatestDecision(LinkTarget(candidates, i));
          var verdict := if latest.Some? && latest.value < |decisions| then Some(decisions[latest.value].verdict) else None;
          next := next[Key(c.a, c.b, PossibleSameOperator) := Edge(EdgeStatusOf(verdict), Some(i), latest, Some(c.score))];
        }
        i := i + 1;
      }
      OverlayIsMaterialised(db, derived, kept);
      edges := next;
    }
  }

  function Shown(edges: map<Key, Edge>, k: Key, derived: set<Key>): Edge
    requires k in edges || k in derived
  {
    if k in derived then Edge(EdgeInfo, None, None, None) else edges[k]
  }

  method ShowDerived(edges: map<Key, Edge>, derived: set<Key>) returns (shown: map<Key, Edge>)
    ensures shown.Keys == edges.Keys + derived
    ensures forall k | k in shown :: shown[k] == Shown(edges, k, derived)
  {
    shown := edges;
    var done := {};
    while done < derived
      invariant done <= derived
      invariant forall k :: k in shown <==> k in edges || k in done
      invariant forall k | k in shown :: shown[k] == Shown(edges, k, done)
      decreases derived - done
    {
      var k :| k in derived && k !in done;
      shown := shown[k := Edge(EdgeInfo, None, None, None)];
      done := done + {k};
    }
  }

  function Hidden(edges: map<Key, Edge>, k: Key, checked: set<Key>, derived: set<Key>): Edge
    requires k in edges
  {
    if k in checked && Derived(k.kind) && k !in derived then edges[k].(status := EdgeRejected) else edges[k]
  }

  /** Obsolete derived edges are hidden; their rows stay. */
  method HideObsolete(edges: map<Key, Edge>, existing: set<Key>, derived: set<Key>) returns (kept: map<Key, Edge>)
    requires existing <= edges.Keys
    ensures kept.Keys == edges.Keys
    ensures forall k | k in kept :: kept[k] == Hidden(edges, k, existing, derived)
  {
    kept := edges;
    var todo := existing;
    while todo != {}
      invariant todo <= existing && kept.Keys == edges.Keys
      invariant forall k | k in kept :: kept[k] == Hidden(edges, k, existing - todo, derived)
      decreases |todo|
    {
      var k :| k in todo;
      if Derived(k.kind) && k !in derived {
        kept := kept[k := kept[k].(status := EdgeRejected)];
      }
      todo := todo - {k};
    }
  }

  /** The edges of the current candidates among the first n rows, laid over the others. */
  function OverlayBelow(db: Db, edges: map<Key, Edge>, n: nat): map<Key, Edge>
    requires n <= |db.candidates|
  {
    if n == 0 then edges
    else
      var below := OverlayBelow(db, edges, n - 1);
      var c := db.candidates[n - 1];
      if IsLatestLink(db.candidates, n - 1) then below[Key(c.a, c.b, PossibleSameOperator) := CurrentEdge(db, n - 1)]
      else below
  }

  lemma {:induction false} OverlayAt(db: Db, edges: map<Key, Edge>, n: nat, k: Key)
    requires n <= |db.candidates| && Versioned(db.candidates)
    ensures k in OverlayBelow(db, edges, n) <==> k in edges || k in CurrentBelow(db.candidates, n)
    ensures k in CurrentBelow(db.candidates, n) ==>
              Newest(db.candidates, k.src, k.dst).Some?
              && OverlayBelow(db, edges, n)[k] == CurrentEdge(db, Newest(db.candidates, k.src, k.dst).value)
    ensures k in edges && k !in CurrentBelow(db.candidates, n) ==> OverlayBelow(db, edges, n)[k] == edges[k]
  {
    hide IsLatestLink, Newest, CurrentEdge, Versioned, CurrentBelow;
    CurrentNext(db.candidates, n);
    if n > 0 {
      OverlayAt(db, edges, n - 1, k);
      LatestLinkIsNewest(db.candidates, n - 1);
    }
  }

  lemma CurrentNext(cs: seq<Candidate>, n: nat)
    requires n <= |cs|
    ensures n == 0 ==> CurrentBelow(cs, n) == {}
    ensures n > 0 ==>
              CurrentBelow(cs, n) == CurrentBelow(cs, n - 1)
                                     + if IsLatestLink(cs, n - 1) then {Key(cs[n - 1].a, cs[n - 1].b, PossibleSameOperator)} else {}
  {
  }

  lemma OverlayIsMaterialised(db: Db, derived: set<Key>, kept: map<Key, Edge>)
    requires Versioned(db.candidates)
    requires kept.Keys == db.edges.Keys + derived
    requires forall k | k in kept :: kept[k] == if k in derived then Edge(EdgeInfo, None, None, None)
                                               else if Derived(k.kind) then db.edges[k].(status := EdgeRejected)
                                               else db.edges[k]
    ensures OverlayBelow(db, kept, |db.candidates|) == Materialise(db, derived).edges
  {
    var overlay := OverlayBelow(db, kept, |db.candidates|);
    var target := Materialise(db, derived).edges;
    assert CurrentBelow(db.candidates, |db.candidates|) == CurrentKeys(db.candidates);
    forall k
      ensures k in overlay <==> k in target
      ensures k in overlay ==> overlay[k] == target[k]
    {
      OverlayAt(db, kept, |db.candidates|, k);
    }
  }

  /** The edges of the current candidates among the first n rows. */
  ghost function CurrentBelow(cs: seq<Candidate>, n: nat): set<Key>
    requires n <= |cs|
  {
    set i | 0 <= i < n && IsLatestLink(cs, i) :: Key(cs[i].a, cs[i].b, PossibleSameOperator)
  }
}

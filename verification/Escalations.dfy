/**
 An escalated alert and the finding made from it. The finding keeps the evidence the alert had;
 an OVERFLOW alert goes on collecting signals after its escalation.
 */
module Escalations {
  import opened Common
  import opened Decisions
  import opened LinkCandidates
  import opened CaseReview
  import opened ReviewInvariants

  /** Step k of a history joins a signal to alert i when the alert already has its finding. */
  ghost predicate AttachesLate(steps: seq<Step>, k: nat, i: nat)
    requires k < |steps|
  {
    steps[k].DoAttach? && LateAttach(After(steps[..k]), steps[k], i)
  }

  predicate LateAttach(db: Db, s: Step, i: nat) {
    s.DoAttach? && s.alert == i && Attachable(db, i) && db.alerts[i].finding.Some?
  }

  /** The evidence that joined alert i after its escalation. */
  ghost function AttachedAfter(steps: seq<Step>, i: nat): set<nat> {
    if steps == [] then {}
    else
      var front, s := steps[..|steps| - 1], steps[|steps| - 1];
      AttachedAfter(front, i) + if LateAttach(After(front), s, i) then s.evidence else {}
  }

  predicate Linked(db: Db, i: nat) {
    i < |db.alerts| && db.alerts[i].finding.Some? && db.alerts[i].finding.value < |db.findings|
  }

  /** A finding row's evidence is never rewritten. */
  lemma FindingEvidenceStays(db: Db, s: Step, f: nat)
    requires f < |db.findings|
    ensures f < |Next(db, s).findings| && Next(db, s).findings[f].evidence == db.findings[f].evidence
  {
  }

  /** Its decision keeps an escalated alert from being escalated again. */
  lemma LinkedIsDecided(db: Db, i: nat)
    requires Inv(db) && Linked(db, i)
    ensures Latest(db.decisions, AlertTargetOf(i)).Some?
  {
    assert AlertOk(db, i);
    LatestIsHead(db.decisions, AlertTargetOf(i));
  }

  lemma AlertStays(db: Db, s: Step, i: nat)
    requires Linked(db, i) && Latest(db.decisions, AlertTargetOf(i)).Some?
    ensures Linked(Next(db, s), i) && Next(db, s).alerts[i].finding == db.alerts[i].finding
    ensures Next(db, s).alerts[i].evidence == db.alerts[i].evidence + if LateAttach(db, s, i) then s.evidence else {}
  {
    hide Insert, MaterialisedEdge, RescoreAll;
    FindingEvidenceStays(db, s, db.alerts[i].finding.value);
  }

  /** An alert gets its finding in one step, with exactly its evidence. */
  lemma Escalates(db: Db, s: Step, i: nat)
    requires (i < |db.alerts| ==> db.alerts[i].finding.None?) && Linked(Next(db, s), i)
    ensures var db' := Next(db, s); db'.findings[db'.alerts[i].finding.value].evidence == db'.alerts[i].evidence
    ensures s.DoHandle? && s.alert == i && s.action == Escalate
  {
    hide Insert, MaterialisedEdge, RescoreAll;
  }

  /** The whole truth about an escalated alert, in every history: its finding's evidence and what joined later. */
  lemma {:induction false} EscalationEvidence(steps: seq<Step>, i: nat)
    ensures var db := After(steps);
            if Linked(db, i) then db.alerts[i].evidence == db.findings[db.alerts[i].finding.value].evidence + AttachedAfter(steps, i)
            else AttachedAfter(steps, i) == {}
    decreases |steps|
  {
    if steps != [] {
      var front, s := steps[..|steps| - 1], steps[|steps| - 1];
      var db := After(front);
      EscalationEvidence(front, i);
      ReachableInv(front);
      if Linked(db, i) {
        LinkedIsDecided(db, i);
        AlertStays(db, s, i);
        FindingEvidenceStays(db, s, db.alerts[i].finding.value);
      } else {
        NotLinkedYet(db, i);
        if Linked(Next(db, s), i) {
          Escalates(db, s, i);
        }
      }
    }
  }

  lemma NotLinkedYet(db: Db, i: nat)
    requires Inv(db) && !Linked(db, i)
    ensures i < |db.alerts| ==> db.alerts[i].finding.None?
  {
    if i < |db.alerts| {
      assert AlertOk(db, i);
    }
  }

  lemma {:induction false} AttachedIff(steps: seq<Step>, i: nat, e: nat)
    ensures e in AttachedAfter(steps, i) <==> exists k | 0 <= k < |steps| :: AttachesLate(steps, k, i) && e in steps[k].evidence
    decreases |steps|
  {
    hide Next, Attachable;
    if steps != [] {
      var n := |steps| - 1;
      assert steps[..n] + [steps[n]] == steps;
      AttachedIff(steps[..n], i, e);
      forall k | 0 <= k < n
        ensures AttachesLate(steps[..n], k, i) <==> AttachesLate(steps, k, i)
      {
        assert steps[..n][..k] == steps[..k];
      }
      if AttachesLate(steps, n, i) && e in steps[n].evidence {
        assert AttachesLate(steps, n, i);
      }
      if k :| 0 <= k < n && AttachesLate(steps[..n], k, i) && e in steps[..n][k].evidence {
        assert AttachesLate(steps, k, i) && e in steps[k].evidence;
      }
    }
  }

  /**
   In every history an escalated alert and its finding carry the same evidence exactly when no
   signal that joined after the escalation brought evidence the finding lacks. Otherwise the
   alert has more, never less.
   */
  lemma SameEvidenceIff(steps: seq<Step>, i: nat)
    requires Linked(After(steps), i)
    ensures var db := After(steps);
            var kept := db.findings[db.alerts[i].finding.value].evidence;
            && kept <= db.alerts[i].evidence
            && (db.alerts[i].evidence == kept
                <==> forall k | 0 <= k < |steps| && AttachesLate(steps, k, i) :: steps[k].evidence <= kept)
  {
    var db := After(steps);
    var kept := db.findings[db.alerts[i].finding.value].evidence;
    EscalationEvidence(steps, i);
    if db.alerts[i].evidence == kept {
      forall k | 0 <= k < |steps| && AttachesLate(steps, k, i)
        ensures steps[k].evidence <= kept
      {
        forall e | e in steps[k].evidence
          ensures e in kept
        {
          AttachedIff(steps, i, e);
        }
      }
    }
    forall e | e in AttachedAfter(steps, i)
      ensures exists k | 0 <= k < |steps| :: AttachesLate(steps, k, i) && e in steps[k].evidence
    {
      AttachedIff(steps, i, e);
    }
  }

  /** Such a history: an OVERFLOW alert is raised, escalated, and joined by a signal with other evidence. */
  lemma OverflowOutgrowsFinding(claim: string, rationale: string, evidence: set<nat>, summary: string, more: set<nat>)
    requires claim != "" && 10 <= |rationale| <= 10000 && evidence != {} && !(more <= evidence)
    ensures var db := After([DoAlert(claim, evidence, true), DoHandle(0, Escalate, rationale, true), DoAttach(0, summary, more)]);
            && Linked(db, 0) && db.alerts[0].status == Escalated
            && db.findings[db.alerts[0].finding.value].evidence == evidence
            && db.alerts[0].evidence == evidence + more != evidence
  {
    var steps := [DoAlert(claim, evidence, true), DoHandle(0, Escalate, rationale, true), DoAttach(0, summary, more)];
    assert steps[..2][..1][..0] == [] && steps[..2][..1] == [steps[0]] && steps[..2] == [steps[0], steps[1]];
    var raised := Next(NO_ROWS, steps[0]);
    assert After(steps[..1]) == raised;
    assert HandleRefusal(raised, 0, Escalate, rationale, true).None?;
    var handled := Next(raised, steps[1]);
    assert After(steps[..2]) == handled;
    assert After(steps) == Next(handled, steps[2]);
  }
}

/** Citation coverage and exact-finding confirmation of a model's claims. */
module ClaimChecker {
  import opened Common
  import opened Decisions
  import opened CaseReview
  import opened ReviewInvariants

  /** A claim with the evidence codes it cites; `confirmed` is its declared kind. */
  datatype Claim = Claim(text: string, codes: seq<nat>, confirmed: bool)

  datatype Reason = NoCitation | UnknownEvidence | NoAcceptedFinding

  /** Text handling left to the platform: emptiness after stripping, and comparison form. */
  datatype TextRules = TextRules(blank: string -> bool, normal: string -> string)

  /** The evidence rows behind a claim's codes; `byCode` holds the usable evidence of the case. */
  function EvidenceOf(byCode: map<nat, nat>, codes: seq<nat>): set<nat> {
    set k | 0 <= k < |codes| && codes[k] in byCode :: byCode[codes[k]]
  }

  /** One finding as examined by the search: it matches, and its own decision row stands. */
  predicate Supports(db: Db, rules: TextRules, f: Finding, text: string, ids: set<nat>) {
    && f.kind == Confirmed && f.status == Promoted
    && rules.normal(f.claim) == rules.normal(text) && ids <= f.evidence
    && f.decision.Some? && f.decision.value < |db.decisions|
    && db.decisions[f.decision.value].verdict == Accept
    && !Superseded(db.decisions, f.decision.value)
  }

  predicate Accepted(db: Db, rules: TextRules, text: string, ids: set<nat>) {
    exists i | 0 <= i < |db.findings| :: Supports(db, rules, db.findings[i], text, ids)
  }

  function ReasonFor(db: Db, byCode: map<nat, nat>, rules: TextRules, c: Claim): Option<Reason> {
    if c.codes == [] || rules.blank(c.text) then Some(NoCitation)
    else if exists k | 0 <= k < |c.codes| :: c.codes[k] !in byCode then Some(UnknownEvidence)
    else if c.confirmed && !Accepted(db, rules, c.text, EvidenceOf(byCode, c.codes)) then Some(NoAcceptedFinding)
    else None
  }

  /** The positions of the claims that have a reason. */
  function Failing(reasons: seq<Option<Reason>>): set<nat> {
    set i | 0 <= i < |reasons| && reasons[i].Some?
  }

  /** Each claim gets its reason, or none when it is verified; the count is of the unverified. */
  method Verify(db: Db, byCode: map<nat, nat>, rules: TextRules, claims: seq<Claim>)
    returns (reasons: seq<Option<Reason>>, unverified: nat)
    ensures |reasons| == |claims|
    ensures forall i | 0 <= i < |claims| :: reasons[i] == ReasonFor(db, byCode, rules, claims[i])
    ensures unverified == |Failing(reasons)|
    ensures unverified == 0 <==> forall i | 0 <= i < |claims| :: ReasonFor(db, byCode, rules, claims[i]).None?
  {
    reasons, unverified := [], 0;
    for i := 0 to |claims|
      invariant |reasons| == i
      invariant forall k | 0 <= k < i :: reasons[k] == ReasonFor(db, byCode, rules, claims[k])
      invariant unverified == |Failing(reasons)|
    {
      hide Failing;
      var c := claims[i];
      var reason := None;
      if c.codes == [] || rules.blank(c.text) {
        reason := Some(NoCitation);
      } else if exists k | 0 <= k < |c.codes| :: c.codes[k] !in byCode {
        reason := Some(UnknownEvidence);
      } else if c.confirmed {
        var ids := EvidenceOf(byCode, c.codes);
        var accepted := false;
        var j := 0;
        while j < |db.findings| && !accepted
          invariant j <= |db.findings|
          invariant accepted ==> Accepted(db, rules, c.text, ids)
          invariant !accepted ==> forall k | 0 <= k < j :: !Supports(db, rules, db.findings[k], c.text, ids)
          decreases |db.findings| - j, !accepted
        {
          var f := db.findings[j];
          if f.kind == Confirmed && f.status == Promoted
             && rules.normal(f.claim) == rules.normal(c.text) && ids <= f.evidence
             && f.decision.Some? && f.decision.value < |db.decisions|
             && db.decisions[f.decision.value].verdict == Accept {
            if !Superseded(db.decisions, f.decision.value) {
              assert Supports(db, rules, f, c.text, ids);
              accepted := true;
            }
          }
          j := j + 1;
        }
        if !accepted {
          reason := Some(NoAcceptedFinding);
        }
      }
      FailingNext(reasons, reason);
      reasons := reasons + [reason];
      if reason.Some? {
        unverified := unverified + 1;
      }
    }
    NoneFailing(reasons);
  }

  lemma NoneFailing(reasons: seq<Option<Reason>>)
    ensures |Failing(reasons)| == 0 <==> forall i | 0 <= i < |reasons| :: reasons[i].None?
  {
    if i :| 0 <= i < |reasons| && reasons[i].Some? {
      assert i in Failing(reasons);
    } else {
      assert Failing(reasons) == {};
    }
  }

  lemma FailingNext(reasons: seq<Option<Reason>>, reason: Option<Reason>)
    ensures |Failing(reasons + [reason])| == |Failing(reasons)| + if reason.Some? then 1 else 0
  {
    assert Failing(reasons + [reason]) == Failing(reasons) + if reason.Some? then {|reasons|} else {};
  }

  /**
   In every reachable state of a case the search accepts a confirmed claim exactly when a
   promoted finding has the claim's text and covers its evidence: the rows it additionally
   looks up always agree, because reviews keep promoted findings on a standing ACCEPT.
   */
  lemma ConfirmedClaimIff(steps: seq<Step>, rules: TextRules, text: string, ids: set<nat>)
    ensures var db := After(steps);
            Accepted(db, rules, text, ids)
            <==> exists i | 0 <= i < |db.findings| ::
                   db.findings[i].status == Promoted
                   && rules.normal(db.findings[i].claim) == rules.normal(text) && ids <= db.findings[i].evidence
  {
    var db := After(steps);
    ReachableInv(steps);
    forall i | 0 <= i < |db.findings| && db.findings[i].status == Promoted
      ensures db.findings[i].kind == Confirmed
      ensures db.findings[i].decision.Some? && db.findings[i].decision.value < |db.decisions|
      ensures db.decisions[db.findings[i].decision.value].verdict == Accept
      ensures !Superseded(db.decisions, db.findings[i].decision.value)
    {
      assert FindingOk(db, i);
      SupersededIffNotHead(db.decisions, db.findings[i].decision.value);
    }
  }

  /** The reason of a claim, in the order in which they are looked for. */
  lemma ReasonIs(db: Db, byCode: map<nat, nat>, rules: TextRules, c: Claim)
    ensures var reason := ReasonFor(db, byCode, rules, c);
            var uncited := c.codes == [] || rules.blank(c.text);
            var unknown := exists k :: 0 <= k < |c.codes| && c.codes[k] !in byCode;
            var unsupported := c.confirmed && !Accepted(db, rules, c.text, EvidenceOf(byCode, c.codes));
            && (reason == Some(NoCitation) <==> uncited)
            && (reason == Some(UnknownEvidence) <==> !uncited && unknown)
            && (reason == Some(NoAcceptedFinding) <==> !uncited && !unknown && unsupported)
            && (reason == None <==> !uncited && !unknown && !unsupported)
  {
  }

  /** A finding the claim may rest on: promoted, with its text, and on all the evidence its codes name. */
  ghost predicate RestsOn(f: Finding, byCode: map<nat, nat>, rules: TextRules, c: Claim) {
    && f.status == Promoted && rules.normal(f.claim) == rules.normal(c.text)
    && forall k | 0 <= k < |c.codes| && c.codes[k] in byCode :: byCode[c.codes[k]] in f.evidence
  }

  /**
   In every reachable state of a case a claim goes through exactly when it says something, cites
   known evidence only, and, if it claims confirmation, some promoted finding carries it.
   */
  lemma VerifiedIff(steps: seq<Step>, byCode: map<nat, nat>, rules: TextRules, c: Claim)
    ensures var db := After(steps);
            ReasonFor(db, byCode, rules, c) == None
            <==> c.codes != [] && !rules.blank(c.text)
                 && (forall k | 0 <= k < |c.codes| :: c.codes[k] in byCode)
                 && (c.confirmed ==> exists i | 0 <= i < |db.findings| :: RestsOn(db.findings[i], byCode, rules, c))
  {
    hide After;
    var db, ids := After(steps), EvidenceOf(byCode, c.codes);
    ConfirmedClaimIff(steps, rules, c.text, ids);
    forall i | 0 <= i < |db.findings|
      ensures RestsOn(db.findings[i], byCode, rules, c)
              <==> db.findings[i].status == Promoted && rules.normal(db.findings[i].claim) == rules.normal(c.text)
                   && ids <= db.findings[i].evidence
    {
    }
  }
}

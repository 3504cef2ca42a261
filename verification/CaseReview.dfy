/**
 Human review of one case: decisions on links, findings and alerts, their effects on
 candidates, graph edges and finding rows, and the rescoring run that replaces candidates.
 Each transaction is a function on the case's tables.
 */
module CaseReview {
  import opened Common
  import opened Decisions
  import opened LinkCandidates

  // ---------------------------------------------------------------- tables

  datatype EdgeKind = CoOccurs | Uses | MentionsLocation | PossibleSameOperator | AnalystConfirmedRelated

  datatype EdgeStatus = EdgePending | EdgeConfirmed | EdgeRejected | EdgeInfo

  /** The unique key of a graph edge within its case. */
  datatype Key = Key(src: nat, dst: nat, kind: EdgeKind)

  datatype Edge = Edge(status: EdgeStatus, candidate: Option<nat>, decision: Option<nat>, score: Option<nat>)

  datatype FindingKind = Observed | Model | CandidateKind | Confirmed

  datatype FindingStatus = Draft | Promoted | Retired

  datatype Finding = Finding(claim: string, evidence: set<nat>, kind: FindingKind, status: FindingStatus,
                             version: nat, supersedes: Option<nat>, decision: Option<nat>)

  datatype AlertStatus = AlertOpen | Acknowledged | Dismissed | Escalated

  /** `overflow` marks the row that collects an hour's surplus signals. */
  datatype AlertRow = AlertRow(status: AlertStatus, decision: Option<nat>, finding: Option<nat>, claim: string, evidence: set<nat>,
                               overflow: bool)

  datatype Db = Db(decisions: seq<Decision>, candidates: seq<Candidate>, edges: map<Key, Edge>,
                   findings: seq<Finding>, alerts: seq<AlertRow>)

  datatype Refusal = Validation | NotFound | Conflict | Forbidden

  const NO_ROWS := Db([], [], map[], [], [])

  predicate Derived(kind: EdgeKind) {
    kind == CoOccurs || kind == Uses || kind == MentionsLocation
  }

  function LinkTarget(cs: seq<Candidate>, i: nat): Target
    requires i < |cs|
  {
    Target(Link, i, cs[i].version)
  }

  function FindingTargetOf(fs: seq<Finding>, i: nat): Target
    requires i < |fs|
  {
    Target(FindingTarget, i, fs[i].version)
  }

  function AlertTargetOf(i: nat): Target {
    Target(AlertTarget, i, 1)
  }

  // ---------------------------------------------------------------- effects of a decision

  function ReviewStatusOf(v: Option<Verdict>): ReviewStatus {
    match v
    case Some(Accept) => Accepted
    case Some(Reject) => Rejected
    case _ => Pending
  }

  function EdgeStatusOf(v: Option<Verdict>): EdgeStatus {
    match v
    case Some(Accept) => EdgeConfirmed
    case Some(Reject) => EdgeRejected
    case _ => EdgePending
  }

  function AlertStatusOf(v: Verdict): AlertStatus {
    match v
    case Accept => Acknowledged
    case Reject => Dismissed
    case _ => AlertOpen
  }

  /** The pair's two edges after decision row `decision` on candidate `id`. */
  function LinkEffects(edges: map<Key, Edge>, c: Candidate, id: nat, decision: nat, v: Verdict): map<Key, Edge> {
    var possible := Key(c.a, c.b, PossibleSameOperator);
    var confirmed := Key(c.a, c.b, AnalystConfirmedRelated);
    var edges' := edges[possible := Edge(EdgeStatusOf(Some(v)), Some(id), Some(decision), Some(c.score))];
    if v == Accept then edges'[confirmed := Edge(EdgeConfirmed, Some(id), Some(decision), Some(c.score))]
    else if confirmed in edges then
      edges'[confirmed := edges[confirmed].(status := EdgeRejected, decision := Some(decision))]
    else edges'
  }

  function DecideLink(db: Db, id: nat, v: Verdict): Db
    requires id < |db.candidates|
  {
    var c := db.candidates[id];
    db.(decisions := Insert(db.decisions, LinkTarget(db.candidates, id), v),
        candidates := db.candidates[id := c.(status := ReviewStatusOf(Some(v)))],
        edges := LinkEffects(db.edges, c, id, |db.decisions|, v))
  }

  function DecideFinding(db: Db, id: nat, v: Verdict): Db
    requires id < |db.findings|
  {
    var f := db.findings[id];
    db.(decisions := Insert(db.decisions, FindingTargetOf(db.findings, id), v),
        findings := db.findings[id := f.(decision := Some(|db.decisions|),
                                         kind := if v == Accept then Confirmed else CandidateKind,
                                         status := if v == Accept then f.status else Draft)])
  }

  function DecideAlert(db: Db, id: nat, v: Verdict): Db
    requires id < |db.alerts|
  {
    db.(decisions := Insert(db.decisions, AlertTargetOf(id), v),
        alerts := db.alerts[id := db.alerts[id].(status := AlertStatusOf(v), decision := Some(|db.decisions|))])
  }

  /** What an analyst submits with a decision. `rationale` is already stripped. */
  datatype Request = Request(kind: TargetKind, id: nat, version: Option<nat>, verdict: Verdict,
                             rationale: string, supersede: bool, maySupersede: bool)

  function TargetRefusal(db: Db, kind: TargetKind, id: nat): Option<Refusal> {
    match kind
    case Link =>
      if id >= |db.candidates| then Some(NotFound)
      else if Newest(db.candidates, db.candidates[id].a, db.candidates[id].b) != Some(id) then Some(Conflict)
      else None
    case FindingTarget =>
      if id >= |db.findings| then Some(NotFound)
      else if db.findings[id].status == Retired then Some(Conflict)
      else None
    case AlertTarget =>
      if id >= |db.alerts| then Some(NotFound) else None
  }

  function TargetOf(db: Db, kind: TargetKind, id: nat): Target
    requires TargetRefusal(db, kind, id).None?
  {
    match kind
    case Link => LinkTarget(db.candidates, id)
    case FindingTarget => FindingTargetOf(db.findings, id)
    case AlertTarget => AlertTargetOf(id)
  }

  predicate RationaleOk(v: Verdict, rationale: string) {
    && 0 < |rationale| <= 10000
    && (v == Accept || v == Reject ==> |rationale| >= 10)
  }

  function DecideRefusal(db: Db, q: Request): Option<Refusal> {
    if !RationaleOk(q.verdict, q.rationale) then Some(Validation)
    else if TargetRefusal(db, q.kind, q.id).Some? then TargetRefusal(db, q.kind, q.id)
    else
      var t := TargetOf(db, q.kind, q.id);
      if q.version.Some? && q.version.value != t.version then Some(Conflict)
      else if Latest(db.decisions, t).None? then None
      else if !q.supersede then Some(Conflict)
      else if !q.maySupersede then Some(Forbidden)
      else None
  }

  function Decide(db: Db, q: Request): Db {
    if DecideRefusal(db, q).Some? then db
    else match q.kind
      case Link => DecideLink(db, q.id, q.verdict)
      case FindingTarget => DecideFinding(db, q.id, q.verdict)
      case AlertTarget => DecideAlert(db, q.id, q.verdict)
  }

  // ---------------------------------------------------------------- findings

  /** A draft as submitted; `evidence` are the rows its codes resolve to, when all are usable. */
  datatype Submission = Submission(claim: string, procedure: string, hint: FindingKind, evidence: Option<set<nat>>)

  function DraftRefusal(d: Submission): Option<Refusal> {
    if d.hint == Confirmed || d.claim == "" || d.procedure == "" || d.evidence == Some({}) then Some(Validation)
    else if d.evidence.None? then Some(NotFound)
    else None
  }

  function NewFinding(d: Submission, version: nat, supersedes: Option<nat>): Finding
    requires DraftRefusal(d).None?
  {
    Finding(d.claim, d.evidence.value, d.hint, Draft, version, supersedes, None)
  }

  function CreateFinding(db: Db, d: Submission): Db {
    if DraftRefusal(d).Some? then db
    else db.(findings := db.findings + [NewFinding(d, 1, None)])
  }

  function PromoteRefusal(db: Db, id: nat, decision: nat): Option<Refusal> {
    if id >= |db.findings| then Some(NotFound)
    else
      var latest := Latest(db.decisions, FindingTargetOf(db.findings, id));
      if latest != Some(decision) || decision >= |db.decisions| || db.decisions[decision].verdict != Accept then Some(Conflict)
      else if db.findings[id].status == Retired then Some(Conflict)
      else None
  }

  function Promote(db: Db, id: nat, decision: nat): Db {
    if PromoteRefusal(db, id, decision).Some? then db
    else db.(findings := db.findings[id :=
               db.findings[id].(kind := Confirmed, status := Promoted, decision := Some(decision))])
  }

  function ReplaceRefusal(db: Db, id: nat, d: Submission): Option<Refusal> {
    if id >= |db.findings| then Some(NotFound)
    else if db.findings[id].status == Retired then Some(Conflict)
    else DraftRefusal(d)
  }

  /** supersede_finding: the original is retired, its replacement carries the next version. */
  function Replace(db: Db, id: nat, d: Submission): Db {
    if ReplaceRefusal(db, id, d).Some? then db
    else
      var original := db.findings[id];
      db.(findings := db.findings[id := original.(status := Retired)]
                      + [NewFinding(d, original.version + 1, Some(id))])
  }

  // ---------------------------------------------------------------- alerts

  datatype AlertAction = Acknowledge | Dismiss | Escalate

  function RaiseAlert(db: Db, claim: string, evidence: set<nat>, overflow: bool): Db {
    db.(alerts := db.alerts + [AlertRow(AlertOpen, None, None, claim, evidence, overflow)])
  }

  predicate Attachable(db: Db, id: nat) {
    id < |db.alerts| && db.alerts[id].overflow
  }

  /** One more surplus signal joins an OVERFLOW row, whatever has become of the row. */
  function Attach(db: Db, id: nat, claim: string, evidence: set<nat>): Db {
    if !Attachable(db, id) then db
    else db.(alerts := db.alerts[id := db.alerts[id].(claim := claim, evidence := db.alerts[id].evidence + evidence)])
  }

  function AlertRequest(id: nat, action: AlertAction, rationale: string): Request {
    Request(AlertTarget, id, Some(1), if action == Dismiss then Reject else Accept, rationale, false, false)
  }

  function EscalationDraft(a: AlertRow, usable: bool): Submission {
    Submission(a.claim, "monitor-alert-escalation", CandidateKind, if usable then Some(a.evidence) else None)
  }

  function HandleRefusal(db: Db, id: nat, action: AlertAction, rationale: string, usable: bool): Option<Refusal> {
    if rationale == "" then Some(Validation)
    else if id >= |db.alerts| then Some(NotFound)
    else if db.alerts[id].status != AlertOpen then Some(Conflict)
    else if action == Escalate && db.alerts[id].evidence == {} then Some(Conflict)
    else if DecideRefusal(db, AlertRequest(id, action, rationale)).Some? then
      DecideRefusal(db, AlertRequest(id, action, rationale))
    else if action == Escalate then DraftRefusal(EscalationDraft(db.alerts[id], usable))
    else None
  }

  /** Acknowledging, dismissing or escalating an open alert is one transaction. */
  function Handle(db: Db, id: nat, action: AlertAction, rationale: string, usable: bool): Db {
    if HandleRefusal(db, id, action, rationale, usable).Some? then db
    else
      var decided := Decide(db, AlertRequest(id, action, rationale));
      if action != Escalate then decided
      else
        var created := CreateFinding(decided, EscalationDraft(db.alerts[id], usable));
        created.(alerts := created.alerts[id := created.alerts[id].(status := Escalated, finding := Some(|db.findings|))])
  }

  // ---------------------------------------------------------------- rescoring

  /** The possible-operator edge of the current candidate of a pair. */
  function CurrentEdge(db: Db, i: nat): Edge
    requires i < |db.candidates|
  {
    var t := LinkTarget(db.candidates, i);
    var latest := Latest(db.decisions, t);
    var verdict := if latest.Some? && latest.value < |db.decisions| then Some(db.decisions[latest.value].verdict) else None;
    Edge(EdgeStatusOf(verdict), Some(i), latest, Some(db.candidates[i].score))
  }

  function CurrentKeys(cs: seq<Candidate>): set<Key> {
    set i | 0 <= i < |cs| && IsLatestLink(cs, i) :: Key(cs[i].a, cs[i].b, PossibleSameOperator)
  }

  /** Derived edges are shown or hidden; each current candidate's edge follows its own head decision. */
  function Materialise(db: Db, derived: set<Key>): Db {
    db.(edges := map k | k in db.edges.Keys + derived + CurrentKeys(db.candidates) :: MaterialisedEdge(db, derived, k))
  }

  function MaterialisedEdge(db: Db, derived: set<Key>, k: Key): Edge
    requires k in db.edges.Keys + derived + CurrentKeys(db.candidates)
  {
    if k in CurrentKeys(db.candidates) then
      var newest := Newest(db.candidates, k.src, k.dst);
      if newest.Some? then CurrentEdge(db, newest.value) else Edge(EdgePending, None, None, None)
    else if k in derived then Edge(EdgeInfo, None, None, None)
    else if Derived(k.kind) then db.edges[k].(status := EdgeRejected)
    else db.edges[k]
  }

  /** One correlation run: new versions for every changed pair, then the graph. */
  function RunCase(db: Db, scored: seq<Scored>, derived: set<Key>): Db {
    Materialise(db.(candidates := RescoreAll(db.candidates, scored)), derived)
  }

  /** Scored pairs are ordered (the table checks it); only derived edge kinds are derived. */
  predicate RunInput(scored: seq<Scored>, derived: set<Key>) {
    && (forall i | 0 <= i < |scored| :: scored[i].a < scored[i].b)
    && (forall k | k in derived :: Derived(k.kind))
  }

  datatype Step =
    | DoDecide(request: Request)
    | DoCreate(draft: Submission)
    | DoPromote(finding: nat, decision: nat)
    | DoReplace(original: nat, replacement: Submission)
    | DoAlert(claim: string, evidence: set<nat>, overflow: bool)
    | DoAttach(alert: nat, claim: string, evidence: set<nat>)
    | DoHandle(alert: nat, action: AlertAction, rationale: string, usable: bool)
    | DoRun(scored: seq<Scored>, derived: set<Key>)

  function Next(db: Db, s: Step): Db {
    match s
    case DoDecide(request) => Decide(db, request)
    case DoCreate(draft) => CreateFinding(db, draft)
    case DoPromote(finding, decision) => Promote(db, finding, decision)
    case DoReplace(original, replacement) => Replace(db, original, replacement)
    case DoAlert(claim, evidence, overflow) => RaiseAlert(db, claim, evidence, overflow)
    case DoAttach(alert, claim, evidence) => Attach(db, alert, claim, evidence)
    case DoHandle(alert, action, rationale, usable) => Handle(db, alert, action, rationale, usable)
    case DoRun(scored, derived) => if RunInput(scored, derived) then RunCase(db, scored, derived) else db
  }

  function After(steps: seq<Step>): Db {
    if steps == [] then NO_ROWS else Next(After(steps[..|steps| - 1]), steps[|steps| - 1])
  }
}

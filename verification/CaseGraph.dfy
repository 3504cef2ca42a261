/**
 The graph a reader of a case is shown: the rows its filter selects, in the order of their ids,
 and the evidence edges, through the bounded neighbourhood view.
 */
module CaseGraph {
  import opened Common
  import opened Decisions
  import opened LinkCandidates
  import opened CaseReview
  import opened ReviewInvariants
  import Search = GraphSearch

  /** What a reader asks for. */
  datatype Request = Request(includePending: bool, includeRejected: bool, focus: Option<nat>, depth: int)

  /** `order` lists exactly the selected rows, each once. */
  ghost predicate Listed(db: Db, order: seq<Key>, q: Request) {
    && (forall i, j | 0 <= i < j < |order| :: order[i] != order[j])
    && (forall k :: k in order <==> Selected(db, k, q.includePending, q.includeRejected))
  }

  /** Edges of the selected rows, named by their place, followed by edges that are not rows. */
  function Rows(order: seq<Key>, others: seq<Search.Edge>): seq<Search.Edge> {
    seq(|order|, i requires 0 <= i < |order| => Search.Edge(order[i].src, order[i].dst, i)) + others
  }

  predicate NotRows(order: seq<Key>, others: seq<Search.Edge>) {
    forall i | 0 <= i < |others| :: others[i].id >= |order|
  }

  /** The view shows the row of k as CONFIRMED. */
  ghost predicate ShownConfirmed(db: Db, order: seq<Key>, view: Search.View, k: Key) {
    k in db.edges && db.edges[k].status == EdgeConfirmed
    && exists i | 0 <= i < |view.edges| :: view.edges[i].id < |order| && order[view.edges[i].id] == k
  }

  /** The result of a query over the case's rows. */
  ghost predicate Answer(order: seq<Key>, others: seq<Search.Edge>, available: set<nat>, q: Request,
                         view: Search.View, wanted: set<nat>, kept: set<nat>)
  {
    var edges := Search.Filter(Rows(order, others), available);
    && 0 <= q.depth && (q.focus.Some? ==> q.focus.value in available)
    && Search.Wanted(available, edges, q.focus, q.depth, wanted)
    && Search.Cut(wanted, q.focus, kept)
    && Search.ViewOk(view, edges, wanted, kept)
  }

  method Show(order: seq<Key>, others: seq<Search.Edge>, available: set<nat>, q: Request)
    returns (result: Result<Search.View, Search.Refusal>, ghost wanted: set<nat>, ghost kept: set<nat>)
    requires NotRows(order, others)
    ensures result.Err? <==> !(0 <= q.depth <= 2) || (q.focus.Some? && q.focus.value !in available)
    ensures result.Ok? ==> Answer(order, others, available, q, result.value, wanted, kept)
  {
    result, wanted, kept := Search.Query(available, Rows(order, others), q.focus, q.depth);
    if result.Err? {
      assert result.error.BadDepth? || result.error.NotFound?;
    } else {
      assert result != Err(Search.BadDepth) && result != Err(Search.NotFound);
    }
  }

  lemma ShownIsRow(order: seq<Key>, others: seq<Search.Edge>, available: set<nat>, q: Request,
                   view: Search.View, wanted: set<nat>, kept: set<nat>, i: nat)
    requires NotRows(order, others) && Answer(order, others, available, q, view, wanted, kept)
    requires i < |view.edges| && view.edges[i].id < |order|
    ensures view.edges[i].source == order[view.edges[i].id].src && view.edges[i].target == order[view.edges[i].id].dst
    ensures view.edges[i].source in Search.Ids(view.nodes) && view.edges[i].target in Search.Ids(view.nodes)
  {
    var edges := Search.Filter(Rows(order, others), available);
    var visible := Search.Filter(edges, kept);
    assert view.edges[i] == visible[i] && visible[i] in visible;
    assert visible[i] in Rows(order, others);
  }

  /**
   End to end, in every reachable state and for every query, cut or not: an edge shown as
   CONFIRMED is of its pair's latest candidate version, and the unsuperseded decision for
   exactly that version is an ACCEPT.
   */
  lemma ShownConfirmedIsAccepted(steps: seq<Step>, order: seq<Key>, q: Request, view: Search.View, k: Key)
    requires Listed(After(steps), order, q) && ShownConfirmed(After(steps), order, view, k)
    ensures var db := After(steps);
            var e := db.edges[k];
            && e.candidate.Some? && e.candidate == Newest(db.candidates, k.src, k.dst)
            && e.decision.Some? && e.decision.value < |db.decisions|
            && e.decision == Latest(db.decisions, LinkTarget(db.candidates, e.candidate.value))
            && db.decisions[e.decision.value].verdict == Accept
  {
    hide After;
    var i :| 0 <= i < |view.edges| && view.edges[i].id < |order| && order[view.edges[i].id] == k;
    assert k in order;
    ConfirmedEdgeIsAccepted(steps, k, q.includePending, q.includeRejected);
  }

  /**
   And conversely, in a view that is not truncated: both edges of a current candidate's pair are
   shown as CONFIRMED exactly when the candidate is accepted and both its subjects are shown.
   */
  lemma AcceptedIsShownIff(steps: seq<Step>, order: seq<Key>, others: seq<Search.Edge>, available: set<nat>, q: Request,
                           view: Search.View, wanted: set<nat>, kept: set<nat>, i: nat, kind: EdgeKind)
    requires Listed(After(steps), order, q) && NotRows(order, others)
    requires Answer(order, others, available, q, view, wanted, kept) && !view.truncated
    requires i < |After(steps).candidates| && IsLatestLink(After(steps).candidates, i)
    requires kind == PossibleSameOperator || kind == AnalystConfirmedRelated
    ensures var db := After(steps);
            var c := db.candidates[i];
            ShownConfirmed(db, order, view, Key(c.a, c.b, kind))
            <==> HeadVerdict(db.decisions, LinkTarget(db.candidates, i)) == Some(Accept)
                 && c.a in Search.Ids(view.nodes) && c.b in Search.Ids(view.nodes)
  {
    hide After, IsLatestLink, HeadVerdict;
    var db := After(steps);
    var c := db.candidates[i];
    var k := Key(c.a, c.b, kind);
    AcceptedCandidateIsConfirmed(steps, i, q.includePending, q.includeRejected);
    if ShownConfirmed(db, order, view, k) {
      var n :| 0 <= n < |view.edges| && view.edges[n].id < |order| && order[view.edges[n].id] == k;
      ShownIsRow(order, others, available, q, view, wanted, kept, n);
      assert k in order;
    }
    if k in order && c.a in Search.Ids(view.nodes) && c.b in Search.Ids(view.nodes) {
      RowIsShown(order, others, available, q, view, wanted, kept, k);
    }
  }

  lemma RowIsShown(order: seq<Key>, others: seq<Search.Edge>, available: set<nat>, q: Request,
                   view: Search.View, wanted: set<nat>, kept: set<nat>, k: Key)
    requires Answer(order, others, available, q, view, wanted, kept) && !view.truncated
    requires k in order && k.src in Search.Ids(view.nodes) && k.dst in Search.Ids(view.nodes)
    ensures exists i | 0 <= i < |view.edges| :: view.edges[i].id < |order| && order[view.edges[i].id] == k
  {
    var at :| 0 <= at < |order| && order[at] == k;
    var e := Search.Edge(k.src, k.dst, at);
    var rows := Rows(order, others);
    assert rows[at] == e && e in rows;
    Search.WantedIsAvailable(available, rows, q.focus, q.depth, wanted);
    assert e in Search.Filter(rows, available);
    assert e in view.edges;
    var i :| 0 <= i < |view.edges| && view.edges[i] == e;
  }
}

/**
 The append-only decision table of one case. Superseding a decision is an insert that
 refers to the decision it replaces; rows are numbered in insertion order.
 */
module Decisions {
  import opened Common

  datatype TargetKind = Link | FindingTarget | AlertTarget

  datatype Target = Target(kind: TargetKind, id: nat, version: nat)

  datatype Verdict = Accept | Reject | Defer | RequestMoreEvidence

  datatype Decision = Decision(target: Target, verdict: Verdict, supersedes: Option<nat>)

  /** Some row of the case refers to row i as the one it supersedes. */
  predicate Superseded(ds: seq<Decision>, i: nat) {
    exists j | 0 <= j < |ds| :: ds[j].supersedes == Some(i)
  }

  /** The query for the unsuperseded decision of a target, newest first, limit one. */
  function Latest(ds: seq<Decision>, t: Target): Option<nat> {
    LatestBelow(ds, t, |ds|)
  }

  function LatestBelow(ds: seq<Decision>, t: Target, n: nat): Option<nat>
    requires n <= |ds|
  {
    if n == 0 then None
    else if ds[n - 1].target == t && !Superseded(ds, n - 1) then Some(n - 1)
    else LatestBelow(ds, t, n - 1)
  }

  /** A new decision supersedes whatever the query finds. */
  function Insert(ds: seq<Decision>, t: Target, v: Verdict): seq<Decision> {
    ds + [Decision(t, v, Latest(ds, t))]
  }

  /** The last inserted decision of a target, superseded or not. */
  function Head(ds: seq<Decision>, t: Target): (head: Option<nat>)
    ensures head.Some? ==> head.value < |ds| && ds[head.value].target == t
    ensures forall i | 0 <= i < |ds| && ds[i].target == t :: head.Some? && i <= head.value
  {
    if ds == [] then None
    else
      var n := |ds| - 1;
      if ds[n].target == t then Some(n) else Head(ds[..n], t)
  }

  function HeadVerdict(ds: seq<Decision>, t: Target): Option<Verdict> {
    match Head(ds, t)
    case None => None
    case Some(i) => Some(ds[i].verdict)
  }

  /** Every decision supersedes exactly the previous decision of its own target. */
  ghost predicate Chained(ds: seq<Decision>) {
    forall i | 0 <= i < |ds| :: ds[i].supersedes == Head(ds[..i], ds[i].target)
  }

  /** The query finds the last inserted decision. */
  lemma LatestIsHead(ds: seq<Decision>, t: Target)
    requires Chained(ds)
    ensures Latest(ds, t) == Head(ds, t)
  {
    var head := Head(ds, t);
    if head.Some? {
      SupersededIffNotHead(ds, head.value);
    }
    LatestBelowIsHead(ds, t, |ds|);
  }

  lemma HeadNext(ds: seq<Decision>, t: Target, n: nat)
    requires n < |ds|
    ensures Head(ds[..n + 1], t) == if ds[n].target == t then Some(n) else Head(ds[..n], t)
  {
    assert ds[..n + 1][..n] == ds[..n];
  }

  lemma {:induction false} LatestBelowIsHead(ds: seq<Decision>, t: Target, n: nat)
    requires n <= |ds|
    requires var head := Head(ds, t); head.Some? ==> head.value < n && !Superseded(ds, head.value)
    ensures LatestBelow(ds, t, n) == Head(ds, t)
  {
    if n > 0 && Head(ds, t) != Some(n - 1) {
      LatestBelowIsHead(ds, t, n - 1);
    }
  }

  /** Inserting keeps the chains and makes the new row the head of its target, and of no other. */
  lemma InsertKeepsChains(ds: seq<Decision>, t: Target, v: Verdict)
    requires Chained(ds)
    ensures Chained(Insert(ds, t, v))
    ensures forall u :: Head(Insert(ds, t, v), u) == if u == t then Some(|ds|) else Head(ds, u)
    ensures forall u :: HeadVerdict(Insert(ds, t, v), u) == if u == t then Some(v) else HeadVerdict(ds, u)
  {
    LatestIsHead(ds, t);
    var ds' := Insert(ds, t, v);
    assert ds'[..|ds|] == ds;
    forall i | 0 <= i < |ds'|
      ensures ds'[i].supersedes == Head(ds'[..i], ds'[i].target)
    {
      if i < |ds| {
        assert ds'[..i] == ds[..i];
      }
    }
  }

  // ---------------------------------------------------------------- the shape of the chains

  /** The decisions of a target, newest first. */
  function Of(ds: seq<Decision>, t: Target): seq<nat> {
    if ds == [] then []
    else
      var n := |ds| - 1;
      if ds[n].target == t then [n] + Of(ds[..n], t) else Of(ds[..n], t)
  }

  /** Following supersedes_id from a row. A reference that does not point back ends the walk. */
  function Walk(ds: seq<Decision>, from: Option<nat>): seq<nat>
    decreases if from.Some? then from.value + 1 else 0
  {
    match from
    case None => []
    case Some(i) =>
      if i >= |ds| then []
      else
        var next := ds[i].supersedes;
        [i] + if next.Some? && next.value < i then Walk(ds, next) else []
  }

  /**
   The decisions of a target form one chain: walking back from the query's answer visits
   every one of them exactly once, newest first, and ends at the one root.
   */
  lemma OneChainPerTarget(ds: seq<Decision>, t: Target)
    requires Chained(ds)
    ensures Walk(ds, Latest(ds, t)) == Of(ds, t)
  {
    LatestIsHead(ds, t);
    WalkFromHead(ds, t, |ds|);
    assert ds[..|ds|] == ds;
  }

  lemma {:induction false} WalkFromHead(ds: seq<Decision>, t: Target, n: nat)
    requires Chained(ds) && n <= |ds|
    ensures Walk(ds, Head(ds[..n], t)) == Of(ds[..n], t)
  {
    hide Head, Of, Walk, Chained;
    if n == 0 {
      NothingToWalk(ds, t);
    } else {
      HeadNext(ds, t, n - 1);
      OfNext(ds, t, n - 1);
      WalkFromHead(ds, t, n - 1);
      if ds[n - 1].target == t {
        WalkNext(ds, n - 1);
      }
    }
  }

  lemma NothingToWalk(ds: seq<Decision>, t: Target)
    ensures Walk(ds, Head(ds[..0], t)) == Of(ds[..0], t)
  {
  }

  lemma WalkNext(ds: seq<Decision>, n: nat)
    requires Chained(ds) && n < |ds|
    ensures Walk(ds, Some(n)) == [n] + Walk(ds, Head(ds[..n], ds[n].target))
  {
    hide Head;
    assert ds[n].supersedes == Head(ds[..n], ds[n].target);
  }

  lemma OfNext(ds: seq<Decision>, t: Target, n: nat)
    requires n < |ds|
    ensures Of(ds[..n + 1], t) == (if ds[n].target == t then [n] else []) + Of(ds[..n], t)
  {
    assert ds[..n + 1][..n] == ds[..n];
  }

  /** A row superseding row i is the next one with the same target. */
  lemma SuccessorFollows(ds: seq<Decision>, i: nat, j: nat)
    requires Chained(ds) && i < |ds| && j < |ds| && ds[j].supersedes == Some(i)
    ensures i < j && ds[j].target == ds[i].target
    ensures forall k | i < k < j :: ds[k].target != ds[i].target
  {
    assert Head(ds[..j], ds[j].target) == Some(i);
    assert ds[..j][i] == ds[i];
    forall k | i < k < j
      ensures ds[k].target != ds[i].target
    {
      assert ds[..j][k] == ds[k];
    }
  }

  /** A decision is superseded exactly when it is not the head of its target. */
  lemma SupersededIffNotHead(ds: seq<Decision>, i: nat)
    requires Chained(ds) && i < |ds|
    ensures Superseded(ds, i) <==> Head(ds, ds[i].target) != Some(i)
  {
    if Head(ds, ds[i].target) != Some(i) {
      assert ds[..|ds|] == ds;
      NextOf(ds, i, |ds|);
    } else if Superseded(ds, i) {
      var j :| 0 <= j < |ds| && ds[j].supersedes == Some(i);
      SuccessorFollows(ds, i, j);
    }
  }

  /** No fork: a decision is superseded at most once. */
  lemma SupersededOnce(ds: seq<Decision>, i: nat, j: nat, k: nat)
    requires Chained(ds) && i < |ds| && j < |ds| && k < |ds|
    requires ds[j].supersedes == Some(i) && ds[k].supersedes == Some(i)
    ensures j == k
  {
    SuccessorFollows(ds, i, j);
    SuccessorFollows(ds, i, k);
  }

  /** One root: the initial decision of a target is its first. */
  lemma RootIsFirst(ds: seq<Decision>, i: nat)
    requires Chained(ds) && i < |ds|
    ensures ds[i].supersedes.None? <==> forall k | 0 <= k < i :: ds[k].target != ds[i].target
  {
    assert ds[i].supersedes == Head(ds[..i], ds[i].target);
    if ds[i].supersedes.None? {
      forall k | 0 <= k < i
        ensures ds[k].target != ds[i].target
      {
        assert ds[..i][k] == ds[k];
      }
    } else {
      var p := ds[i].supersedes.value;
      assert ds[..i][p] == ds[p];
    }
  }

  lemma SupersedesHead(ds: seq<Decision>, m: nat, i: nat)
    requires Chained(ds) && i < m < |ds| && Head(ds[..m], ds[m].target) == Some(i)
    ensures Superseded(ds, i)
  {
    hide Head;
    assert ds[m].supersedes == Some(i);
  }

  /** A decision that is not its target's head among the first n has a direct successor. */
  lemma {:induction false} NextOf(ds: seq<Decision>, i: nat, n: nat)
    requires Chained(ds) && i < n <= |ds| && Head(ds[..n], ds[i].target) != Some(i)
    ensures Superseded(ds, i)
  {
    hide Head, Superseded;
    var m := n - 1;
    HeadNext(ds, ds[i].target, m);
    if Head(ds[..m], ds[i].target) == Some(i) {
      SupersedesHead(ds, m, i);
    } else {
      NextOf(ds, i, m);
    }
  }
}

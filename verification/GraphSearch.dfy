/** The bounded neighbourhood view of a case graph. Node ids are compared as numbers. */
module GraphSearch {
  import opened Common

  const MaxNodes: nat := 500
  const MaxEdges: nat := 2000

  /** `id` names the row the edge comes from. */
  datatype Edge = Edge(source: nat, target: nat, id: nat)

  datatype Node = Node(id: nat, degree: nat)

  datatype View = View(nodes: seq<Node>, edges: seq<Edge>, truncated: bool)

  datatype Refusal = BadDepth | NotFound

  // ---------------------------------------------------------------- distance

  predicate Joins(e: Edge, a: nat, b: nat) {
    (e.source == a && e.target == b) || (e.source == b && e.target == a)
  }

  predicate Adjacent(edges: seq<Edge>, a: nat, b: nat) {
    exists k | 0 <= k < |edges| :: Joins(edges[k], a, b)
  }

  ghost predicate Path(edges: seq<Edge>, p: seq<nat>) {
    p != [] && forall i, j | 0 <= i < j < |p| && j == i + 1 :: Adjacent(edges, p[i], p[j])
  }

  ghost predicate PathTo(edges: seq<Edge>, focus: nat, v: nat, d: nat, p: seq<nat>) {
    Path(edges, p) && |p| <= d + 1 && p[0] == focus && p[|p| - 1] == v
  }

  /** v is at most d edges away from the focus. */
  ghost predicate Within(edges: seq<Edge>, focus: nat, v: nat, d: nat) {
    exists p :: PathTo(edges, focus, v, d, p)
  }

  lemma WithinSame(edges: seq<Edge>, focus: nat, v: nat, d: nat)
    ensures Within(edges, focus, focus, d)
    ensures Within(edges, focus, v, d) ==> Within(edges, focus, v, d + 1)
    ensures Within(edges, focus, v, 0) ==> v == focus
  {
    assert PathTo(edges, focus, focus, d, [focus]);
    if Within(edges, focus, v, d) {
      var p :| PathTo(edges, focus, v, d, p);
      assert PathTo(edges, focus, v, d + 1, p);
    }
  }

  lemma WithinNext(edges: seq<Edge>, focus: nat, u: nat, v: nat, d: nat)
    requires Within(edges, focus, u, d) && Adjacent(edges, u, v)
    ensures Within(edges, focus, v, d + 1)
  {
    var p :| PathTo(edges, focus, u, d, p);
    assert PathTo(edges, focus, v, d + 1, p + [v]);
  }

  lemma WithinLast(edges: seq<Edge>, focus: nat, v: nat, d: nat) returns (u: nat)
    requires Within(edges, focus, v, d + 1) && !Within(edges, focus, v, d)
    ensures Within(edges, focus, u, d) && Adjacent(edges, u, v)
  {
    var p :| PathTo(edges, focus, v, d + 1, p);
    assert |p| <= d + 1 ==> PathTo(edges, focus, v, d, p);
    u := p[d];
    assert PathTo(edges, focus, u, d, p[..d + 1]);
  }

  // ---------------------------------------------------------------- the frontier loop

  /** The ends of every edge that touches the frontier. */
  function Touched(edges: seq<Edge>, frontier: set<nat>): set<nat> {
    if edges == [] then {}
    else
      var e := edges[|edges| - 1];
      Touched(edges[..|edges| - 1], frontier) + if e.source in frontier || e.target in frontier then {e.source, e.target} else {}
  }

  lemma {:induction false} TouchedIff(edges: seq<Edge>, frontier: set<nat>, v: nat)
    ensures v in Touched(edges, frontier)
            <==> exists k | 0 <= k < |edges| ::
                   (edges[k].source in frontier || edges[k].target in frontier) && (v == edges[k].source || v == edges[k].target)
  {
    if edges != [] {
      var n := |edges| - 1;
      TouchedIff(edges[..n], frontier, v);
      assert forall k | 0 <= k < n :: edges[..n][k] == edges[k];
    }
  }

  lemma TouchedIsNear(edges: seq<Edge>, frontier: set<nat>, v: nat)
    ensures v in Touched(edges, frontier) ==> v in frontier || exists u :: u in frontier && Adjacent(edges, u, v)
    ensures forall u | u in frontier && Adjacent(edges, u, v) :: v in Touched(edges, frontier)
  {
    TouchedIff(edges, frontier, v);
    if v in Touched(edges, frontier) && v !in frontier {
      var k :| 0 <= k < |edges| && (edges[k].source in frontier || edges[k].target in frontier) && (v == edges[k].source || v == edges[k].target);
      var u := if v == edges[k].source then edges[k].target else edges[k].source;
      assert Joins(edges[k], u, v);
      assert u in frontier && Adjacent(edges, u, v);
    }
    forall u | u in frontier && Adjacent(edges, u, v)
      ensures v in Touched(edges, frontier)
    {
      var k :| 0 <= k < |edges| && Joins(edges[k], u, v);
    }
  }

  /** Selected is everything within d; nodes behind the frontier have no neighbours outside. */
  ghost predicate Searched(edges: seq<Edge>, focus: nat, d: nat, selected: set<nat>, frontier: set<nat>) {
    && frontier <= selected
    && (forall v :: v in selected <==> Within(edges, focus, v, d))
    && (forall u, v | u in selected && u !in frontier && Adjacent(edges, u, v) :: v in selected)
  }

  lemma SearchStep(edges: seq<Edge>, focus: nat, d: nat, selected: set<nat>, frontier: set<nat>)
    requires Searched(edges, focus, d, selected, frontier)
    ensures var more := Touched(edges, frontier) - selected;
            Searched(edges, focus, d + 1, selected + more, more)
  {
    var near := Touched(edges, frontier);
    var more := near - selected;
    forall v
      ensures v in selected + more <==> Within(edges, focus, v, d + 1)
    {
      WithinSame(edges, focus, v, d);
      TouchedIsNear(edges, frontier, v);
      if v in more {
        var u :| u in frontier && Adjacent(edges, u, v);
        WithinNext(edges, focus, u, v, d);
      }
      if v !in selected && Within(edges, focus, v, d + 1) {
        var u := WithinLast(edges, focus, v, d);
        assert u in selected;
      }
    }
    forall u, v | u in selected + more && u !in more && Adjacent(edges, u, v)
      ensures v in selected + more
    {
      TouchedIsNear(edges, frontier, v);
    }
  }

  method Search(edges: seq<Edge>, focus: nat, depth: nat) returns (selected: set<nat>)
    ensures forall v :: v in selected <==> Within(edges, focus, v, depth)
  {
    selected := {focus};
    var frontier := {focus};
    forall v
      ensures v in selected <==> Within(edges, focus, v, 0)
    {
      WithinSame(edges, focus, v, 0);
    }
    for i := 0 to depth
      invariant Searched(edges, focus, i, selected, frontier)
    {
      SearchStep(edges, focus, i, selected, frontier);
      var next := Touched(edges, frontier) - selected;
      selected := selected + next;
      frontier := next;
    }
  }

  // ---------------------------------------------------------------- sorting and cutting

  predicate IsLeast(s: set<nat>, m: nat) {
    m in s && forall x | x in s :: m <= x
  }

  lemma {:induction false} LeastExists(s: set<nat>)
    requires s != {}
    ensures exists m :: IsLeast(s, m)
  {
    var m :| m in s;
    assert s == {m} + (s - {m});
    if s - {m} != {} {
      LeastExists(s - {m});
      var n :| IsLeast(s - {m}, n);
      m := if m < n then m else n;
    }
    assert IsLeast(s, m);
  }

  function Sorted(s: set<nat>): (q: seq<nat>)
    ensures |q| == |s|
    ensures forall x :: x in q <==> x in s
    decreases |s|
  {
    if s == {} then []
    else
      LeastExists(s);
      var m :| IsLeast(s, m);
      assert s == {m} + (s - {m});
      [m] + Sorted(s - {m})
  }

  ghost predicate Increasing(q: seq<nat>) {
    forall i, j | 0 <= i < j < |q| :: q[i] < q[j]
  }

  lemma {:induction false} SortedIncreases(s: set<nat>)
    ensures Increasing(Sorted(s))
    decreases |s|
  {
    if s != {} {
      var m := SortedHead(s);
      SortedIncreases(s - {m});
      LeastFirst(m, Sorted(s - {m}));
    }
  }

  lemma SortedHead(s: set<nat>) returns (m: nat)
    requires s != {}
    ensures IsLeast(s, m) && Sorted(s) == [m] + Sorted(s - {m})
  {
    m := Sorted(s)[0];
  }

  lemma LeastFirst(m: nat, rest: seq<nat>)
    requires Increasing(rest) && forall x | x in rest :: m < x
    ensures Increasing([m] + rest)
  {
    var q := [m] + rest;
    forall i, j | 0 <= i < j < |q|
      ensures q[i] < q[j]
    {
      assert q[j] == rest[j - 1] && rest[j - 1] in rest;
      assert i > 0 ==> q[i] == rest[i - 1];
    }
  }

  function Elements(q: seq<nat>): set<nat> {
    set x | x in q
  }

  lemma {:induction false} ElementsSize(q: seq<nat>)
    requires Increasing(q)
    ensures |Elements(q)| == |q|
    decreases |q|
  {
    if q != [] {
      var init, last := q[..|q| - 1], q[|q| - 1];
      ElementsSize(init);
      assert last !in Elements(init);
      assert Elements(q) == Elements(init) + {last};
    }
  }

  /** The n smallest of s. */
  function Smallest(s: set<nat>, n: nat): set<nat> {
    Elements(if |s| > n then Sorted(s)[..n] else Sorted(s))
  }

  lemma SmallestOk(s: set<nat>, n: nat)
    ensures Smallest(s, n) <= s
    ensures |Smallest(s, n)| == if |s| > n then n else |s|
    ensures |s| <= n ==> Smallest(s, n) == s
    ensures forall x, y | x in Smallest(s, n) && y in s && y !in Smallest(s, n) :: x < y
  {
    var q := Sorted(s);
    SortedIncreases(s);
    var cut := if |s| > n then q[..n] else q;
    ElementsSize(cut);
    forall x, y | x in cut && y in s && y !in cut
      ensures x < y
    {
      var i :| 0 <= i < |cut| && cut[i] == x;
      var j :| 0 <= j < |q| && q[j] == y;
      assert q[i] == x;
    }
  }

  // ---------------------------------------------------------------- edges and degrees

  function Filter(edges: seq<Edge>, nodes: set<nat>): (kept: seq<Edge>)
    ensures forall e :: e in kept <==> e in edges && e.source in nodes && e.target in nodes
  {
    if edges == [] then []
    else
      var e := edges[|edges| - 1];
      Filter(edges[..|edges| - 1], nodes) + if e.source in nodes && e.target in nodes then [e] else []
  }

  /** The positions `at` are those of the edges between the nodes, in order. */
  ghost predicate KeptAt(edges: seq<Edge>, nodes: set<nat>, kept: seq<Edge>, at: seq<nat>) {
    && |at| == |kept|
    && (forall i | 0 <= i < |at| :: at[i] < |edges| && kept[i] == edges[at[i]])
    && (forall i, j | 0 <= i < j < |at| :: at[i] < at[j])
    && (forall k | 0 <= k < |edges| :: edges[k].source in nodes && edges[k].target in nodes ==> k in at)
    && (forall k | k in at :: k < |edges| && edges[k].source in nodes && edges[k].target in nodes)
  }

  /** Exactly the edges between the nodes are kept, in their order, as often as they came. */
  lemma {:induction false} FilterKeeps(edges: seq<Edge>, nodes: set<nat>) returns (at: seq<nat>)
    ensures KeptAt(edges, nodes, Filter(edges, nodes), at)
    decreases |edges|
  {
    at := [];
    if edges != [] {
      var n: nat := |edges| - 1;
      at := FilterKeeps(edges[..n], nodes);
      KeptNext(edges, nodes, Filter(edges[..n], nodes), at);
      if edges[n].source in nodes && edges[n].target in nodes {
        at := at + [n];
      } else {
        assert Filter(edges, nodes) == Filter(edges[..n], nodes);
      }
    }
  }

  lemma KeptNext(edges: seq<Edge>, nodes: set<nat>, kept: seq<Edge>, at: seq<nat>)
    requires edges != [] && KeptAt(edges[..|edges| - 1], nodes, kept, at)
    ensures var n, e: Edge := |edges| - 1, edges[|edges| - 1];
            if e.source in nodes && e.target in nodes then KeptAt(edges, nodes, kept + [e], at + [n])
            else KeptAt(edges, nodes, kept, at)
  {
    var n := |edges| - 1;
    assert forall k | 0 <= k < n :: edges[..n][k] == edges[k];
    assert forall i | 0 <= i < |at| :: at[i] in at;
  }

  /** How often v is an end of an edge. */
  function Degree(edges: seq<Edge>, v: nat): nat {
    if edges == [] then 0
    else
      var e := edges[|edges| - 1];
      Degree(edges[..|edges| - 1], v) + (if e.source == v then 1 else 0) + (if e.target == v then 1 else 0)
  }

  method Degrees(edges: seq<Edge>) returns (counts: map<nat, nat>)
    ensures forall v: nat :: (if v in counts then counts[v] else 0) == Degree(edges, v)
  {
    counts := map[];
    for i := 0 to |edges|
      invariant forall v: nat :: (if v in counts then counts[v] else 0) == Degree(edges[..i], v)
    {
      assert edges[..i + 1][..i] == edges[..i];
      var e := edges[i];
      counts := counts[e.source := (if e.source in counts then counts[e.source] else 0) + 1];
      counts := counts[e.target := (if e.target in counts then counts[e.target] else 0) + 1];
    }
    assert edges[..|edges|] == edges;
  }

  function DegreeSum(nodes: seq<nat>, edges: seq<Edge>): nat {
    if nodes == [] then 0 else DegreeSum(nodes[..|nodes| - 1], edges) + Degree(edges, nodes[|nodes| - 1])
  }

  function Hits(nodes: seq<nat>, v: nat): nat {
    if nodes == [] then 0 else Hits(nodes[..|nodes| - 1], v) + if nodes[|nodes| - 1] == v then 1 else 0
  }

  lemma {:induction false} HitsOnce(nodes: seq<nat>, v: nat)
    requires Increasing(nodes)
    ensures Hits(nodes, v) == if v in nodes then 1 else 0
    decreases |nodes|
  {
    if nodes != [] {
      var n := |nodes| - 1;
      HitsOnce(nodes[..n], v);
      assert v in nodes <==> v in nodes[..n] || v == nodes[n];
      assert nodes[n] !in nodes[..n];
    }
  }

  lemma {:induction false} DegreeSumStep(nodes: seq<nat>, edges: seq<Edge>)
    requires edges != []
    ensures var e := edges[|edges| - 1];
            DegreeSum(nodes, edges) == DegreeSum(nodes, edges[..|edges| - 1]) + Hits(nodes, e.source) + Hits(nodes, e.target)
    decreases |nodes|
  {
    if nodes != [] {
      DegreeSumStep(nodes[..|nodes| - 1], edges);
    }
  }

  /** Handshake: over nodes that hold both ends of every edge the degrees sum to twice the edges. */
  lemma {:induction false} DegreesSumToTwice(nodes: seq<nat>, edges: seq<Edge>)
    requires Increasing(nodes)
    requires forall k | 0 <= k < |edges| :: edges[k].source in nodes && edges[k].target in nodes
    ensures DegreeSum(nodes, edges) == 2 * |edges|
    decreases |edges|
  {
    if edges == [] {
      NoDegrees(nodes);
    } else {
      var e := edges[|edges| - 1];
      DegreesSumToTwice(nodes, edges[..|edges| - 1]);
      DegreeSumStep(nodes, edges);
      HitsOnce(nodes, e.source);
      HitsOnce(nodes, e.target);
    }
  }

  lemma {:induction false} NoDegrees(nodes: seq<nat>)
    ensures DegreeSum(nodes, []) == 0
  {
    if nodes != [] {
      NoDegrees(nodes[..|nodes| - 1]);
    }
  }

  // ---------------------------------------------------------------- the query

  /** The nodes asked for: everything within `depth` of the focus, or everything. */
  ghost predicate Wanted(available: set<nat>, edges: seq<Edge>, focus: Option<nat>, depth: nat, wanted: set<nat>) {
    match focus
    case None => wanted == available
    case Some(f) => forall v :: v in wanted <==> Within(edges, f, v, depth)
  }

  /** The kept nodes: all if they fit; otherwise 500 with the focus, the others the smallest. */
  ghost predicate Cut(wanted: set<nat>, focus: Option<nat>, kept: set<nat>) {
    && kept <= wanted
    && |kept| == (if |wanted| > 500 then 500 else |wanted|)
    && (focus.Some? ==> focus.value in kept)
    && forall x, y | x in kept && y in wanted && y !in kept && focus != Some(x) :: x < y
  }

  function Ids(nodes: seq<Node>): seq<nat> {
    seq(|nodes|, i requires 0 <= i < |nodes| => nodes[i].id)
  }

  ghost predicate ViewOk(view: View, edges: seq<Edge>, wanted: set<nat>, kept: set<nat>) {
    var visible := Filter(edges, kept);
    && Ids(view.nodes) == Sorted(kept)
    && view.edges == (if |visible| > 2000 then visible[..2000] else visible)
    && (view.truncated <==> |wanted| > 500 || |visible| > 2000)
    && forall i | 0 <= i < |view.nodes| :: view.nodes[i].degree == Degree(view.edges, view.nodes[i].id)
  }

  method CutNodes(selected: set<nat>, focus: Option<nat>) returns (kept: set<nat>)
    requires focus.Some? ==> focus.value in selected
    ensures Cut(selected, focus, kept)
  {
    match focus
    case None =>
      kept := Smallest(selected, MaxNodes);
      SmallestOk(selected, MaxNodes);
    case Some(f) =>
      var others := selected - {f};
      SmallestOk(others, MaxNodes - 1);
      kept := Smallest(others, MaxNodes - 1) + {f};
      assert selected == others + {f};
  }

  /**
   query. `rows` are the edges of the status filter; those with an end that is not available
   are dropped before the search.
   */
  method Query(available: set<nat>, rows: seq<Edge>, focus: Option<nat>, depth: int)
    returns (result: Result<View, Refusal>, ghost wanted: set<nat>, ghost kept: set<nat>)
    ensures result == Err(BadDepth) <==> !(0 <= depth <= 2)
    ensures result == Err(NotFound) <==> 0 <= depth <= 2 && focus.Some? && focus.value !in available
    ensures result.Ok? ==> 0 <= depth && Wanted(available, Filter(rows, available), focus, depth, wanted)
    ensures result.Ok? ==> Cut(wanted, focus, kept) && ViewOk(result.value, Filter(rows, available), wanted, kept)
  {
    wanted, kept := {}, {};
    if !(0 <= depth <= 2) {
      return Err(BadDepth), wanted, kept;
    }
    if focus.Some? && focus.value !in available {
      return Err(NotFound), wanted, kept;
    }
    var edges := Filter(rows, available);
    var selected := available;
    if focus.Some? {
      selected := Search(edges, focus.value, depth);
      WithinSame(edges, focus.value, focus.value, depth);
    }
    wanted := selected;
    var nodes := CutNodes(selected, focus);
    kept := nodes;
    var visible := Filter(edges, nodes);
    var truncated := |selected| > MaxNodes || |visible| > MaxEdges;
    if |visible| > MaxEdges {
      visible := visible[..MaxEdges];
    }
    var listed := ListNodes(nodes, visible);
    result := Ok(View(listed, visible, truncated));
  }

  method ListNodes(kept: set<nat>, edges: seq<Edge>) returns (nodes: seq<Node>)
    ensures Ids(nodes) == Sorted(kept)
    ensures forall i | 0 <= i < |nodes| :: nodes[i].degree == Degree(edges, nodes[i].id)
  {
    var counts := Degrees(edges);
    var ids := Sorted(kept);
    nodes := [];
    for i := 0 to |ids|
      invariant |nodes| == i
      invariant forall k | 0 <= k < i :: nodes[k].id == ids[k] && nodes[k].degree == Degree(edges, nodes[k].id)
    {
      nodes := nodes + [Node(ids[i], if ids[i] in counts then counts[ids[i]] else 0)];
    }
  }

  /** Whatever is asked for is available. */
  lemma WantedIsAvailable(available: set<nat>, rows: seq<Edge>, focus: Option<nat>, depth: nat, wanted: set<nat>)
    requires Wanted(available, Filter(rows, available), focus, depth, wanted)
    requires focus.Some? ==> focus.value in available
    ensures wanted <= available
  {
    forall v | v in wanted
      ensures v in available
    {
      if focus.Some? && v != focus.value {
        var p :| PathTo(Filter(rows, available), focus.value, v, depth, p);
        assert Adjacent(Filter(rows, available), p[|p| - 2], p[|p| - 1]);
        var k :| 0 <= k < |Filter(rows, available)| && Joins(Filter(rows, available)[k], p[|p| - 2], v);
        assert Filter(rows, available)[k] in Filter(rows, available);
      }
    }
  }

  /**
   What a reader may rely on: at most 500 nodes and 2000 edges, every edge between shown
   nodes, degrees that sum to twice the edges; and without truncation nothing is missing.
   */
  lemma ViewIsSound(view: View, edges: seq<Edge>, focus: Option<nat>, wanted: set<nat>, kept: set<nat>)
    requires Cut(wanted, focus, kept) && ViewOk(view, edges, wanted, kept)
    ensures |view.nodes| <= 500 && |view.edges| <= 2000
    ensures focus.Some? ==> focus.value in Ids(view.nodes)
    ensures forall k | 0 <= k < |view.edges| :: view.edges[k].source in Ids(view.nodes) && view.edges[k].target in Ids(view.nodes)
    ensures DegreeSum(Ids(view.nodes), view.edges) == 2 * |view.edges|
    ensures !view.truncated ==> kept == wanted && view.edges == Filter(edges, wanted)
  {
    SortedIncreases(kept);
    var visible := Filter(edges, kept);
    forall k | 0 <= k < |view.edges|
      ensures view.edges[k].source in Ids(view.nodes) && view.edges[k].target in Ids(view.nodes)
    {
      assert view.edges[k] == visible[k] && visible[k] in visible;
    }
    DegreesSumToTwice(Ids(view.nodes), view.edges);
    if !view.truncated {
      SameSize(kept, wanted);
    }
  }

  lemma SameSize(a: set<nat>, b: set<nat>)
    requires a <= b && |a| == |b|
    ensures a == b
  {
    assert |b - a| == 0;
  }
}

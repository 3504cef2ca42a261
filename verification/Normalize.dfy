/**
 Text normalisation with an offset map back to the raw text. Composition (Unicode NFC) and
 the canonical combining property come from the platform and are left uninterpreted.
 */
module Normalize {

  datatype Rules = Rules(nfc: string -> string, combining: char -> bool)

  /** Normalised characters; for each, where its raw cluster starts and ends; how many were dropped. */
  datatype Normal = Normal(chars: string, starts: seq<nat>, ends: seq<nat>, removed: nat)

  /** One step of the scan: the raw cluster ends at `end` and contributes `text`. */
  datatype Cluster = Cluster(end: nat, text: string)

  predicate ZeroWidth(c: char) {
    c in "\U{200B}\U{200C}\U{200D}\U{FEFF}\U{200E}\U{200F}"
  }

  predicate Blank(c: char) {
    c == ' ' || c == '\t'
  }

  // ---------------------------------------------------------------- the scan, as functions

  function SkipBlank(raw: string, i: nat): (j: nat)
    requires i <= |raw|
    ensures i <= j <= |raw|
    decreases |raw| - i
  {
    if i < |raw| && Blank(raw[i]) then SkipBlank(raw, i + 1) else i
  }

  function SkipCombining(rules: Rules, raw: string, i: nat): (j: nat)
    requires i <= |raw|
    ensures i <= j <= |raw|
    decreases |raw| - i
  {
    if i < |raw| && rules.combining(raw[i]) then SkipCombining(rules, raw, i + 1) else i
  }

  /** Keep composing with the next character while that does not lengthen the text by one. */
  function Compose(rules: Rules, raw: string, i: nat, c: string): (r: Cluster)
    requires i <= |raw|
    ensures i <= r.end <= |raw|
    decreases |raw| - i
  {
    if i == |raw| then Cluster(i, c)
    else
      var combined := rules.nfc(c + [raw[i]]);
      if |combined| >= |c| + 1 then Cluster(i, c) else Compose(rules, raw, i + 1, combined)
  }

  function ClusterAt(rules: Rules, raw: string, i: nat): (r: Cluster)
    requires i < |raw|
    ensures i < r.end <= |raw|
  {
    var c := raw[i];
    if ZeroWidth(c) then Cluster(i + 1, "")
    else if c == '\r' then Cluster(if i + 1 < |raw| && raw[i + 1] == '\n' then i + 2 else i + 1, "\n")
    else if Blank(c) then Cluster(SkipBlank(raw, i + 1), " ")
    else
      var j := SkipCombining(rules, raw, i + 1);
      Compose(rules, raw, j, rules.nfc(raw[i..j]))
  }

  function Repeat(n: nat, x: nat): seq<nat> {
    seq(n, _ => x)
  }

  function Prepend(i: nat, r: Cluster, dropped: nat, rest: Normal): Normal {
    Normal(r.text + rest.chars, Repeat(|r.text|, i) + rest.starts, Repeat(|r.text|, r.end) + rest.ends, dropped + rest.removed)
  }

  /** Normalisation of everything from raw position i on. */
  function From(rules: Rules, raw: string, i: nat): (n: Normal)
    requires i <= |raw|
    ensures |n.chars| == |n.starts| == |n.ends|
    ensures forall k | 0 <= k < |n.chars| :: i <= n.starts[k] < n.ends[k] <= |raw|
    decreases |raw| - i
  {
    if i == |raw| then Normal("", [], [], 0)
    else
      var r := ClusterAt(rules, raw, i);
      Prepend(i, r, if ZeroWidth(raw[i]) then 1 else 0, From(rules, raw, r.end))
  }

  function NormalOf(rules: Rules, raw: string): Normal {
    From(rules, raw, 0)
  }

  // ---------------------------------------------------------------- what the scan is to give

  /** Composition of raw[p..j], and then of each further character up to e with what has become of it. */
  ghost function Composition(rules: Rules, raw: string, p: nat, j: nat, e: nat): string
    requires p <= j <= e <= |raw|
    decreases e
  {
    if e == j then rules.nfc(raw[p..j]) else rules.nfc(Composition(rules, raw, p, j, e - 1) + [raw[e - 1]])
  }

  /** From p up to j a character with its marks, from j to q characters that compose with it, at q one that does not. */
  ghost predicate ComposedFrom(rules: Rules, raw: string, p: nat, j: nat, q: nat, text: string)
    requires p < j <= q <= |raw|
  {
    && (forall i | p < i < j :: rules.combining(raw[i]))
    && (j < |raw| ==> !rules.combining(raw[j]))
    && text == Composition(rules, raw, p, j, q)
    && (forall e | j <= e < q :: Absorbed(rules, raw, p, j, e))
    && (q < |raw| ==> |rules.nfc(text + [raw[q]])| > |text|)
  }

  ghost predicate Absorbed(rules: Rules, raw: string, p: nat, j: nat, e: nat)
    requires p <= j <= e < |raw|
  {
    |Composition(rules, raw, p, j, e + 1)| <= |Composition(rules, raw, p, j, e)|
  }

  /** What becomes of the cluster [p, q). */
  ghost predicate Means(rules: Rules, raw: string, p: nat, q: nat, text: string) {
    && p < q <= |raw|
    && var c := raw[p];
       if c in {'\U{200B}', '\U{200C}', '\U{200D}', '\U{FEFF}', '\U{200E}', '\U{200F}'} then text == "" && q == p + 1
       else if c == '\r' then text == "\n" && q == if p + 1 < |raw| && raw[p + 1] == '\n' then p + 2 else p + 1
       else if c == ' ' || c == '\t' then
         && text == " "
         && (forall i | p <= i < q :: raw[i] == ' ' || raw[i] == '\t')
         && (q < |raw| ==> raw[q] != ' ' && raw[q] != '\t')
       else exists j :: p < j <= q && ComposedFrom(rules, raw, p, j, q, text)
  }

  /** The characters are those of the texts, one after the other, each with the bounds of its cluster. */
  ghost predicate Laid(chars: string, starts: seq<nat>, ends: seq<nat>, cuts: seq<nat>, texts: seq<string>)
    requires |chars| == |starts| == |ends| && |cuts| == |texts| + 1
    decreases |texts|
  {
    if texts == [] then chars == ""
    else
      var m := |texts[0]|;
      && m <= |chars| && chars[..m] == texts[0]
      && (forall k | 0 <= k < m :: starts[k] == cuts[0] && ends[k] == cuts[1])
      && Laid(chars[m..], starts[m..], ends[m..], cuts[1..], texts[1..])
  }

  ghost predicate MeansAt(rules: Rules, raw: string, cuts: seq<nat>, texts: seq<string>, a: nat)
    requires a < |texts| && |cuts| == |texts| + 1
  {
    Means(rules, raw, cuts[a], cuts[a + 1], texts[a])
  }

  /** The clusters cut the text from `from` to its end, and the result is what each of them becomes. */
  ghost predicate Described(rules: Rules, raw: string, from: nat, n: Normal, cuts: seq<nat>, texts: seq<string>) {
    && |cuts| == |texts| + 1 && cuts[0] == from && cuts[|texts|] == |raw|
    && (forall a | 0 <= a < |texts| :: MeansAt(rules, raw, cuts, texts, a))
    && |n.chars| == |n.starts| == |n.ends| && Laid(n.chars, n.starts, n.ends, cuts, texts)
  }

  // ---------------------------------------------------------------- the scan, as it runs

  function Join(a: Normal, b: Normal): Normal {
    Normal(a.chars + b.chars, a.starts + b.starts, a.ends + b.ends, a.removed + b.removed)
  }

  /** The loop of the service: one left-to-right pass appending to three lists. */
  method NormalizeText(rules: Rules, raw: string) returns (n: Normal)
    ensures n == NormalOf(rules, raw)
    ensures exists cuts, texts :: Described(rules, raw, 0, n, cuts, texts)
  {
    hide From, Described;
    ghost var cuts, texts := ScanDescribed(rules, raw, 0);
    var i := 0;
    n := Normal("", [], [], 0);
    NothingScanned(rules, raw, n);
    while i < |raw|
      invariant i <= |raw|
      invariant NormalOf(rules, raw) == Join(n, From(rules, raw, i))
      decreases |raw| - i
    {
      hide ClusterAt;
      ghost var before := n;
      var start := i;
      if ZeroWidth(raw[i]) {
        n := n.(removed := n.removed + 1);
        i := i + 1;
        DroppedCluster(rules, raw, start);
      } else {
        var text;
        i, text := ReadCluster(rules, raw, start);
        n := n.(chars := n.chars + text, starts := n.starts + Repeat(|text|, start), ends := n.ends + Repeat(|text|, i));
      }
      AppendCluster(rules, raw, start, before, n);
    }
    NothingLeft(rules, raw, n);
  }

  lemma NothingScanned(rules: Rules, raw: string, n: Normal)
    requires n == Normal("", [], [], 0)
    ensures Join(n, From(rules, raw, 0)) == NormalOf(rules, raw)
  {
    hide From;
    JoinNothing(From(rules, raw, 0));
  }

  lemma JoinNothing(n: Normal)
    ensures Join(Normal("", [], [], 0), n) == n
    ensures Join(n, Normal("", [], [], 0)) == n
  {
  }

  lemma NothingLeft(rules: Rules, raw: string, n: Normal)
    ensures Join(n, From(rules, raw, |raw|)) == n
  {
    hide ClusterAt, Prepend;
    JoinNothing(n);
  }

  lemma DroppedCluster(rules: Rules, raw: string, start: nat)
    requires start < |raw| && ZeroWidth(raw[start])
    ensures ClusterAt(rules, raw, start) == Cluster(start + 1, "")
  {
  }

  /** One turn for a character that is kept: where its cluster ends and what it becomes. */
  method ReadCluster(rules: Rules, raw: string, start: nat) returns (i: nat, text: string)
    requires start < |raw| && !ZeroWidth(raw[start])
    ensures ClusterAt(rules, raw, start) == Cluster(i, text)
  {
    var c := raw[start];
    i := start + 1;
    if c == '\r' {
      if i < |raw| && raw[i] == '\n' {
        i := i + 1;
      }
      text := "\n";
    } else if Blank(c) {
      while i < |raw| && Blank(raw[i])
        invariant start < i <= |raw| && SkipBlank(raw, i) == SkipBlank(raw, start + 1)
      {
        i := i + 1;
      }
      text := " ";
    } else {
      while i < |raw| && rules.combining(raw[i])
        invariant start < i <= |raw| && SkipCombining(rules, raw, i) == SkipCombining(rules, raw, start + 1)
      {
        i := i + 1;
      }
      text := rules.nfc(raw[start..i]);
      i, text := ComposeOn(rules, raw, i, text);
    }
  }

  method ComposeOn(rules: Rules, raw: string, at: nat, text: string) returns (i: nat, c: string)
    requires at <= |raw|
    ensures Cluster(i, c) == Compose(rules, raw, at, text)
  {
    i, c := at, text;
    while i < |raw|
      invariant i <= |raw| && Compose(rules, raw, i, c) == Compose(rules, raw, at, text)
    {
      var combined := rules.nfc(c + [raw[i]]);
      if |combined| >= |c| + 1 {
        return;
      }
      c := combined;
      i := i + 1;
    }
  }

  lemma AppendCluster(rules: Rules, raw: string, start: nat, before: Normal, n: Normal)
    requires start < |raw|
    requires var r := ClusterAt(rules, raw, start);
             n == Join(before, Normal(r.text, Repeat(|r.text|, start), Repeat(|r.text|, r.end), if ZeroWidth(raw[start]) then 1 else 0))
    ensures Join(before, From(rules, raw, start)) == Join(n, From(rules, raw, ClusterAt(rules, raw, start).end))
  {
    hide ClusterAt;
    var rest := From(rules, raw, ClusterAt(rules, raw, start).end);
    var whole := From(rules, raw, start);
    assert Join(before, whole).chars == Join(n, rest).chars;
    assert Join(before, whole).starts == Join(n, rest).starts;
    assert Join(before, whole).ends == Join(n, rest).ends;
  }

  // ---------------------------------------------------------------- the scan gives it

  lemma {:induction false} BlanksSkipped(raw: string, p: nat, i: nat)
    requires p <= i <= |raw| && forall k | p <= k < i :: Blank(raw[k])
    ensures forall k | p <= k < SkipBlank(raw, i) :: Blank(raw[k])
    ensures SkipBlank(raw, i) < |raw| ==> !Blank(raw[SkipBlank(raw, i)])
    decreases |raw| - i
  {
    if i < |raw| && Blank(raw[i]) {
      BlanksSkipped(raw, p, i + 1);
    }
  }

  lemma {:induction false} MarksSkipped(rules: Rules, raw: string, p: nat, i: nat)
    requires p < i <= |raw| && forall k | p < k < i :: rules.combining(raw[k])
    ensures forall k | p < k < SkipCombining(rules, raw, i) :: rules.combining(raw[k])
    ensures SkipCombining(rules, raw, i) < |raw| ==> !rules.combining(raw[SkipCombining(rules, raw, i)])
    decreases |raw| - i
  {
    if i < |raw| && rules.combining(raw[i]) {
      MarksSkipped(rules, raw, p, i + 1);
    }
  }

  lemma {:induction false} ComposeMeans(rules: Rules, raw: string, p: nat, j: nat, i: nat)
    requires p < j <= i <= |raw|
    requires forall e | j <= e < i :: Absorbed(rules, raw, p, j, e)
    ensures var r := Compose(rules, raw, i, Composition(rules, raw, p, j, i));
            && i <= r.end <= |raw| && r.text == Composition(rules, raw, p, j, r.end)
            && (forall e | j <= e < r.end :: Absorbed(rules, raw, p, j, e))
            && (r.end < |raw| ==> |rules.nfc(r.text + [raw[r.end]])| > |r.text|)
    decreases |raw| - i
  {
    if i < |raw| {
      var c := Composition(rules, raw, p, j, i);
      var combined := rules.nfc(c + [raw[i]]);
      assert combined == Composition(rules, raw, p, j, i + 1);
      if |combined| < |c| + 1 {
        assert Absorbed(rules, raw, p, j, i);
        ComposeMeans(rules, raw, p, j, i + 1);
      }
    }
  }

  lemma ClusterMeans(rules: Rules, raw: string, i: nat)
    requires i < |raw|
    ensures Means(rules, raw, i, ClusterAt(rules, raw, i).end, ClusterAt(rules, raw, i).text)
  {
    hide SkipBlank, SkipCombining, Compose;
    var r := ClusterAt(rules, raw, i);
    if Blank(raw[i]) {
      BlanksSkipped(raw, i, i + 1);
    } else if !ZeroWidth(raw[i]) && raw[i] != '\r' {
      MarksSkipped(rules, raw, i, i + 1);
      var j := SkipCombining(rules, raw, i + 1);
      ComposeMeans(rules, raw, i, j, j);
      assert ComposedFrom(rules, raw, i, j, r.end, r.text);
    }
  }

  lemma PrependLaid(i: nat, r: Cluster, dropped: nat, rest: Normal, cuts: seq<nat>, texts: seq<string>)
    requires |cuts| == |texts| + 1 && cuts[0] == r.end
    requires |rest.chars| == |rest.starts| == |rest.ends| && Laid(rest.chars, rest.starts, rest.ends, cuts, texts)
    ensures var n := Prepend(i, r, dropped, rest);
            |n.chars| == |n.starts| == |n.ends| && Laid(n.chars, n.starts, n.ends, [i] + cuts, [r.text] + texts)
  {
    var n, m := Prepend(i, r, dropped, rest), |r.text|;
    assert n.chars[m..] == rest.chars && n.starts[m..] == rest.starts && n.ends[m..] == rest.ends;
    assert ([i] + cuts)[1..] == cuts && ([r.text] + texts)[1..] == texts;
  }

  /** The scan's result, told without the scan. */
  lemma {:induction false} ScanDescribed(rules: Rules, raw: string, i: nat) returns (cuts: seq<nat>, texts: seq<string>)
    requires i <= |raw|
    ensures Described(rules, raw, i, From(rules, raw, i), cuts, texts)
    decreases |raw| - i
  {
    hide Means, ClusterAt;
    if i == |raw| {
      cuts, texts := [i], [];
    } else {
      var r := ClusterAt(rules, raw, i);
      var later, rest := ScanDescribed(rules, raw, r.end);
      ClusterMeans(rules, raw, i);
      cuts, texts := [i] + later, [r.text] + rest;
      PrependLaid(i, r, if ZeroWidth(raw[i]) then 1 else 0, From(rules, raw, r.end), later, rest);
      forall a | 0 <= a < |texts|
        ensures MeansAt(rules, raw, cuts, texts, a)
      {
        assert a > 0 ==> MeansAt(rules, raw, later, rest, a - 1);
      }
    }
  }

  // ---------------------------------------------------------------- what the description says

  /** What a position's cluster is, and what it becomes, is determined. */
  lemma MeansOnce(rules: Rules, raw: string, p: nat, q: nat, text: string, q': nat, text': string)
    requires Means(rules, raw, p, q, text) && Means(rules, raw, p, q', text')
    ensures q == q' && text == text'
  {
    var c := raw[p];
    if c == ' ' || c == '\t' {
      var next := if q < |raw| then raw[q] else c;
      var next' := if q' < |raw| then raw[q'] else c;
    } else if !ZeroWidth(c) && c != '\r' {
      var j :| p < j <= q && ComposedFrom(rules, raw, p, j, q, text);
      var j' :| p < j' <= q' && ComposedFrom(rules, raw, p, j', q', text');
      var mark := if j < |raw| then raw[j] else c;
      var mark' := if j' < |raw| then raw[j'] else c;
      assert j == j';
      var composes := q < |raw| && Absorbed(rules, raw, p, j, q);
      var composes' := q' < |raw| && Absorbed(rules, raw, p, j, q');
    }
  }

  /** So the description leaves nothing open: no other characters or offsets meet it. */
  lemma {:induction false} DescribedOnce(rules: Rules, raw: string, from: nat, n: Normal, cuts: seq<nat>, texts: seq<string>,
                                         n': Normal, cuts': seq<nat>, texts': seq<string>)
    requires Described(rules, raw, from, n, cuts, texts) && Described(rules, raw, from, n', cuts', texts')
    ensures n'.chars == n.chars && n'.starts == n.starts && n'.ends == n.ends
    decreases |texts|
  {
    hide Means;
    if texts == [] || texts' == [] {
      AtEnd(rules, raw, from, n, cuts, texts);
      AtEnd(rules, raw, from, n', cuts', texts');
    } else {
      assert MeansAt(rules, raw, cuts, texts, 0) && MeansAt(rules, raw, cuts', texts', 0);
      MeansOnce(rules, raw, from, cuts[1], texts[0], cuts'[1], texts'[0]);
      var rest := Rest(rules, raw, from, n, cuts, texts);
      var rest' := Rest(rules, raw, from, n', cuts', texts');
      DescribedOnce(rules, raw, cuts[1], rest, cuts[1..], texts[1..], rest', cuts'[1..], texts'[1..]);
      SameParts(n, n', |texts[0]|);
    }
  }

  lemma AtEnd(rules: Rules, raw: string, from: nat, n: Normal, cuts: seq<nat>, texts: seq<string>)
    requires Described(rules, raw, from, n, cuts, texts)
    ensures texts == [] <==> from == |raw|
    ensures texts == [] ==> n.chars == "" && n.starts == [] && n.ends == []
  {
    if texts != [] {
      assert MeansAt(rules, raw, cuts, texts, 0);
    }
  }

  lemma Rest(rules: Rules, raw: string, from: nat, n: Normal, cuts: seq<nat>, texts: seq<string>) returns (rest: Normal)
    requires Described(rules, raw, from, n, cuts, texts) && texts != []
    ensures |texts[0]| <= |n.chars| == |n.starts| == |n.ends|
    ensures rest == Normal(n.chars[|texts[0]|..], n.starts[|texts[0]|..], n.ends[|texts[0]|..], 0)
    ensures Described(rules, raw, cuts[1], rest, cuts[1..], texts[1..])
  {
    hide Means;
    rest := Normal(n.chars[|texts[0]|..], n.starts[|texts[0]|..], n.ends[|texts[0]|..], 0);
    forall a | 0 <= a < |texts| - 1
      ensures MeansAt(rules, raw, cuts[1..], texts[1..], a)
    {
      assert MeansAt(rules, raw, cuts, texts, a + 1);
    }
  }

  lemma SameParts(n: Normal, n': Normal, m: nat)
    requires m <= |n.chars| == |n.starts| == |n.ends| && m <= |n'.chars| == |n'.starts| == |n'.ends|
    requires n.chars[..m] == n'.chars[..m] && n.chars[m..] == n'.chars[m..]
    requires n.starts[m..] == n'.starts[m..] && n.ends[m..] == n'.ends[m..]
    requires forall k | 0 <= k < m :: n.starts[k] == n'.starts[k] && n.ends[k] == n'.ends[k]
    ensures n.chars == n'.chars && n.starts == n'.starts && n.ends == n'.ends
  {
    assert n.chars == n.chars[..m] + n.chars[m..] && n'.chars == n'.chars[..m] + n'.chars[m..];
    assert n.starts[..m] == n'.starts[..m] && n.ends[..m] == n'.ends[..m];
    assert n.starts == n.starts[..m] + n.starts[m..] && n'.starts == n'.starts[..m] + n'.starts[m..];
    assert n.ends == n.ends[..m] + n.ends[m..] && n'.ends == n'.ends[..m] + n'.ends[m..];
  }

  /** Composing twice is composing once, as it is for NFC. */
  ghost predicate Absorbs(rules: Rules, s: string, t: string) {
    rules.nfc(rules.nfc(s) + t) == rules.nfc(s + t)
  }

  /** Then an ordinary cluster becomes the composition of its raw slice. */
  lemma {:induction false} CompositionOfSlice(rules: Rules, raw: string, p: nat, j: nat, e: nat)
    requires p <= j <= e <= |raw| && forall s, t :: Absorbs(rules, s, t)
    ensures Composition(rules, raw, p, j, e) == rules.nfc(raw[p..e])
    decreases e
  {
    if j < e {
      CompositionOfSlice(rules, raw, p, j, e - 1);
      assert Absorbs(rules, raw[p..e - 1], [raw[e - 1]]);
      assert raw[p..e - 1] + [raw[e - 1]] == raw[p..e];
    }
  }

  /** If composition never empties a text, nothing but zero-width characters disappears. */
  lemma OnlyZeroWidthVanishes(rules: Rules, raw: string, p: nat, q: nat, text: string)
    requires Means(rules, raw, p, q, text) && forall s | s != "" :: rules.nfc(s) != ""
    ensures text == "" <==> raw[p] in {'\U{200B}', '\U{200C}', '\U{200D}', '\U{FEFF}', '\U{200E}', '\U{200F}'}
  {
    if j :| p < j <= q && ComposedFrom(rules, raw, p, j, q, text) {
      assert Composition(rules, raw, p, j, q) != "";
    }
  }

  /** Characters the scan rewrites, and blanks that follow a blank. */
  ghost predicate Rewritten(raw: string, i: nat)
    requires i < |raw|
  {
    raw[i] in {'\U{200B}', '\U{200C}', '\U{200D}', '\U{FEFF}', '\U{200E}', '\U{200F}', '\r', '\t'}
    || (raw[i] == ' ' && i > 0 && raw[i - 1] == ' ')
  }

  /** Text without such characters, and already composed, comes back unchanged. */
  lemma PlainTextUnchanged(rules: Rules, raw: string)
    requires forall s :: rules.nfc(s) == s
    requires forall i | 0 <= i < |raw| :: !Rewritten(raw, i)
    ensures NormalOf(rules, raw).chars == raw
  {
    PlainFrom(rules, raw, 0);
    assert raw[0..] == raw;
  }

  lemma {:induction false} PlainFrom(rules: Rules, raw: string, i: nat)
    requires i <= |raw| && (forall s :: rules.nfc(s) == s)
    requires forall k | 0 <= k < |raw| :: !Rewritten(raw, k)
    ensures From(rules, raw, i).chars == raw[i..]
    decreases |raw| - i
  {
    if i < |raw| {
      var r := ClusterAt(rules, raw, i);
      ClusterMeans(rules, raw, i);
      PlainFrom(rules, raw, r.end);
      PlainCluster(rules, raw, i, r.end, r.text);
      assert raw[i..r.end] + raw[r.end..] == raw[i..];
    }
  }

  lemma PlainCluster(rules: Rules, raw: string, p: nat, q: nat, text: string)
    requires Means(rules, raw, p, q, text) && (forall s :: rules.nfc(s) == s)
    requires forall k | 0 <= k < |raw| :: !Rewritten(raw, k)
    ensures text == raw[p..q]
  {
    assert !Rewritten(raw, p);
    if raw[p] == ' ' {
      var next := p + 1 < |raw| && Rewritten(raw, p + 1);
    } else {
      var j :| p < j <= q && ComposedFrom(rules, raw, p, j, q, text);
      PlainComposition(rules, raw, p, j, q);
    }
  }

  lemma {:induction false} PlainComposition(rules: Rules, raw: string, p: nat, j: nat, e: nat)
    requires p <= j <= e <= |raw| && forall s :: rules.nfc(s) == s
    ensures Composition(rules, raw, p, j, e) == raw[p..e]
    decreases e
  {
    if j < e {
      PlainComposition(rules, raw, p, j, e - 1);
    }
  }

  // ---------------------------------------------------------------- partition of the raw text

  /** Cluster boundaries, in order, from i to the end of the text. */
  function Cuts(rules: Rules, raw: string, i: nat): seq<nat>
    requires i <= |raw|
    decreases |raw| - i
  {
    if i == |raw| then [i] else [i] + Cuts(rules, raw, ClusterAt(rules, raw, i).end)
  }

  function CountZeroWidthCuts(raw: string, cuts: seq<nat>): nat {
    if cuts == [] then 0
    else CountZeroWidthCuts(raw, cuts[1..]) + if cuts[0] < |raw| && ZeroWidth(raw[cuts[0]]) then 1 else 0
  }

  /** The cuts run from i to the end of the text without a gap, one per cluster. */
  lemma {:induction false} CutsPartition(rules: Rules, raw: string, i: nat)
    requires i <= |raw|
    ensures var cuts := Cuts(rules, raw, i);
            && cuts[0] == i && cuts[|cuts| - 1] == |raw|
            && (forall a, b | 0 <= a < b < |cuts| :: cuts[a] < cuts[b])
            && (forall a | 0 <= a < |cuts| - 1 :: cuts[a] < |raw| && cuts[a + 1] == ClusterAt(rules, raw, cuts[a]).end)
    decreases |raw| - i
  {
    if i < |raw| {
      CutsPartition(rules, raw, ClusterAt(rules, raw, i).end);
    }
  }

  /** The dropped characters are exactly the clusters cut at a zero-width character. */
  lemma {:induction false} RemovedCounted(rules: Rules, raw: string, i: nat)
    requires i <= |raw|
    ensures From(rules, raw, i).removed == CountZeroWidthCuts(raw, Cuts(rules, raw, i))
    decreases |raw| - i
  {
    if i < |raw| {
      var end := ClusterAt(rules, raw, i).end;
      RemovedCounted(rules, raw, end);
      assert Cuts(rules, raw, i)[1..] == Cuts(rules, raw, end);
    }
  }

  /** Every normalised character belongs to one cluster of the partition, never to a dropped one. */
  lemma {:induction false} CharacterInCut(rules: Rules, raw: string, i: nat, k: nat) returns (a: nat)
    requires i <= |raw| && k < |From(rules, raw, i).chars|
    ensures var n := From(rules, raw, i);
            var cuts := Cuts(rules, raw, i);
            a < |cuts| - 1 && cuts[a] == n.starts[k] && cuts[a + 1] == n.ends[k] && !ZeroWidth(raw[n.starts[k]])
    decreases |raw| - i
  {
    var r := ClusterAt(rules, raw, i);
    assert Cuts(rules, raw, r.end)[0] == r.end;
    if k < |r.text| {
      a := 0;
    } else {
      var b := CharacterInCut(rules, raw, r.end, k - |r.text|);
      a := b + 1;
    }
  }

  // ---------------------------------------------------------------- spans

  /** raw_span, for a valid normalised span. */
  function RawSpan(n: Normal, start: nat, end: nat): (nat, nat)
    requires |n.chars| == |n.starts| == |n.ends| && start < end <= |n.chars|
  {
    (n.starts[start], n.ends[end - 1])
  }

  /** The first character of the cluster that character k belongs to. */
  function FirstOf(starts: seq<nat>, k: nat): (f: nat)
    requires k < |starts|
    ensures f <= k
  {
    if k > 0 && starts[k - 1] == starts[k] then FirstOf(starts, k - 1) else k
  }

  /** One past the last character of the cluster that character k - 1 belongs to. */
  function PastOf(starts: seq<nat>, k: nat): (p: nat)
    requires 0 < k <= |starts|
    ensures k <= p <= |starts|
    decreases |starts| - k
  {
    if k < |starts| && starts[k] == starts[k - 1] then PastOf(starts, k + 1) else k
  }

  lemma {:induction false} FirstOfShift(head: seq<nat>, rest: seq<nat>, k: nat)
    requires |head| <= k < |head| + |rest|
    requires head == [] || head[|head| - 1] != rest[0]
    ensures FirstOf(head + rest, k) == |head| + FirstOf(rest, k - |head|)
    decreases k
  {
    if k > |head| {
      FirstOfShift(head, rest, k - 1);
    }
  }

  lemma {:induction false} FirstOfRun(starts: seq<nat>, k: nat)
    requires k < |starts| && forall j | 0 <= j <= k :: starts[j] == starts[0]
    ensures FirstOf(starts, k) == 0
  {
    if k > 0 {
      FirstOfRun(starts, k - 1);
    }
  }

  lemma {:induction false} PastOfShift(head: seq<nat>, rest: seq<nat>, k: nat)
    requires |head| < k <= |head| + |rest|
    ensures PastOf(head + rest, k) == |head| + PastOf(rest, k - |head|)
    decreases |head| + |rest| - k
  {
    if k < |head| + |rest| {
      PastOfShift(head, rest, k + 1);
    }
  }

  lemma {:induction false} PastOfRun(starts: seq<nat>, run: nat, k: nat)
    requires 0 < k <= run <= |starts| && (forall j | 0 <= j < run :: starts[j] == starts[0])
    requires run < |starts| ==> starts[run] != starts[0]
    ensures PastOf(starts, k) == run
    decreases run - k
  {
    if k < run {
      PastOfRun(starts, run, k + 1);
    }
  }

  /** q is a cluster boundary of the scan that starts at i. */
  predicate Boundary(rules: Rules, raw: string, i: nat, q: nat)
    requires i <= |raw|
    decreases |raw| - i
  {
    q == i || (i < |raw| && Boundary(rules, raw, ClusterAt(rules, raw, i).end, q))
  }

  ghost predicate Aligned(n: Normal) {
    |n.chars| == |n.starts| == |n.ends|
  }

  /** Characters after the first cluster keep their clusters. */
  lemma PrependLater(i: nat, r: Cluster, dropped: nat, rest: Normal, k: nat)
    requires Aligned(rest) && |r.text| <= k < |r.text| + |rest.chars|
    requires forall j | 0 <= j < |rest.starts| :: rest.starts[j] != i
    ensures var n := Prepend(i, r, dropped, rest);
            var j := k - |r.text|;
            && n.starts[k] == rest.starts[j] && n.ends[k] == rest.ends[j]
            && FirstOf(n.starts, k) == |r.text| + FirstOf(rest.starts, j)
            && n.chars[FirstOf(n.starts, k)..] == rest.chars[FirstOf(rest.starts, j)..]
            && PastOf(n.starts, k + 1) == |r.text| + PastOf(rest.starts, j + 1)
            && n.chars[PastOf(n.starts, k + 1)..] == rest.chars[PastOf(rest.starts, j + 1)..]
  {
    hide FirstOf, PastOf;
    FirstOfShift(Repeat(|r.text|, i), rest.starts, k);
    PastOfShift(Repeat(|r.text|, i), rest.starts, k + 1);
    DropShift(r.text, rest.chars, FirstOf(rest.starts, k - |r.text|));
    DropShift(r.text, rest.chars, PastOf(rest.starts, k - |r.text| + 1));
  }

  lemma DropShift(a: string, b: string, x: nat)
    requires x <= |b|
    ensures (a + b)[|a| + x..] == b[x..]
  {
  }

  lemma PrependFirst(i: nat, r: Cluster, dropped: nat, rest: Normal, k: nat)
    requires Aligned(rest) && k < |r.text|
    requires forall j | 0 <= j < |rest.starts| :: rest.starts[j] != i
    ensures var n := Prepend(i, r, dropped, rest);
            && n.starts[k] == i && n.ends[k] == r.end
            && FirstOf(n.starts, k) == 0
            && PastOf(n.starts, k + 1) == |r.text|
            && n.chars[PastOf(n.starts, k + 1)..] == rest.chars
  {
    var n := Prepend(i, r, dropped, rest);
    FirstOfRun(n.starts, k);
    PastOfRun(n.starts, |r.text|, k + 1);
  }

  /**
   Where a character's cluster starts, and where it ends, the scan restarts with exactly the
   rest of the text.
   */
  lemma {:induction false} Locate(rules: Rules, raw: string, i: nat, k: nat)
    requires i <= |raw| && k < |From(rules, raw, i).chars|
    ensures var n := From(rules, raw, i);
            && Boundary(rules, raw, i, n.starts[k])
            && Boundary(rules, raw, i, n.ends[k])
            && From(rules, raw, n.starts[k]).chars == n.chars[FirstOf(n.starts, k)..]
            && From(rules, raw, n.ends[k]).chars == n.chars[PastOf(n.starts, k + 1)..]
    decreases |raw| - i
  {
    var r := ClusterAt(rules, raw, i);
    var rest := From(rules, raw, r.end);
    var dropped := if ZeroWidth(raw[i]) then 1 else 0;
    assert From(rules, raw, i) == Prepend(i, r, dropped, rest);
    assert Boundary(rules, raw, r.end, r.end);
    if k < |r.text| {
      PrependFirst(i, r, dropped, rest, k);
    } else {
      PrependLater(i, r, dropped, rest, k);
      Locate(rules, raw, r.end, k - |r.text|);
    }
  }

  lemma {:induction false} BoundaryBetween(rules: Rules, raw: string, i: nat, p: nat, q: nat)
    requires i <= |raw| && Boundary(rules, raw, i, p) && Boundary(rules, raw, i, q) && p <= q
    ensures i <= p <= q <= |raw| && Boundary(rules, raw, p, q)
    decreases |raw| - i
  {
    if p != i {
      BoundaryAbove(rules, raw, ClusterAt(rules, raw, i).end, p);
      BoundaryBetween(rules, raw, ClusterAt(rules, raw, i).end, p, q);
    } else {
      BoundaryAbove(rules, raw, i, q);
    }
  }

  lemma {:induction false} BoundaryAbove(rules: Rules, raw: string, i: nat, q: nat)
    requires i <= |raw| && Boundary(rules, raw, i, q)
    ensures i <= q <= |raw|
    decreases |raw| - i
  {
    if q != i {
      BoundaryAbove(rules, raw, ClusterAt(rules, raw, i).end, q);
    }
  }

  // ---------------------------------------------------------------- scanning a slice

  lemma {:induction false} SkipBlankSlice(raw: string, p: nat, q: nat, i: nat)
    requires p <= i <= q <= |raw| && SkipBlank(raw, i) <= q
    ensures SkipBlank(raw[p..q], i - p) == SkipBlank(raw, i) - p
    decreases q - i
  {
    if i < q && Blank(raw[i]) {
      SkipBlankSlice(raw, p, q, i + 1);
    }
  }

  lemma {:induction false} SkipCombiningSlice(rules: Rules, raw: string, p: nat, q: nat, i: nat)
    requires p <= i <= q <= |raw| && SkipCombining(rules, raw, i) <= q
    ensures SkipCombining(rules, raw[p..q], i - p) == SkipCombining(rules, raw, i) - p
    decreases q - i
  {
    if i < q && rules.combining(raw[i]) {
      SkipCombiningSlice(rules, raw, p, q, i + 1);
    }
  }

  lemma {:induction false} ComposeSlice(rules: Rules, raw: string, p: nat, q: nat, i: nat, c: string)
    requires p <= i <= q <= |raw| && Compose(rules, raw, i, c).end <= q
    ensures Compose(rules, raw[p..q], i - p, c) == Cluster(Compose(rules, raw, i, c).end - p, Compose(rules, raw, i, c).text)
    decreases q - i
  {
    if i < q {
      var combined := rules.nfc(c + [raw[i]]);
      if |combined| < |c| + 1 {
        ComposeSlice(rules, raw, p, q, i + 1, combined);
      }
    }
  }

  lemma SliceOfSlice(s: string, p: nat, q: nat, i: nat, j: nat)
    requires p <= i <= j <= q <= |s|
    ensures s[p..q][i - p..j - p] == s[i..j]
  {
    forall k | 0 <= k < j - i
      ensures s[p..q][i - p..j - p][k] == s[i..j][k]
    {
    }
  }

  /** A cluster that ends within a slice is scanned the same way there. */
  lemma ClusterSlice(rules: Rules, raw: string, p: nat, q: nat, i: nat)
    requires p <= i < q <= |raw| && ClusterAt(rules, raw, i).end <= q
    ensures ClusterAt(rules, raw[p..q], i - p) == Cluster(ClusterAt(rules, raw, i).end - p, ClusterAt(rules, raw, i).text)
  {
    hide SkipBlank, SkipCombining, Compose;
    var c := raw[i];
    assert raw[p..q][i - p] == c;
    if ZeroWidth(c) || c == '\r' {
    } else if Blank(c) {
      SkipBlankSlice(raw, p, q, i + 1);
    } else {
      var j := SkipCombining(rules, raw, i + 1);
      SkipCombiningSlice(rules, raw, p, q, i + 1);
      SliceOfSlice(raw, p, q, i, j);
      ComposeSlice(rules, raw, p, q, j, rules.nfc(raw[i..j]));
    }
  }

  /** The normalised characters alone. */
  function Chars(rules: Rules, raw: string, i: nat): string
    requires i <= |raw|
    decreases |raw| - i
  {
    if i == |raw| then ""
    else
      var r := ClusterAt(rules, raw, i);
      r.text + Chars(rules, raw, r.end)
  }

  lemma {:induction false} CharsOfFrom(rules: Rules, raw: string, i: nat)
    requires i <= |raw|
    ensures From(rules, raw, i).chars == Chars(rules, raw, i)
    decreases |raw| - i
  {
    if i < |raw| {
      CharsOfFrom(rules, raw, ClusterAt(rules, raw, i).end);
    }
  }

  /** Between two boundaries, the slice normalises to what the whole text has there. */
  lemma {:induction false} SliceNormal(rules: Rules, raw: string, p: nat, q: nat, i: nat)
    requires p <= i <= q <= |raw| && Boundary(rules, raw, i, q)
    ensures Chars(rules, raw, i) == Chars(rules, raw[p..q], i - p) + Chars(rules, raw, q)
    decreases q - i
  {
    hide ClusterAt;
    if i < q {
      var r := ClusterAt(rules, raw, i);
      BoundaryAbove(rules, raw, r.end, q);
      ClusterSlice(rules, raw, p, q, i);
      SliceNormal(rules, raw, p, q, r.end);
    }
  }

  // ---------------------------------------------------------------- the main results

  /** Every valid normalised span maps to a non-empty span inside the raw text. */
  lemma RawSpanInBounds(rules: Rules, raw: string, start: nat, end: nat)
    requires start < end <= |NormalOf(rules, raw).chars|
    ensures var (p, q) := RawSpan(NormalOf(rules, raw), start, end); p < q <= |raw|
  {
    StartsOrdered(rules, raw, 0, start, end - 1);
  }

  lemma {:induction false} StartsOrdered(rules: Rules, raw: string, i: nat, a: nat, b: nat)
    requires i <= |raw| && a <= b < |From(rules, raw, i).chars|
    ensures From(rules, raw, i).starts[a] <= From(rules, raw, i).starts[b]
    ensures From(rules, raw, i).ends[a] <= From(rules, raw, i).ends[b]
    decreases |raw| - i
  {
    var r := ClusterAt(rules, raw, i);
    if a >= |r.text| {
      StartsOrdered(rules, raw, r.end, a - |r.text|, b - |r.text|);
    }
  }

  /**
   Normalising the raw slice of any span gives exactly the normalised text of the clusters the
   span touches: the span itself, widened to whole clusters at both ends.
   */
  lemma RawSliceNormalises(rules: Rules, raw: string, start: nat, end: nat)
    requires start < end <= |NormalOf(rules, raw).chars|
    ensures var n := NormalOf(rules, raw);
            var (p, q) := RawSpan(n, start, end);
            && p < q <= |raw|
            && NormalOf(rules, raw[p..q]).chars == n.chars[FirstOf(n.starts, start)..PastOf(n.starts, end)]
  {
    hide From, FirstOf, PastOf, Chars, Boundary, ClusterAt;
    var n := NormalOf(rules, raw);
    var (p, q) := RawSpan(n, start, end);
    RawSpanInBounds(rules, raw, start, end);
    RestartsAt(rules, raw, start);
    RestartsAt(rules, raw, end - 1);
    BoundaryBetween(rules, raw, 0, p, q);
    SliceNormal(rules, raw, p, q, p);
    CharsOfFrom(rules, raw[p..q], 0);
    CancelTail(n.chars, NormalOf(rules, raw[p..q]).chars, FirstOf(n.starts, start), PastOf(n.starts, end));
  }

  lemma RestartsAt(rules: Rules, raw: string, k: nat)
    requires k < |NormalOf(rules, raw).chars|
    ensures var n := NormalOf(rules, raw);
            && Boundary(rules, raw, 0, n.starts[k]) && Boundary(rules, raw, 0, n.ends[k])
            && Chars(rules, raw, n.starts[k]) == n.chars[FirstOf(n.starts, k)..]
            && Chars(rules, raw, n.ends[k]) == n.chars[PastOf(n.starts, k + 1)..]
  {
    var n := NormalOf(rules, raw);
    Locate(rules, raw, 0, k);
    CharsOfFrom(rules, raw, n.starts[k]);
    CharsOfFrom(rules, raw, n.ends[k]);
  }

  lemma CancelTail(whole: string, slice: string, first: nat, past: nat)
    requires first <= past <= |whole| && whole[first..] == slice + whole[past..]
    ensures slice == whole[first..past]
  {
    assert |slice| == past - first;
    assert slice == (slice + whole[past..])[..past - first];
  }

  /** The round trip returns the span itself exactly when the span lies on cluster boundaries. */
  lemma RoundTripIff(rules: Rules, raw: string, start: nat, end: nat)
    requires start < end <= |NormalOf(rules, raw).chars|
    ensures var n := NormalOf(rules, raw);
            var (p, q) := RawSpan(n, start, end);
            p < q <= |raw|
            && (NormalOf(rules, raw[p..q]).chars == n.chars[start..end]
                <==> (start == 0 || n.starts[start - 1] != n.starts[start])
                     && (end == |n.chars| || n.starts[end] != n.starts[end - 1]))
  {
    RawSliceNormalises(rules, raw, start, end);
    var n := NormalOf(rules, raw);
    var first, past := FirstOf(n.starts, start), PastOf(n.starts, end);
    assert |n.chars[first..past]| == past - first;
    assert |n.chars[start..end]| == end - start;
  }
}

/** Text, character budget and line ranges of Office files and PDFs. */
module Documents {
  import opened Common
  import opened Lines

  const MaxTextChars: nat := 5_000_000

  datatype Refusal = TextLimit | InvalidSharedString

  // ---------------------------------------------------------------- lengths

  function Total(parts: seq<string>): nat {
    if parts == [] then 0 else Total(parts[..|parts| - 1]) + |parts[|parts| - 1]|
  }

  function Concat(parts: seq<string>): (text: string)
    ensures |text| == Total(parts)
  {
    if parts == [] then "" else Concat(parts[..|parts| - 1]) + parts[|parts| - 1]
  }

  function Gaps(n: nat): nat {
    if n == 0 then 0 else n - 1
  }

  function Repeat(c: char, n: nat): (s: string)
    ensures |s| == n
  {
    seq(n, _ => c)
  }

  lemma {:induction false} JoinLength(sep: string, parts: seq<string>)
    ensures |JoinWith(sep, parts)| == Total(parts) + |sep| * Gaps(|parts|)
  {
    if |parts| == 1 {
      assert Total(parts[..0]) == 0;
    } else if |parts| > 1 {
      JoinLength(sep, parts[..|parts| - 1]);
      assert |sep| * (|parts| - 1) == |sep| * (|parts| - 2) + |sep|;
    }
  }

  lemma {:induction false} TotalPrefix(parts: seq<string>, n: nat)
    requires n <= |parts|
    ensures Total(parts[..n]) <= Total(parts)
    decreases |parts|
  {
    if n < |parts| {
      assert parts[..|parts| - 1][..n] == parts[..n];
      TotalPrefix(parts[..|parts| - 1], n);
    } else {
      assert parts[..n] == parts;
    }
  }

  lemma TotalSnoc(parts: seq<string>, text: string)
    ensures Total(parts + [text]) == Total(parts) + |text|
    ensures Total(parts + []) == Total(parts)
  {
    assert (parts + [text])[..|parts|] == parts;
    assert parts + [] == parts;
  }

  lemma Snoc<T>(xs: seq<T>, i: nat)
    requires i < |xs|
    ensures xs[..i + 1] == xs[..i] + [xs[i]]
    ensures xs[..i + 1][..i] == xs[..i]
  {
  }

  lemma TotalNext(parts: seq<string>, i: nat)
    requires i < |parts|
    ensures parts[..i + 1] == parts[..i] + [parts[i]]
    ensures Total(parts[..i + 1]) == Total(parts[..i]) + |parts[i]|
    ensures Total(parts[..i + 1]) <= Total(parts)
  {
    Snoc(parts, i);
    TotalPrefix(parts, i + 1);
  }

  // ---------------------------------------------------------------- the budget

  class Budget {
    var size: nat

    constructor ()
      ensures size == 0
    {
      size := 0;
    }

    /** Counts the value first and refuses afterwards, as the parser does. */
    method Add(value: string) returns (ok: bool)
      modifies this
      ensures size == old(size) + |value|
      ensures ok <==> size <= 5_000_000
    {
      size := size + |value|;
      ok := size <= MaxTextChars;
    }

    /** Text runs joined without a separator. */
    method AddRuns(runs: seq<string>) returns (result: Result<string, Refusal>)
      requires size <= MaxTextChars
      modifies this
      ensures result == Ok(Concat(runs)) || result == Err(TextLimit)
      ensures result.Ok? <==> old(size) + Total(runs) <= MaxTextChars
      ensures result.Ok? ==> size == old(size) + Total(runs)
    {
      var text := "";
      for i := 0 to |runs|
        invariant text == Concat(runs[..i])
        invariant size == old(size) + Total(runs[..i]) <= MaxTextChars
      {
        Snoc(runs, i);
        TotalPrefix(runs, i + 1);
        var ok := Add(runs[i]);
        if !ok {
          return Err(TextLimit);
        }
        text := text + runs[i];
      }
      assert runs[..|runs|] == runs;
      result := Ok(text);
    }

    /** budget.add(c * max(0, n - 1)): the separators a join will insert. */
    method AddGaps(c: char, n: nat) returns (ok: bool)
      modifies this
      ensures size == old(size) + Gaps(n)
      ensures ok <==> size <= MaxTextChars
    {
      ok := Add(Repeat(c, Gaps(n)));
    }
  }

  // ---------------------------------------------------------------- paragraphs

  /** The texts of the paragraphs that contribute any; a paragraph is its text runs. */
  function NonEmpty(paragraphs: seq<seq<string>>): seq<string> {
    if paragraphs == [] then []
    else
      var text := Concat(paragraphs[|paragraphs| - 1]);
      NonEmpty(paragraphs[..|paragraphs| - 1]) + if text == "" then [] else [text]
  }

  lemma NonEmptyNext(paragraphs: seq<seq<string>>, i: nat)
    requires i < |paragraphs|
    ensures var text := Concat(paragraphs[i]);
            && NonEmpty(paragraphs[..i + 1]) == NonEmpty(paragraphs[..i]) + (if text == "" then [] else [text])
            && Total(NonEmpty(paragraphs[..i + 1])) == Total(NonEmpty(paragraphs[..i])) + |text|
  {
    Snoc(paragraphs, i);
    TotalSnoc(NonEmpty(paragraphs[..i]), Concat(paragraphs[i]));
  }

  lemma {:induction false} NonEmptyPrefix(paragraphs: seq<seq<string>>, n: nat)
    requires n <= |paragraphs|
    ensures Total(NonEmpty(paragraphs[..n])) <= Total(NonEmpty(paragraphs))
    decreases |paragraphs| - n
  {
    if n < |paragraphs| {
      NonEmptyNext(paragraphs, n);
      NonEmptyPrefix(paragraphs, n + 1);
    } else {
      assert paragraphs[..n] == paragraphs;
    }
  }

  method ReadParagraphs(paragraphs: seq<seq<string>>, budget: Budget) returns (result: Result<seq<string>, Refusal>)
    requires budget.size <= MaxTextChars
    modifies budget
    ensures result == if old(budget.size) + Total(NonEmpty(paragraphs)) <= MaxTextChars then Ok(NonEmpty(paragraphs)) else Err(TextLimit)
    ensures result.Ok? ==> budget.size == old(budget.size) + Total(result.value)
  {
    var texts: seq<string> := [];
    for i := 0 to |paragraphs|
      invariant texts == NonEmpty(paragraphs[..i])
      invariant budget.size == old(budget.size) + Total(texts) <= MaxTextChars
    {
      NonEmptyNext(paragraphs, i);
      NonEmptyPrefix(paragraphs, i + 1);
      var text := budget.AddRuns(paragraphs[i]);
      if text.Err? {
        return Err(TextLimit);
      }
      if text.value != "" {
        texts := texts + [text.value];
      }
    }
    assert paragraphs[..|paragraphs|] == paragraphs;
    result := Ok(texts);
  }

  // ---------------------------------------------------------------- word documents

  /** What iterating over a paragraph element meets. */
  datatype Node = Run(text: string) | Tab | Break | Other

  function NodeText(node: Node): string {
    match node
    case Run(text) => text
    case Tab => "\t"
    case Break => "\n"
    case Other => ""
  }

  function Runs(paragraphs: seq<seq<Node>>): seq<seq<string>> {
    seq(|paragraphs|, i requires 0 <= i < |paragraphs| =>
      seq(|paragraphs[i]|, j requires 0 <= j < |paragraphs[i]| => NodeText(paragraphs[i][j])))
  }

  function DocxText(paragraphs: seq<seq<Node>>): string {
    JoinWith("\n", NonEmpty(Runs(paragraphs)))
  }

  /** A paragraph's text, node by node: its runs, a tab for a tab, a newline for a break. */
  lemma ParagraphText(before: seq<Node>, node: Node, after: seq<Node>)
    ensures var all := Runs([before + [node] + after, before, after]);
            Concat(all[0]) == Concat(all[1]) + (match node case Run(text) => text case Tab => "\t" case Break => "\n" case Other => "")
                              + Concat(all[2])
  {
    var all := Runs([before + [node] + after, before, after]);
    var text := NodeText(node);
    assert all[0] == all[1] + [text] + all[2];
    ConcatJoin(all[1], [text]);
    ConcatJoin(all[1] + [text], all[2]);
    assert [text][..0] == [];
  }

  lemma {:induction false} ConcatJoin(a: seq<string>, b: seq<string>)
    ensures Concat(a + b) == Concat(a) + Concat(b)
    decreases |b|
  {
    if b == [] {
      assert a + b == a;
    } else {
      assert (a + b)[..|a + b| - 1] == a + b[..|b| - 1];
      ConcatJoin(a, b[..|b| - 1]);
    }
  }

  /** `at` are the positions of the paragraphs with text, and `texts` what they say. */
  ghost predicate KeptAt(paragraphs: seq<seq<string>>, texts: seq<string>, at: seq<nat>) {
    && |at| == |texts|
    && (forall i | 0 <= i < |at| :: at[i] < |paragraphs| && texts[i] == Concat(paragraphs[at[i]]) != "")
    && (forall i, j | 0 <= i < j < |at| :: at[i] < at[j])
    && (forall k | 0 <= k < |paragraphs| && Concat(paragraphs[k]) != "" :: k in at)
  }

  /** No paragraph with text is lost, none is repeated, and their order stays. */
  lemma {:induction false} ParagraphsKept(paragraphs: seq<seq<string>>) returns (at: seq<nat>)
    ensures KeptAt(paragraphs, NonEmpty(paragraphs), at)
    decreases |paragraphs|
  {
    at := [];
    if paragraphs != [] {
      var n: nat := |paragraphs| - 1;
      at := ParagraphsKept(paragraphs[..n]);
      KeptNext(paragraphs, NonEmpty(paragraphs[..n]), at);
      if Concat(paragraphs[n]) != "" {
        at := at + [n];
      } else {
        assert NonEmpty(paragraphs) == NonEmpty(paragraphs[..n]);
      }
    }
  }

  lemma KeptNext(paragraphs: seq<seq<string>>, texts: seq<string>, at: seq<nat>)
    requires paragraphs != [] && KeptAt(paragraphs[..|paragraphs| - 1], texts, at)
    ensures var n := |paragraphs| - 1;
            var text := Concat(paragraphs[n]);
            if text != "" then KeptAt(paragraphs, texts + [text], at + [n]) else KeptAt(paragraphs, texts, at)
  {
    hide Concat;
    var n := |paragraphs| - 1;
    assert forall k | 0 <= k < n :: paragraphs[..n][k] == paragraphs[k];
    assert forall i | 0 <= i < |at| :: at[i] in at;
  }

  /** A Word file is accepted exactly when its text fits the cap, and the budget then equals its length. */
  method Docx(paragraphs: seq<seq<Node>>, budget: Budget) returns (result: Result<string, Refusal>)
    requires budget.size == 0
    modifies budget
    ensures result == if |DocxText(paragraphs)| <= 5_000_000 then Ok(DocxText(paragraphs)) else Err(TextLimit)
    ensures result.Ok? ==> budget.size == |result.value|
  {
    hide Runs, NonEmpty, JoinWith;
    JoinLength("\n", NonEmpty(Runs(paragraphs)));
    var kept := ReadParagraphs(Runs(paragraphs), budget);
    if kept.Err? {
      return Err(TextLimit);
    }
    var ok := budget.AddGaps('\n', |kept.value|);
    result := if ok then Ok(JoinWith("\n", kept.value)) else Err(TextLimit);
  }

  // ---------------------------------------------------------------- units: sheets and slides

  function UnitTexts(units: seq<seq<string>>): (texts: seq<string>)
    ensures |texts| == |units|
  {
    seq(|units|, i requires 0 <= i < |units| => JoinWith("\n", units[i]))
  }

  function UnitsText(units: seq<seq<string>>): string {
    JoinWith("\n", UnitTexts(units))
  }

  /** Characters of all pieces, without the separators between them. */
  function Chars(units: seq<seq<string>>): nat {
    if units == [] then 0 else Chars(units[..|units| - 1]) + Total(units[|units| - 1])
  }

  /** Separators inside the first n units and between them. */
  function Separators(units: seq<seq<string>>): nat {
    if units == [] then 0
    else Separators(units[..|units| - 1]) + Gaps(|units[|units| - 1]|) + if |units| > 1 then 1 else 0
  }

  lemma {:induction false} UnitsLength(units: seq<seq<string>>)
    ensures |UnitsText(units)| == Chars(units) + Separators(units)
  {
    if units != [] {
      var init, last := units[..|units| - 1], units[|units| - 1];
      UnitsLength(init);
      assert UnitTexts(units) == UnitTexts(init) + [JoinWith("\n", last)];
      JoinLength("\n", last);
      assert UnitTexts(units)[..|init|] == UnitTexts(init);
    }
  }

  lemma {:induction false} SeparatorsPrefix(units: seq<seq<string>>, n: nat)
    requires n <= |units|
    ensures Separators(units[..n]) <= Separators(units)
    decreases |units|
  {
    if n < |units| {
      assert units[..|units| - 1][..n] == units[..n];
      SeparatorsPrefix(units[..|units| - 1], n);
    } else {
      assert units[..n] == units;
    }
  }

  /** What one turn of the joining loop adds. */
  lemma NextUnit(units: seq<seq<string>>, i: nat)
    requires i <= |units|
    ensures JoinWith("\n", UnitTexts(units)[..0]) == "" && Separators(units[..0]) == 0
    ensures i < |units| ==>
              var parts := UnitTexts(units);
              && Before("\n", parts, i) == JoinWith("\n", parts[..i]) + (if i > 0 then "\n" else "")
              && JoinWith("\n", parts[..i + 1]) == Before("\n", parts, i) + parts[i]
              && Separators(units[..i + 1]) == Separators(units[..i]) + Gaps(|units[i]|) + (if i > 0 then 1 else 0)
              && Separators(units[..i + 1]) <= Separators(units)
  {
    if i < |units| {
      Snoc(units, i);
      Snoc(UnitTexts(units), i);
      SeparatorsPrefix(units, i + 1);
    }
  }

  /** A unit's span in the joined text. */
  datatype Span = Span(start: nat, end: nat)

  /** Unit i's span is where its text stands. */
  ghost predicate SpanOk(parts: seq<string>, i: nat, span: Span)
    requires i < |parts|
  {
    span.start == |Before("\n", parts, i)| && span.end == span.start + |parts[i]|
  }

  /**
   _join_units. Starting with the pieces' characters already counted, it refuses exactly when
   the joined text is over the cap; every unit is read back exactly by its line range, and the
   ranges are ordered and disjoint.
   */
  method JoinUnits(units: seq<seq<string>>, budget: Budget) returns (result: Result<(string, seq<Range>), Refusal>)
    requires budget.size <= 5_000_000
    modifies budget
    ensures result.Ok? <==> old(budget.size) + Separators(units) <= 5_000_000
    ensures result.Ok? ==> budget.size == old(budget.size) + Separators(units)
    ensures result.Err? ==> result.error == TextLimit
    ensures result.Ok? ==> result.value.0 == UnitsText(units) && Anchored(result.value.0, UnitTexts(units), result.value.1)
  {
    var text := "";
    var spans: seq<Span> := [];
    var parts := UnitTexts(units);
    NextUnit(units, 0);
    hide JoinWith, Before, Separators;
    for i := 0 to |units|
      invariant text == JoinWith("\n", parts[..i])
      invariant budget.size == old(budget.size) + Separators(units[..i]) <= MaxTextChars
      invariant |spans| == i && forall k | 0 <= k < i :: SpanOk(parts, k, spans[k])
    {
      NextUnit(units, i);
      if i > 0 {
        var ok := budget.Add("\n");
        if !ok {
          return Err(TextLimit);
        }
        text := text + "\n";
      }
      assert text == Before("\n", parts, i);
      var ok := budget.AddGaps('\n', |units[i]|);
      if !ok {
        return Err(TextLimit);
      }
      var value := JoinWith("\n", units[i]);
      assert value == parts[i];
      var span := Span(|text|, |text| + |value|);
      assert SpanOk(parts, i, span);
      spans := spans + [span];
      text := text + value;
    }
    assert units[..|units|] == units && parts[..|units|] == parts;
    var ranges := RangesOf(text, parts, spans);
    JoinedIsAnchored("\n", parts);
    result := Ok((text, ranges));
  }

  /** Newlines before the part, and lines in it. */
  method RangeFor(text: string, start: nat, part: string, ghost before: string, ghost after: string) returns (r: Range)
    requires text == before + part + after && start == |before|
    ensures r == LineRange(before, part)
  {
    hide Newlines;
    assert text[..start] == before;
    var line := Newlines(text[..start]);
    var count := if part != "" then Newlines(part) + 1 else 0;
    r := Range(line, line + count);
  }

  method RangesOf(text: string, ghost parts: seq<string>, spans: seq<Span>) returns (ranges: seq<Range>)
    requires text == JoinWith("\n", parts) && |spans| == |parts|
    requires forall k | 0 <= k < |parts| :: SpanOk(parts, k, spans[k])
    ensures ranges == Ranges("\n", parts)
  {
    hide Newlines, JoinWith, Before, LineRange;
    ranges := [];
    for i := 0 to |spans|
      invariant |ranges| == i && forall k | 0 <= k < i :: ranges[k] == RangeAt("\n", parts, k)
    {
      assert SpanOk(parts, i, spans[i]);
      ghost var after := PartOf("\n", parts, i);
      ghost var before := Before("\n", parts, i);
      SpanSlice(before, parts[i], after);
      var value := text[spans[i].start..spans[i].end];
      var r := RangeFor(text, spans[i].start, value, before, after);
      ranges := ranges + [r];
    }
  }

  lemma SpanSlice(before: string, part: string, after: string)
    ensures (before + part + after)[|before|..|before| + |part|] == part
  {
  }

  // ---------------------------------------------------------------- spreadsheets

  /** A shared cell names a row of the string table; None when its reference is not a number. */
  datatype Cell = Shared(index: Option<nat>) | Inline(runs: seq<string>) | Plain(raw: string)

  predicate CellOk(shared: seq<string>, cell: Cell) {
    cell.Shared? ==> cell.index.Some? && cell.index.value < |shared|
  }

  function CellText(shared: seq<string>, cell: Cell): string {
    match cell
    case Shared(index) => if CellOk(shared, cell) then shared[index.value] else ""
    case Inline(runs) => Concat(runs)
    case Plain(raw) => raw
  }

  function RowValues(shared: seq<string>, row: seq<Cell>): seq<string> {
    seq(|row|, i requires 0 <= i < |row| => CellText(shared, row[i]))
  }

  /** Rows with at least one cell, cells joined by tabs. */
  function SheetRows(shared: seq<string>, sheet: seq<seq<Cell>>): seq<string> {
    if sheet == [] then []
    else
      var row := sheet[|sheet| - 1];
      SheetRows(shared, sheet[..|sheet| - 1]) + if row == [] then [] else [JoinWith("\t", RowValues(shared, row))]
  }

  function SheetUnits(shared: seq<string>, sheets: seq<seq<seq<Cell>>>): seq<seq<string>> {
    seq(|sheets|, i requires 0 <= i < |sheets| => SheetRows(shared, sheets[i]))
  }

  /** What a cell says: the string its number names, its runs, or its raw value. */
  ghost predicate Says(shared: seq<string>, cell: Cell, text: string) {
    match cell
    case Shared(index) => index.Some? && index.value < |shared| && text == shared[index.value]
    case Inline(runs) => text == Concat(runs)
    case Plain(raw) => text == raw
  }

  /** `at` are the rows with cells, and `texts` their cells' texts with a tab between any two. */
  ghost predicate RowsAt(shared: seq<string>, sheet: seq<seq<Cell>>, texts: seq<string>, at: seq<nat>) {
    && |at| == |texts|
    && (forall i | 0 <= i < |at| :: at[i] < |sheet| && RowSays(shared, sheet[at[i]], texts[i]))
    && (forall i, j | 0 <= i < j < |at| :: at[i] < at[j])
    && (forall k | 0 <= k < |sheet| && sheet[k] != [] :: k in at)
  }

  ghost predicate RowSays(shared: seq<string>, row: seq<Cell>, text: string) {
    row != [] && exists values :: CellsSay(shared, row, values) && text == JoinWith("\t", values)
  }

  ghost predicate CellsSay(shared: seq<string>, row: seq<Cell>, values: seq<string>) {
    |values| == |row| && forall i | 0 <= i < |row| :: Says(shared, row[i], values[i])
  }

  /** No row with cells is lost, none is repeated, and their order stays. */
  lemma {:induction false} SheetSays(shared: seq<string>, sheet: seq<seq<Cell>>) returns (at: seq<nat>)
    requires SheetOk(shared, sheet)
    ensures RowsAt(shared, sheet, SheetRows(shared, sheet), at)
    decreases |sheet|
  {
    hide RowOk, JoinWith, RowValues;
    at := [];
    if sheet != [] {
      var n: nat := |sheet| - 1;
      assert SheetOk(shared, sheet[..n]);
      at := SheetSays(shared, sheet[..n]);
      RowsAtNext(shared, sheet, SheetRows(shared, sheet[..n]), at);
      if sheet[n] != [] {
        at := at + [n];
      } else {
        assert SheetRows(shared, sheet) == SheetRows(shared, sheet[..n]);
      }
    }
  }

  lemma RowsAtNext(shared: seq<string>, sheet: seq<seq<Cell>>, texts: seq<string>, at: seq<nat>)
    requires sheet != [] && RowOk(shared, sheet[|sheet| - 1]) && RowsAt(shared, sheet[..|sheet| - 1], texts, at)
    ensures var n := |sheet| - 1;
            if sheet[n] != [] then RowsAt(shared, sheet, texts + [JoinWith("\t", RowValues(shared, sheet[n]))], at + [n])
            else RowsAt(shared, sheet, texts, at)
  {
    hide JoinWith, RowSays;
    var n := |sheet| - 1;
    assert forall k | 0 <= k < n :: sheet[..n][k] == sheet[k];
    assert forall i | 0 <= i < |at| :: at[i] in at;
    if sheet[n] != [] {
      RowIs(shared, sheet[n]);
    }
  }

  lemma RowIs(shared: seq<string>, row: seq<Cell>)
    requires row != [] && RowOk(shared, row)
    ensures RowSays(shared, row, JoinWith("\t", RowValues(shared, row)))
  {
    assert CellsSay(shared, row, RowValues(shared, row));
  }

  predicate RowOk(shared: seq<string>, row: seq<Cell>) {
    forall i | 0 <= i < |row| :: CellOk(shared, row[i])
  }

  predicate SheetOk(shared: seq<string>, sheet: seq<seq<Cell>>) {
    forall i | 0 <= i < |sheet| :: RowOk(shared, sheet[i])
  }

  function SharedTexts(items: seq<seq<string>>): seq<string> {
    seq(|items|, i requires 0 <= i < |items| => Concat(items[i]))
  }

  method SharedStrings(items: seq<seq<string>>, budget: Budget) returns (result: Result<seq<string>, Refusal>)
    requires budget.size == 0
    modifies budget
    ensures result == if Total(SharedTexts(items)) <= MaxTextChars then Ok(SharedTexts(items)) else Err(TextLimit)
    ensures result.Ok? ==> budget.size == Total(SharedTexts(items))
  {
    ghost var texts := SharedTexts(items);
    var shared: seq<string> := [];
    for i := 0 to |items|
      invariant shared == texts[..i]
      invariant budget.size == Total(texts[..i]) <= MaxTextChars
    {
      Snoc(texts, i);
      TotalPrefix(texts, i + 1);
      var text := budget.AddRuns(items[i]);
      if text.Err? {
        return Err(TextLimit);
      }
      shared := shared + [text.value];
    }
    assert texts[..|items|] == texts;
    result := Ok(shared);
  }

  method ReadCell(shared: seq<string>, cell: Cell, budget: Budget) returns (result: Result<string, Refusal>)
    requires budget.size <= MaxTextChars
    modifies budget
    ensures result.Ok? <==> CellOk(shared, cell) && old(budget.size) + |CellText(shared, cell)| <= MaxTextChars
    ensures result.Ok? ==> result.value == CellText(shared, cell) && budget.size == old(budget.size) + |result.value|
    ensures result == Err(InvalidSharedString) <==> !CellOk(shared, cell)
    ensures result == Err(TextLimit) ==> old(budget.size) + |CellText(shared, cell)| > MaxTextChars
  {
    if !CellOk(shared, cell) {
      return Err(InvalidSharedString);
    }
    if cell.Inline? {
      result := budget.AddRuns(cell.runs);
    } else {
      var ok := budget.Add(CellText(shared, cell));
      result := if ok then Ok(CellText(shared, cell)) else Err(TextLimit);
    }
  }

  /** One row: its values counted cell by cell, then the tabs. */
  method ReadRow(shared: seq<string>, row: seq<Cell>, budget: Budget) returns (result: Result<string, Refusal>)
    requires budget.size <= MaxTextChars && row != []
    modifies budget
    ensures result.Ok? <==> RowOk(shared, row) && old(budget.size) + |JoinWith("\t", RowValues(shared, row))| <= MaxTextChars
    ensures result.Ok? ==> result.value == JoinWith("\t", RowValues(shared, row)) && budget.size == old(budget.size) + |result.value|
    ensures result == Err(InvalidSharedString) ==> !RowOk(shared, row)
    ensures result == Err(TextLimit) ==> old(budget.size) + |JoinWith("\t", RowValues(shared, row))| > MaxTextChars
  {
    ghost var all := RowValues(shared, row);
    JoinLength("\t", all);
    EmptySums(shared);
    hide Total, JoinWith, CellOk, CellText, Concat;
    var values: seq<string> := [];
    for i := 0 to |row|
      invariant values == all[..i]
      invariant forall k | 0 <= k < i :: CellOk(shared, row[k])
      invariant budget.size == old(budget.size) + Total(values) <= MaxTextChars
    {
      TotalNext(all, i);
      var text := ReadCell(shared, row[i], budget);
      if text.Err? {
        return Err(text.error);
      }
      values := values + [text.value];
    }
    assert values == all;
    var ok := budget.AddGaps('\t', |values|);
    if !ok {
      return Err(TextLimit);
    }
    result := Ok(JoinWith("\t", values));
  }

  lemma EmptySums(shared: seq<string>)
    ensures Total([]) == 0 && Chars([]) == 0
    ensures SheetRows(shared, []) == [] && RowOk(shared, [])
  {
  }

  lemma RowsNext(shared: seq<string>, sheet: seq<seq<Cell>>, i: nat)
    requires i < |sheet|
    ensures var text := JoinWith("\t", RowValues(shared, sheet[i]));
            && SheetRows(shared, sheet[..i + 1]) == SheetRows(shared, sheet[..i]) + (if sheet[i] == [] then [] else [text])
            && Total(SheetRows(shared, sheet[..i + 1])) == Total(SheetRows(shared, sheet[..i])) + |text|
  {
    Snoc(sheet, i);
    var before, text := SheetRows(shared, sheet[..i]), JoinWith("\t", RowValues(shared, sheet[i]));
    TotalSnoc(before, text);
  }

  lemma {:induction false} RowsPrefix(shared: seq<string>, sheet: seq<seq<Cell>>, n: nat)
    requires n <= |sheet|
    ensures Total(SheetRows(shared, sheet[..n])) <= Total(SheetRows(shared, sheet))
    decreases |sheet| - n
  {
    if n < |sheet| {
      RowsNext(shared, sheet, n);
      RowsPrefix(shared, sheet, n + 1);
    } else {
      assert sheet[..n] == sheet;
    }
  }

  lemma RowsAfter(shared: seq<string>, sheet: seq<seq<Cell>>, i: nat)
    requires i < |sheet|
    ensures sheet[i] == [] ==> SheetRows(shared, sheet[..i + 1]) == SheetRows(shared, sheet[..i])
    ensures sheet[i] != [] ==>
              var text := JoinWith("\t", RowValues(shared, sheet[i]));
              SheetRows(shared, sheet[..i + 1]) == SheetRows(shared, sheet[..i]) + [text]
              && Total(SheetRows(shared, sheet[..i + 1])) == Total(SheetRows(shared, sheet[..i])) + |text|
    ensures Total(SheetRows(shared, sheet[..i + 1])) <= Total(SheetRows(shared, sheet))
  {
    RowsNext(shared, sheet, i);
    RowsPrefix(shared, sheet, i + 1);
  }

  method ReadSheet(shared: seq<string>, sheet: seq<seq<Cell>>, budget: Budget) returns (result: Result<seq<string>, Refusal>)
    requires budget.size <= MaxTextChars
    modifies budget
    ensures result.Ok? <==> SheetOk(shared, sheet) && old(budget.size) + Total(SheetRows(shared, sheet)) <= MaxTextChars
    ensures result.Ok? ==> result.value == SheetRows(shared, sheet) && budget.size == old(budget.size) + Total(result.value)
    ensures result == Err(InvalidSharedString) ==> !SheetOk(shared, sheet)
    ensures result == Err(TextLimit) ==> old(budget.size) + Total(SheetRows(shared, sheet)) > MaxTextChars
  {
    EmptySums(shared);
    hide Total, JoinWith, SheetRows, RowOk;
    var rows: seq<string> := [];
    for i := 0 to |sheet|
      invariant rows == SheetRows(shared, sheet[..i])
      invariant forall k | 0 <= k < i :: RowOk(shared, sheet[k])
      invariant budget.size == old(budget.size) + Total(rows) <= MaxTextChars
    {
      RowsAfter(shared, sheet, i);
      if sheet[i] != [] {
        var text := ReadRow(shared, sheet[i], budget);
        if text.Err? {
          return Err(text.error);
        }
        rows := rows + [text.value];
      }
    }
    assert sheet[..|sheet|] == sheet;
    result := Ok(rows);
  }

  lemma {:induction false} CharsPrefix(units: seq<seq<string>>, n: nat)
    requires n <= |units|
    ensures Chars(units[..n]) <= Chars(units)
    decreases |units|
  {
    if n < |units| {
      assert units[..|units| - 1][..n] == units[..n];
      CharsPrefix(units[..|units| - 1], n);
    } else {
      assert units[..n] == units;
    }
  }

  lemma CharsNext(units: seq<seq<string>>, i: nat)
    requires i < |units|
    ensures units[..i + 1] == units[..i] + [units[i]]
    ensures Chars(units[..i + 1]) == Chars(units[..i]) + Total(units[i])
    ensures Chars(units[..i + 1]) <= Chars(units)
  {
    Snoc(units, i);
    CharsPrefix(units, i + 1);
  }

  predicate BookOk(shared: seq<string>, sheets: seq<seq<seq<Cell>>>) {
    forall i | 0 <= i < |sheets| :: SheetOk(shared, sheets[i])
  }

  method ReadSheets(shared: seq<string>, sheets: seq<seq<seq<Cell>>>, budget: Budget) returns (result: Result<seq<seq<string>>, Refusal>)
    requires budget.size <= MaxTextChars
    modifies budget
    ensures result.Ok? <==> BookOk(shared, sheets) && old(budget.size) + Chars(SheetUnits(shared, sheets)) <= MaxTextChars
    ensures result.Ok? ==> result.value == SheetUnits(shared, sheets) && budget.size == old(budget.size) + Chars(result.value)
    ensures result == Err(InvalidSharedString) ==> !BookOk(shared, sheets)
    ensures result == Err(TextLimit) ==> old(budget.size) + Chars(SheetUnits(shared, sheets)) > MaxTextChars
  {
    ghost var all := SheetUnits(shared, sheets);
    EmptySums(shared);
    hide Total, SheetRows, SheetOk, Chars;
    var units: seq<seq<string>> := [];
    for i := 0 to |sheets|
      invariant units == all[..i]
      invariant forall k | 0 <= k < i :: SheetOk(shared, sheets[k])
      invariant budget.size == old(budget.size) + Chars(units) <= MaxTextChars
    {
      CharsNext(all, i);
      assert all[i] == SheetRows(shared, sheets[i]);
      var rows := ReadSheet(shared, sheets[i], budget);
      if rows.Err? {
        assert rows.error == InvalidSharedString ==> !BookOk(shared, sheets);
        return Err(rows.error);
      }
      units := units + [rows.value];
    }
    assert all[..|sheets|] == all;
    result := Ok(units);
  }

  /**
   A workbook of sheets: the string table is counted once on its own and once more wherever a
   cell uses it, so the budget is the text's length plus the table's.
   */
  method Xlsx(items: seq<seq<string>>, sheets: seq<seq<seq<Cell>>>, budget: Budget) returns (result: Result<(string, seq<Range>), Refusal>)
    requires budget.size == 0
    modifies budget
    ensures var shared := SharedTexts(items); var units := SheetUnits(shared, sheets);
            && (result.Ok? <==> BookOk(shared, sheets) && Total(shared) + |UnitsText(units)| <= 5_000_000)
            && (result.Ok? ==> result.value.0 == UnitsText(units)
                               && Anchored(result.value.0, UnitTexts(units), result.value.1)
                               && |result.value.0| <= budget.size == Total(shared) + |UnitsText(units)|)
            && (result == Err(InvalidSharedString) ==> !BookOk(shared, sheets))
            && (result == Err(TextLimit) ==> Total(shared) + |UnitsText(units)| > 5_000_000)
  {
    UnitsLength(SheetUnits(SharedTexts(items), sheets));
    var shared := SharedStrings(items, budget);
    if shared.Err? {
      return Err(TextLimit);
    }
    var units := ReadSheets(shared.value, sheets, budget);
    if units.Err? {
      return Err(units.error);
    }
    result := JoinUnits(units.value, budget);
  }

  // ---------------------------------------------------------------- presentations

  /** A slide's paragraphs, each its text runs, and all text runs below its root. */
  datatype Slide = Slide(paragraphs: seq<seq<string>>, runs: seq<string>)

  function SlideUnit(slide: Slide): seq<string> {
    var paragraphs := NonEmpty(slide.paragraphs);
    if paragraphs != [] then paragraphs
    else if Concat(slide.runs) != "" then [Concat(slide.runs)] else []
  }

  function SlideUnits(slides: seq<Slide>): seq<seq<string>> {
    seq(|slides|, i requires 0 <= i < |slides| => SlideUnit(slides[i]))
  }

  method ReadSlide(slide: Slide, budget: Budget) returns (result: Result<seq<string>, Refusal>)
    requires budget.size <= MaxTextChars
    modifies budget
    ensures result == if old(budget.size) + Total(SlideUnit(slide)) <= MaxTextChars then Ok(SlideUnit(slide)) else Err(TextLimit)
    ensures result.Ok? ==> budget.size == old(budget.size) + Total(result.value)
  {
    result := ReadParagraphs(slide.paragraphs, budget);
    if result.Ok? && result.value == [] {
      assert Total([Concat(slide.runs)]) == Total([Concat(slide.runs)][..0]) + |Concat(slide.runs)|;
      var text := budget.AddRuns(slide.runs);
      if text.Err? {
        return Err(TextLimit);
      }
      if text.value != "" {
        result := Ok([text.value]);
      }
    }
  }

  /** A presentation is accepted exactly when its text fits the cap; the budget is the text's length. */
  method Pptx(slides: seq<Slide>, budget: Budget) returns (result: Result<(string, seq<Range>), Refusal>)
    requires budget.size == 0
    modifies budget
    ensures var units := SlideUnits(slides);
            && (result.Ok? <==> |UnitsText(units)| <= 5_000_000)
            && (result.Err? ==> result.error == TextLimit)
            && (result.Ok? ==> result.value.0 == UnitsText(units)
                               && Anchored(result.value.0, UnitTexts(units), result.value.1)
                               && budget.size == |result.value.0|)
  {
    ghost var all := SlideUnits(slides);
    UnitsLength(all);
    var units: seq<seq<string>> := [];
    for i := 0 to |slides|
      invariant units == all[..i]
      invariant budget.size == Chars(units) <= MaxTextChars
    {
      CharsNext(all, i);
      var texts := ReadSlide(slides[i], budget);
      if texts.Err? {
        return Err(TextLimit);
      }
      units := units + [texts.value];
    }
    assert units == all;
    result := JoinUnits(units, budget);
  }

  // ---------------------------------------------------------------- PDF pages

  const PageBreak: string := "\n\U{000C}\n"

  function TrimNewlines(page: string): (t: string)
    ensures |t| <= |page| && page[..|t|] == t
    ensures t == "" || t[|t| - 1] != '\n'
    ensures forall k | |t| <= k < |page| :: page[k] == '\n'
  {
    if page != "" && page[|page| - 1] == '\n' then TrimNewlines(page[..|page| - 1]) else page
  }

  function Stored(pages: seq<string>): (stored: seq<string>)
    ensures |stored| == |pages|
  {
    seq(|pages|, i requires 0 <= i < |pages| => TrimNewlines(pages[i]))
  }

  /**
   The PDF branch of parse. `blank` is the platform's notion of white space. A text of white
   space only yields nothing; otherwise each page, without its trailing newlines, is read back
   exactly by its line range.
   */
  method PdfText(pages: seq<string>, blank: char -> bool) returns (text: string, ranges: Option<seq<Range>>)
    ensures text == JoinWith(PageBreak, Stored(pages))
    ensures ranges.None? <==> forall k | 0 <= k < |text| :: blank(text[k])
    ensures ranges.Some? ==> Anchored(text, Stored(pages), ranges.value)
  {
    var stored := Stored(pages);
    text := JoinWith(PageBreak, stored);
    if forall k | 0 <= k < |text| :: blank(text[k]) {
      return text, None;
    }
    var pageMap := PageMap(text, stored);
    JoinedIsAnchored(PageBreak, stored);
    ranges := Some(pageMap);
  }

  method PageMap(text: string, stored: seq<string>) returns (pageMap: seq<Range>)
    requires text == JoinWith(PageBreak, stored)
    ensures pageMap == Ranges(PageBreak, stored)
  {
    pageMap := [];
    var position := 0;
    for i := 0 to |stored|
      invariant |pageMap| == i && forall k | 0 <= k < i :: pageMap[k] == RangeAt(PageBreak, stored, k)
      invariant position == Reached(stored, i)
    {
      hide Newlines, JoinWith, Before, LineRange, Reached;
      if i > 0 {
        position := position + |PageBreak|;
      }
      ReachedBefore(stored, i);
      ghost var after := PartOf(PageBreak, stored, i);
      var r := RangeFor(text, position, stored[i], Before(PageBreak, stored, i), after);
      pageMap := pageMap + [r];
      position := position + |stored[i]|;
    }
  }

  /** Where the scan stands after i pages. */
  ghost function Reached(stored: seq<string>, i: nat): nat
    requires i <= |stored|
  {
    if i == 0 then 0 else |Before(PageBreak, stored, i - 1)| + |stored[i - 1]|
  }

  lemma ReachedBefore(stored: seq<string>, i: nat)
    requires i < |stored|
    ensures |Before(PageBreak, stored, i)| == Reached(stored, i) + if i > 0 then |PageBreak| else 0
    ensures Reached(stored, i + 1) == |Before(PageBreak, stored, i)| + |stored[i]|
  {
    if i > 0 {
      BeforeNext(PageBreak, stored, i);
    }
  }
}

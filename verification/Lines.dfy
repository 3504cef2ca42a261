/** Lines of a text: offsets, numbers, and the joining of parts that can be found again by line. */
module Lines {

  function Newlines(text: string): nat {
    if text == "" then 0 else Newlines(text[..|text| - 1]) + if text[|text| - 1] == '\n' then 1 else 0
  }

  /** The one-based number of the line on which position `at` lies. */
  function LineOf(text: string, at: nat): nat
    requires at <= |text|
  {
    Newlines(text[..at]) + 1
  }

  /** Where lines start: at 0 and after every newline. */
  function Offsets(text: string): (offsets: seq<nat>)
    ensures |offsets| == Newlines(text) + 1
    ensures forall k | 0 <= k < |offsets| :: offsets[k] <= |text|
  {
    if text == "" then [0]
    else Offsets(text[..|text| - 1]) + if text[|text| - 1] == '\n' then [|text|] else []
  }

  /** The line_offsets of a text document, collected newline by newline. */
  method LineOffsets(text: string) returns (offsets: seq<nat>)
    ensures offsets == Offsets(text)
  {
    offsets := [0];
    var i := 0;
    while i < |text|
      invariant i <= |text| && offsets == Offsets(text[..i])
    {
      assert text[..i + 1][..i] == text[..i];
      if text[i] == '\n' {
        offsets := offsets + [i + 1];
      }
      i := i + 1;
    }
    assert text[..i] == text;
  }

  /** The offsets are 0 and the positions after newlines, each once and in order. */
  lemma {:induction false} OffsetsAre(text: string)
    ensures forall i, j | 0 <= i < j < |Offsets(text)| :: Offsets(text)[i] < Offsets(text)[j]
    ensures forall o: nat :: o in Offsets(text) <==> o == 0 || (o <= |text| && text[o - 1] == '\n')
  {
    if text != "" {
      var front := text[..|text| - 1];
      OffsetsAre(front);
      forall o: nat
        ensures o in Offsets(text) <==> o == 0 || (o <= |text| && text[o - 1] == '\n')
      {
        assert o in Offsets(text) <==> o in Offsets(front) || (text[|text| - 1] == '\n' && o == |text|);
      }
    }
  }

  function Start(text: string, line: nat): (at: nat)
    requires line <= Newlines(text)
    ensures at <= |text|
  {
    Offsets(text)[line]
  }

  /** Just before the newline that ends the line, or the end of the text. */
  function Stop(text: string, line: nat): int
    requires line <= Newlines(text)
  {
    if line < Newlines(text) then Offsets(text)[line + 1] - 1 else |text|
  }

  // ---------------------------------------------------------------- offsets and concatenation

  lemma {:induction false} NewlinesJoin(a: string, b: string)
    ensures Newlines(a + b) == Newlines(a) + Newlines(b)
    decreases |b|
  {
    if b == "" {
      assert a + b == a;
    } else {
      var c := b[..|b| - 1];
      assert (a + b)[..|a + b| - 1] == a + c;
      NewlinesJoin(a, c);
    }
  }

  lemma {:induction false} OffsetsPrefix(a: string, b: string)
    ensures |Offsets(a)| <= |Offsets(a + b)|
    ensures Offsets(a + b)[..|Offsets(a)|] == Offsets(a)
    decreases |b|
  {
    if b == "" {
      assert a + b == a;
    } else {
      var c := b[..|b| - 1];
      assert (a + b)[..|a + b| - 1] == a + c;
      OffsetsPrefix(a, c);
    }
  }

  lemma LastOffset(a: string)
    requires a == "" || a[|a| - 1] == '\n'
    ensures Offsets(a)[Newlines(a)] == |a|
  {
  }

  /** A part that begins at a line start begins line number Newlines(before). */
  lemma PartStart(before: string, rest: string)
    requires before == "" || before[|before| - 1] == '\n'
    ensures Newlines(before) <= Newlines(before + rest)
    ensures Start(before + rest, Newlines(before)) == |before|
  {
    NewlinesJoin(before, rest);
    OffsetsPrefix(before, rest);
    LastOffset(before);
    assert Offsets(before + rest)[Newlines(before)] == Offsets(before + rest)[..|Offsets(before)|][Newlines(before)];
  }

  /** A part followed by nothing or by a newline ends with its last line. */
  lemma PartStop(upto: string, rest: string)
    requires rest == "" || rest[0] == '\n'
    ensures Newlines(upto) <= Newlines(upto + rest)
    ensures Stop(upto + rest, Newlines(upto)) == |upto|
  {
    if rest == "" {
      assert upto + rest == upto;
    } else {
      var tail := rest[1..];
      assert upto + rest == upto + "\n" + tail by {
        assert rest == "\n" + tail;
      }
      StopBeforeNewline(upto, tail);
    }
  }

  lemma StopBeforeNewline(upto: string, tail: string)
    ensures Newlines(upto) < Newlines(upto + "\n" + tail)
    ensures Stop(upto + "\n" + tail, Newlines(upto)) == |upto|
  {
    hide Newlines, Offsets;
    NextStart(upto, tail);
  }

  lemma NextStart(upto: string, rest: string)
    ensures Newlines(upto) + 1 <= Newlines(upto + "\n" + rest)
    ensures Start(upto + "\n" + rest, Newlines(upto) + 1) == |upto| + 1
  {
    hide Newlines, Start;
    NewlinesJoin(upto, "\n");
    OneNewline();
    NewlinesJoin(upto + "\n", rest);
    PartStart(upto + "\n", rest);
  }

  lemma OneNewline()
    ensures Newlines("\n") == 1
  {
    assert "\n"[..0] == "";
  }

  /** Position `at` lies on line number LineOf(text, at): between its start and its stop. */
  lemma LineOfHolds(text: string, at: nat)
    requires at <= |text|
    ensures LineOf(text, at) - 1 <= Newlines(text)
    ensures Start(text, LineOf(text, at) - 1) <= at <= Stop(text, LineOf(text, at) - 1)
  {
    hide Newlines, Offsets, Start, Stop;
    LineHolds(text[..at], text[at..]);
    assert text == text[..at] + text[at..];
  }

  lemma LineHolds(a: string, b: string)
    ensures Newlines(a) <= Newlines(a + b)
    ensures Start(a + b, Newlines(a)) <= |a| <= Stop(a + b, Newlines(a))
  {
    hide Newlines, Offsets;
    NewlinesJoin(a, b);
    EarlierOffset(a, b);
    if Newlines(a) < Newlines(a + b) {
      LaterOffset(a, b);
    }
  }

  lemma EarlierOffset(a: string, b: string)
    ensures Newlines(a) < |Offsets(a + b)| && Offsets(a + b)[Newlines(a)] <= |a|
  {
    OffsetsPrefix(a, b);
    assert Offsets(a + b)[Newlines(a)] == Offsets(a + b)[..|Offsets(a)|][Newlines(a)];
  }

  lemma {:induction false} LaterOffset(a: string, b: string)
    requires Newlines(a) < Newlines(a + b)
    ensures Offsets(a + b)[Newlines(a) + 1] > |a|
    decreases |b|
  {
    NewlinesJoin(a, b);
    var c := b[..|b| - 1];
    assert (a + b)[..|a + b| - 1] == a + c;
    NewlinesJoin(a, c);
    if Newlines(a) < Newlines(a + c) {
      LaterOffset(a, c);
    }
  }

  // ---------------------------------------------------------------- reading lines back

  function Line(text: string, line: nat): string
    requires line <= Newlines(text)
  {
    var start, stop := Start(text, line), Stop(text, line);
    if start <= stop <= |text| then text[start..stop] else ""
  }

  /** Lines from..until of a text, joined again with newlines: how a reader resolves a line range. */
  function ReadLines(text: string, from: nat, until: nat): string
    requires from <= until <= Newlines(text) + 1
    decreases until
  {
    if from == until then ""
    else if from + 1 == until then Line(text, from)
    else ReadLines(text, from, until - 1) + "\n" + Line(text, until - 1)
  }

  /** Line by line, the text is covered: each line's newline sits right before the next start. */
  lemma {:induction false} NextLine(text: string, line: nat)
    requires line <= Newlines(text)
    ensures Start(text, line) <= Stop(text, line) <= |text|
    ensures line < Newlines(text) ==> text[Stop(text, line)] == '\n' && Start(text, line + 1) == Stop(text, line) + 1
    decreases |text|
  {
    if text != "" {
      var t := text[..|text| - 1];
      if line <= Newlines(t) {
        NextLine(t, line);
      }
    }
  }

  lemma LineIsSlice(text: string, line: nat)
    requires line <= Newlines(text)
    ensures Start(text, line) <= Stop(text, line) <= |text|
    ensures Line(text, line) == text[Start(text, line)..Stop(text, line)]
  {
    NextLine(text, line);
  }

  lemma {:induction false} ReadLinesIsSlice(text: string, from: nat, until: nat)
    requires from < until <= Newlines(text) + 1
    ensures 0 <= Start(text, from) <= Stop(text, until - 1) <= |text|
    ensures ReadLines(text, from, until) == text[Start(text, from)..Stop(text, until - 1)]
    decreases until
  {
    hide Newlines, Offsets, Start, Stop, Line;
    LineIsSlice(text, until - 1);
    if until > from + 1 {
      NextLine(text, until - 2);
      ReadLinesIsSlice(text, from, until - 1);
      AroundNewline(text, Start(text, from), Stop(text, until - 2), Stop(text, until - 1));
    }
  }

  lemma AroundNewline(text: string, a: nat, b: nat, c: nat)
    requires a <= b < c <= |text| && text[b] == '\n'
    ensures text[a..c] == text[a..b] + "\n" + text[b + 1..c]
  {
  }

  // ---------------------------------------------------------------- line ranges of joined parts

  /** Lines `from` (included) to `until` (excluded), counted from zero. */
  datatype Range = Range(from: nat, until: nat)

  function JoinWith(sep: string, parts: seq<string>): string {
    if |parts| == 0 then ""
    else if |parts| == 1 then parts[0]
    else JoinWith(sep, parts[..|parts| - 1]) + sep + parts[|parts| - 1]
  }

  /** What precedes part i in the joined text. */
  function Before(sep: string, parts: seq<string>, i: nat): string
    requires i < |parts|
  {
    if i == 0 then "" else JoinWith(sep, parts[..i]) + sep
  }

  function LineRange(before: string, part: string): Range {
    Range(Newlines(before), Newlines(before) + if part == "" then 0 else Newlines(part) + 1)
  }

  function Ranges(sep: string, parts: seq<string>): seq<Range> {
    seq(|parts|, i requires 0 <= i < |parts| => RangeAt(sep, parts, i))
  }

  function RangeAt(sep: string, parts: seq<string>, i: nat): Range
    requires i < |parts|
  {
    LineRange(Before(sep, parts, i), parts[i])
  }

  /** Starts and ends with a newline. */
  predicate LineSeparator(sep: string) {
    sep != "" && sep[0] == '\n' && sep[|sep| - 1] == '\n'
  }

  /** The joined text around part i; what follows is empty or begins with the separator. */
  lemma {:induction false} PartOf(sep: string, parts: seq<string>, i: nat) returns (after: string)
    requires i < |parts|
    ensures JoinWith(sep, parts) == Before(sep, parts, i) + parts[i] + after
    ensures after == "" || (|sep| <= |after| && after[..|sep|] == sep)
    decreases |parts|
  {
    var n := |parts| - 1;
    if i == n {
      assert i == 0 ==> parts == [parts[0]];
      after := "";
    } else {
      var rest := PartOf(sep, parts[..n], i);
      BeforeInit(sep, parts, i);
      after := rest + sep + parts[n];
    }
  }

  lemma BeforeInit(sep: string, parts: seq<string>, i: nat)
    requires i < |parts| - 1
    ensures Before(sep, parts[..|parts| - 1], i) == Before(sep, parts, i)
  {
    assert parts[..|parts| - 1][..i] == parts[..i];
  }

  /** A part between line boundaries is exactly the lines of its range. */
  lemma PartReadsBack(before: string, part: string, after: string)
    requires before == "" || before[|before| - 1] == '\n'
    requires after == "" || after[0] == '\n'
    ensures var text := before + part + after; var r := LineRange(before, part);
            r.until <= Newlines(text) + 1 && ReadLines(text, r.from, r.until) == part
  {
    hide Newlines, Offsets, Start, Stop;
    var text := before + part + after;
    var r := LineRange(before, part);
    assert text == before + (part + after);
    PartStart(before, part + after);
    PartStop(before + part, after);
    NewlinesJoin(before, part);
    if part != "" {
      ReadLinesIsSlice(text, r.from, r.until);
    }
  }

  /** Every part of a text joined with a line separator is read back exactly from its line range. */
  lemma RangeReadsBack(sep: string, parts: seq<string>, i: nat)
    requires LineSeparator(sep) && i < |parts|
    ensures var text := JoinWith(sep, parts); var r := Ranges(sep, parts)[i];
            r.until <= Newlines(text) + 1 && ReadLines(text, r.from, r.until) == parts[i]
  {
    hide Newlines, Offsets, ReadLines, JoinWith;
    var after := PartOf(sep, parts, i);
    var before := Before(sep, parts, i);
    assert i > 0 ==> before[|before| - 1] == sep[|sep| - 1];
    assert after != "" ==> after[0] == after[..|sep|][0];
    PartReadsBack(before, parts[i], after);
  }

  /** Line ranges are ordered and disjoint: a later part starts on a later line than an earlier one ends. */
  lemma {:induction false} RangesOrdered(sep: string, parts: seq<string>, i: nat, j: nat)
    requires LineSeparator(sep) && i < j < |parts|
    ensures RangeAt(sep, parts, i).until <= RangeAt(sep, parts, j).from
    ensures RangeAt(sep, parts, i).from < RangeAt(sep, parts, j).from
    decreases j
  {
    BeforeNext(sep, parts, j);
    NextRange(sep, Before(sep, parts, j - 1), parts[j - 1], parts[j]);
    if i < j - 1 {
      RangesOrdered(sep, parts, i, j - 1);
    }
  }

  lemma NextRange(sep: string, before: string, part: string, next: string)
    requires LineSeparator(sep)
    ensures var first := LineRange(before, part); var second := LineRange(before + part + sep, next);
            first.until <= second.from && first.from < second.from
  {
    NewlinesJoin(before + part, sep);
    NewlinesJoin(before, part);
    SeparatorHasNewline(sep);
  }

  lemma BeforeNext(sep: string, parts: seq<string>, j: nat)
    requires 0 < j < |parts|
    ensures Before(sep, parts, j) == Before(sep, parts, j - 1) + parts[j - 1] + sep
  {
    assert parts[..j][..j - 1] == parts[..j - 1];
  }

  lemma SeparatorHasNewline(sep: string)
    requires LineSeparator(sep)
    ensures Newlines(sep) >= 1
  {
  }

  /** Every part is read back exactly by its line range; the ranges are ordered and disjoint. */
  ghost predicate Anchored(text: string, parts: seq<string>, ranges: seq<Range>) {
    && |ranges| == |parts|
    && (forall i | 0 <= i < |parts| :: ReadsBack(text, parts[i], ranges[i]))
    && (forall i, j | 0 <= i < j < |parts| :: ranges[i].until <= ranges[j].from && ranges[i].from < ranges[j].from)
  }

  predicate ReadsBack(text: string, part: string, r: Range) {
    r.from <= r.until <= Newlines(text) + 1 && ReadLines(text, r.from, r.until) == part
  }

  lemma JoinedIsAnchored(sep: string, parts: seq<string>)
    requires LineSeparator(sep)
    ensures Anchored(JoinWith(sep, parts), parts, Ranges(sep, parts))
  {
    forall i | 0 <= i < |parts|
      ensures ReadsBack(JoinWith(sep, parts), parts[i], Ranges(sep, parts)[i])
    {
      RangeReadsBack(sep, parts, i);
    }
    forall i, j | 0 <= i < j < |parts|
      ensures Ranges(sep, parts)[i].until <= Ranges(sep, parts)[j].from
      ensures Ranges(sep, parts)[i].from < Ranges(sep, parts)[j].from
    {
      RangesOrdered(sep, parts, i, j);
    }
  }
}

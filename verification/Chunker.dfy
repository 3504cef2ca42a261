/** Splitting text into overlapping retrieval chunks, paragraph by paragraph. */
module Chunker {
  import opened Common
  import opened Lines

  /** `start` and `end` are the span the chunk claims; `line` is one-based. */
  datatype Chunk = Chunk(ordinal: nat, text: string, start: nat, end: nat, line: nat)

  datatype Refusal = InvalidWindow

  predicate Break(c: char) {
    c == '.' || c == '!' || c == '?' || c == '\U{0964}' || c == '\n'
  }

  // ---------------------------------------------------------------- paragraphs

  function SkipNewlines(text: string, i: nat): (j: nat)
    requires i <= |text|
    ensures i <= j <= |text|
    ensures forall k | i <= k < j :: text[k] == '\n'
    ensures j < |text| ==> text[j] != '\n'
    decreases |text| - i
  {
    if i < |text| && text[i] == '\n' then SkipNewlines(text, i + 1) else i
  }

  /** No two newlines in a row within [start, stop). */
  ghost predicate NoBlankLine(text: string, start: int, stop: int)
    requires 0 <= start <= stop <= |text|
  {
    forall j, k | start <= j < k < stop && k == j + 1 :: text[j] != '\n' || text[k] != '\n'
  }

  /**
   The end of the paragraph match, continuing after a non-newline character at i - 1: single
   newlines belong to it when text follows.
   */
  function ParagraphRest(text: string, i: nat): (j: nat)
    requires 0 < i <= |text| && text[i - 1] != '\n'
    ensures i <= j <= |text|
    ensures text[j - 1] != '\n'
    ensures NoBlankLine(text, i - 1, j)
    ensures j < |text| ==> text[j] == '\n' && (j + 1 == |text| || text[j + 1] == '\n')
    decreases |text| - i
  {
    if i == |text| then i
    else if text[i] != '\n' then ParagraphRest(text, i + 1)
    else if i + 1 < |text| && text[i + 1] != '\n' then ParagraphRest(text, i + 2)
    else i
  }

  /** [start, stop) is one paragraph match: no blank line inside, and it cannot be extended either way. */
  ghost predicate Paragraph(text: string, start: nat, stop: nat) {
    && start < stop <= |text|
    && (start > 0 ==> text[start - 1] == '\n')
    && text[start] != '\n' && text[stop - 1] != '\n'
    && NoBlankLine(text, start, stop)
    && (stop < |text| ==> text[stop] == '\n' && (stop + 1 == |text| || text[stop + 1] == '\n'))
  }

  lemma ParagraphFound(text: string, start: nat)
    requires start < |text| && text[start] != '\n' && (start > 0 ==> text[start - 1] == '\n')
    ensures Paragraph(text, start, ParagraphRest(text, start + 1))
  {
  }

  // ---------------------------------------------------------------- chunks

  /** The last break character in [from, to), plus one; `to` when there is none. */
  method CutAfterLastBreak(text: string, from: nat, to: nat) returns (end: nat)
    requires from <= to <= |text|
    ensures from <= end <= to
    ensures (exists k | from <= k < to :: Break(text[k])) ==> from < end && Break(text[end - 1])
    ensures forall k | end <= k < to :: !Break(text[k])
    ensures (forall k | from <= k < to :: !Break(text[k])) ==> end == to
  {
    end := to;
    var k := to;
    while k > from
      invariant from <= k <= to && end == to
      invariant forall j | k <= j < to :: !Break(text[j])
    {
      if Break(text[k - 1]) {
        return k;
      }
      k := k - 1;
    }
  }

  /** A chunk is the exact slice it claims, no longer than the limit, inside one paragraph, with its line. */
  ghost predicate ChunkOk(text: string, c: Chunk, limit: nat, start: nat, stop: nat) {
    && start <= c.start < c.end <= stop <= |text|
    && c.end - c.start <= limit
    && c.text == text[c.start..c.end]
    && c.line == LineOf(text, c.start)
  }

  /** No break in [from, to). */
  ghost predicate Unbroken(text: string, from: nat, to: nat) {
    to <= |text| && forall k | from <= k < to :: text[k] !in {'.', '!', '?', '\U{0964}', '\n'}
  }

  /**
   A chunk reaches its paragraph's end exactly when the limit allows. Otherwise it stops right
   after the last break of the window's second half, or at the limit when there is none.
   */
  ghost predicate CutOk(text: string, c: Chunk, limit: nat, stop: nat) {
    var middle, full := c.start + limit / 2, c.start + limit;
    && c.start < c.end <= stop <= |text|
    && (c.end == stop <==> full >= stop)
    && (c.end < stop ==>
          || (middle < c.end <= full && text[c.end - 1] in {'.', '!', '?', '\U{0964}', '\n'} && Unbroken(text, c.end, full))
          || (c.end == full && Unbroken(text, middle, full)))
  }

  function Min(a: int, b: int): int {
    if a < b then a else b
  }

  /** Chunk i repeats the last `overlap` characters of the one before it, or all but its first. */
  ghost predicate Follows(chunks: seq<Chunk>, i: nat, overlap: nat)
    requires 0 < i < |chunks|
  {
    var before := chunks[i - 1];
    before.end - chunks[i].start == Min(overlap, before.end - before.start - 1)
  }

  /** Chunks of one paragraph [start, stop), the first of them row number `first`. */
  ghost predicate Building(text: string, chunks: seq<Chunk>, first: nat, start: nat, stop: nat, limit: nat, overlap: nat) {
    && (chunks != [] ==> chunks[0].start == start)
    && (forall i | 0 <= i < |chunks| ::
          ChunkOk(text, chunks[i], limit, start, stop) && CutOk(text, chunks[i], limit, stop) && chunks[i].ordinal == first + i)
    && (forall i | 0 < i < |chunks| :: Follows(chunks, i, overlap))
  }

  /** All chunks of a paragraph. */
  ghost predicate Covers(text: string, chunks: seq<Chunk>, first: nat, start: nat, stop: nat, limit: nat, overlap: nat) {
    Building(text, chunks, first, start, stop, limit, overlap) && chunks != [] && chunks[|chunks| - 1].end == stop
  }

  lemma AddChunk(text: string, chunks: seq<Chunk>, c: Chunk, first: nat, start: nat, stop: nat, limit: nat, overlap: nat)
    requires Building(text, chunks, first, start, stop, limit, overlap)
    requires ChunkOk(text, c, limit, start, stop) && CutOk(text, c, limit, stop) && c.ordinal == first + |chunks|
    requires chunks == [] ==> c.start == start
    requires chunks != [] ==> Follows(chunks + [c], |chunks|, overlap)
    ensures Building(text, chunks + [c], first, start, stop, limit, overlap)
  {
    forall i | 0 < i < |chunks + [c]|
      ensures Follows(chunks + [c], i, overlap)
    {
      assert i < |chunks| ==> Follows(chunks, i, overlap);
    }
  }

  method NextChunk(text: string, ordinal: nat, at: nat, start: nat, stop: nat, limit: nat) returns (c: Chunk)
    requires start <= at < stop <= |text| && limit > 0
    ensures ChunkOk(text, c, limit, start, stop) && CutOk(text, c, limit, stop)
    ensures c.ordinal == ordinal && c.start == at
  {
    var end := if at + limit < stop then at + limit else stop;
    if end < stop {
      end := CutAfterLastBreak(text, at + limit / 2, end);
    }
    c := Chunk(ordinal, text[at..end], at, end, LineOf(text, at));
  }

  method ChunkParagraph(text: string, first: nat, start: nat, stop: nat, limit: nat, overlap: nat) returns (chunks: seq<Chunk>)
    requires start < stop <= |text| && overlap < limit
    ensures Covers(text, chunks, first, start, stop, limit, overlap)
  {
    chunks := [];
    var at := start;
    while true
      invariant start <= at < stop
      invariant Building(text, chunks, first, start, stop, limit, overlap)
      invariant if chunks == [] then at == start
                else chunks[|chunks| - 1].end - at == Min(overlap, chunks[|chunks| - 1].end - chunks[|chunks| - 1].start - 1)
      decreases stop - at
    {
      var c := NextChunk(text, first + |chunks|, at, start, stop, limit);
      AddChunk(text, chunks, c, first, start, stop, limit, overlap);
      chunks := chunks + [c];
      if c.end == stop {
        return;
      }
      at := if at + 1 > c.end - overlap then at + 1 else c.end - overlap;
    }
  }

  // ---------------------------------------------------------------- the whole text

  /** A paragraph [start, stop) and its chunks, the first of them row number `first`. */
  datatype Group = Group(start: nat, stop: nat, first: nat, chunks: seq<Chunk>)

  ghost predicate GroupOk(text: string, g: Group, limit: nat, overlap: nat) {
    Paragraph(text, g.start, g.stop) && Covers(text, g.chunks, g.first, g.start, g.stop, limit, overlap)
  }

  /** The rows of all groups, in order. */
  ghost function Rows(groups: seq<Group>): seq<Chunk> {
    if groups == [] then [] else Rows(groups[..|groups| - 1]) + groups[|groups| - 1].chunks
  }

  /** Paragraphs in text order, each with its chunks, row numbers running on from one to the next. */
  ghost predicate Grouped(text: string, groups: seq<Group>, limit: nat, overlap: nat) {
    groups == []
    || (var before := groups[..|groups| - 1];
        var g := groups[|groups| - 1];
        Grouped(text, before, limit, overlap)
        && GroupOk(text, g, limit, overlap)
        && g.first == |Rows(before)|
        && EndsBefore(before, g.start))
  }

  ghost predicate EndsBefore(groups: seq<Group>, at: nat) {
    groups != [] ==> groups[|groups| - 1].stop < at
  }

  /** Row i is the exact slice it claims, 1 to `limit` characters, on the right line. */
  ghost predicate Exact(text: string, chunks: seq<Chunk>, i: nat, limit: nat)
    requires i < |chunks|
  {
    var c := chunks[i];
    && c.ordinal == i && 1 <= |c.text| <= limit
    && c.start < c.end <= |text| && c.text == text[c.start..c.end]
    && c.line == LineOf(text, c.start)
  }

  ghost predicate InSomeChunk(chunks: seq<Chunk>, k: nat) {
    exists i | 0 <= i < |chunks| :: chunks[i].start <= k < chunks[i].end
  }

  /**
   chunk_text. The ghost result exhibits the paragraphs with their chunks: within one they
   touch or overlap by at most `overlap`, cover it from end to end, and stop early only at a
   break or the limit. No character but newlines is lost.
   */
  method ChunkText(text: string, limit: int, overlap: int) returns (result: Result<seq<Chunk>, Refusal>, ghost groups: seq<Group>)
    ensures result == Err(InvalidWindow) <==> limit <= overlap || overlap < 0
    ensures result.Ok? ==> 0 <= overlap < limit && Grouped(text, groups, limit, overlap) && result.value == Rows(groups)
    ensures result.Ok? ==> forall i | 0 <= i < |result.value| :: Exact(text, result.value, i, limit)
    ensures result.Ok? ==> forall k | 0 <= k < |text| && text[k] != '\n' :: InSomeChunk(result.value, k)
  {
    hide Exact, InSomeChunk, Grouped, Rows, GroupOk, Covers, Building;
    NoGroups(text, limit, overlap);
    groups := [];
    if limit <= overlap || overlap < 0 {
      return Err(InvalidWindow), groups;
    }
    var chunks := [];
    var i := SkipNewlines(text, 0);
    while i < |text|
      invariant i <= |text| && (i < |text| ==> text[i] != '\n' && (i > 0 ==> text[i - 1] == '\n'))
      invariant Grouped(text, groups, limit, overlap) && chunks == Rows(groups)
      invariant i < |text| ==> EndsBefore(groups, i)
      invariant forall k | 0 <= k < |chunks| :: Exact(text, chunks, k, limit)
      invariant forall k | 0 <= k < i && text[k] != '\n' :: InSomeChunk(chunks, k)
      decreases |text| - i
    {
      var stop := ParagraphRest(text, i + 1);
      ParagraphFound(text, i);
      var group := ChunkParagraph(text, |chunks|, i, stop, limit, overlap);
      var next := SkipNewlines(text, stop);
      ghost var g := Group(i, stop, |chunks|, group);
      AddGroup(text, groups, g, limit, overlap);
      AddRows(text, chunks, group, i, stop, limit, overlap);
      chunks := chunks + group;
      groups := groups + [g];
      i := next;
    }
    result := Ok(chunks);
  }

  lemma NoGroups(text: string, limit: int, overlap: int)
    ensures Rows([]) == []
    ensures 0 <= overlap < limit ==> Grouped(text, [], limit, overlap)
  {
  }

  lemma AddGroup(text: string, groups: seq<Group>, g: Group, limit: nat, overlap: nat)
    requires Grouped(text, groups, limit, overlap)
    requires Paragraph(text, g.start, g.stop) && Covers(text, g.chunks, g.first, g.start, g.stop, limit, overlap)
    requires g.first == |Rows(groups)| && EndsBefore(groups, g.start)
    ensures Grouped(text, groups + [g], limit, overlap)
    ensures Rows(groups + [g]) == Rows(groups) + g.chunks
    ensures EndsBefore(groups + [g], g.stop + 1)
  {
    assert (groups + [g])[..|groups|] == groups;
  }

  lemma AddRows(text: string, chunks: seq<Chunk>, group: seq<Chunk>, start: nat, stop: nat, limit: nat, overlap: nat)
    requires Covers(text, group, |chunks|, start, stop, limit, overlap)
    requires forall k | 0 <= k < |chunks| :: Exact(text, chunks, k, limit)
    ensures forall k | 0 <= k < |chunks + group| :: Exact(text, chunks + group, k, limit)
    ensures forall k | start <= k < stop :: InSomeChunk(chunks + group, k)
    ensures forall k: nat | InSomeChunk(chunks, k) :: InSomeChunk(chunks + group, k)
  {
    hide Exact, InSomeChunk, Covers;
    forall k | 0 <= k < |chunks + group|
      ensures Exact(text, chunks + group, k, limit)
    {
      RowExact(text, chunks, group, start, stop, limit, overlap, k);
    }
    forall k | start <= k < stop
      ensures InSomeChunk(chunks + group, k)
    {
      RowCovers(text, chunks, group, start, stop, limit, overlap, k);
    }
    forall k: nat | InSomeChunk(chunks, k)
      ensures InSomeChunk(chunks + group, k)
    {
      StillInSomeChunk(chunks, group, k);
    }
  }

  lemma RowExact(text: string, chunks: seq<Chunk>, group: seq<Chunk>, start: nat, stop: nat, limit: nat, overlap: nat, k: nat)
    requires Covers(text, group, |chunks|, start, stop, limit, overlap) && k < |chunks + group|
    requires k < |chunks| ==> Exact(text, chunks, k, limit)
    ensures Exact(text, chunks + group, k, limit)
  {
    hide LineOf;
    if k >= |chunks| {
      var c := group[k - |chunks|];
      assert (chunks + group)[k] == c && ChunkOk(text, c, limit, start, stop) && c.ordinal == k;
    }
  }

  lemma RowCovers(text: string, chunks: seq<Chunk>, group: seq<Chunk>, start: nat, stop: nat, limit: nat, overlap: nat, k: nat)
    requires Covers(text, group, |chunks|, start, stop, limit, overlap) && start <= k < stop
    ensures InSomeChunk(chunks + group, k)
  {
    hide Building;
    var i := CoveredIn(text, group, |chunks|, start, stop, limit, overlap, k, |group|);
    assert (chunks + group)[|chunks| + i] == group[i];
  }

  lemma StillInSomeChunk(chunks: seq<Chunk>, group: seq<Chunk>, k: nat)
    requires InSomeChunk(chunks, k)
    ensures InSomeChunk(chunks + group, k)
  {
    var i :| 0 <= i < |chunks| && chunks[i].start <= k < chunks[i].end;
    assert (chunks + group)[i] == chunks[i];
  }

  /** In one paragraph every position before the end of the n-th chunk lies in some chunk. */
  lemma {:induction false} CoveredIn(text: string, chunks: seq<Chunk>, first: nat, start: nat, stop: nat, limit: nat, overlap: nat, k: nat, n: nat)
    returns (i: nat)
    requires Building(text, chunks, first, start, stop, limit, overlap)
    requires 0 < n <= |chunks| && start <= k < chunks[n - 1].end
    ensures i < n && chunks[i].start <= k < chunks[i].end
    decreases n
  {
    hide CutOk, LineOf;
    i := n - 1;
    if k < chunks[n - 1].start {
      assert n > 1 && Follows(chunks, n - 1, overlap) && ChunkOk(text, chunks[n - 2], limit, start, stop);
      i := CoveredIn(text, chunks, first, start, stop, limit, overlap, k, n - 1);
    }
  }
}

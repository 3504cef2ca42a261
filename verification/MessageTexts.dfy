/** What a message of a WhatsApp export says, line by line, and which lines open a signed one. */
module MessageTexts {
  import opened Common
  import opened Messages

  // ---------------------------------------------------------------- one line

  /** Trimming takes exactly the line ends at the end of the line. */
  lemma {:induction false} TrimmedIs(line: string)
    ensures var t := TrimEnd(line);
            && line[..|t|] == t && (t == "" || (t[|t| - 1] != '\r' && t[|t| - 1] != '\n'))
            && forall i | |t| <= i < |line| :: line[i] == '\r' || line[i] == '\n'
  {
    if line != "" {
      TrimmedIs(line[..|line| - 1]);
    }
  }

  ghost predicate Mark(c: char) {
    c == '\U{200E}' || c == '\U{200F}'
  }

  /** Unmarking drops every directional mark and nothing else. */
  lemma {:induction false} UnmarkedIs(a: string, b: string)
    ensures Unmarked(a + b) == Unmarked(a) + Unmarked(b)
    ensures (forall i | 0 <= i < |a| :: !Mark(a[i])) ==> Unmarked(a) == a
    ensures (forall i | 0 <= i < |a| :: Mark(a[i])) ==> Unmarked(a) == ""
    decreases |a| + |b|
  {
    if b != "" {
      assert (a + b)[..|a + b| - 1] == a + b[..|b| - 1];
      UnmarkedIs(a, b[..|b| - 1]);
    } else {
      assert a + b == a;
      if a != "" {
        UnmarkedIs(a[..|a| - 1], "");
      }
    }
  }

  ghost predicate FirstAt(whole: string, part: string, i: nat) {
    OccursAt(whole, part, i) && forall j: nat | j < i :: !OccursAt(whole, part, j)
  }

  ghost predicate Contains(whole: string, part: string) {
    exists i :: FirstAt(whole, part, i)
  }

  lemma IndexIs(whole: string, part: string)
    ensures var r := IndexFrom(whole, part, 0);
            && (r.Some? <==> Contains(whole, part))
            && (r.Some? ==> FirstAt(whole, part, r.value))
  {
    var r := IndexFrom(whole, part, 0);
    forall j: nat | OccursAt(whole, part, j)
      ensures r.Some? && r.value <= j
    {
      IndexIsFirst(whole, part, 0, j);
    }
    if r.Some? {
      assert FirstAt(whole, part, r.value);
    }
    if i :| FirstAt(whole, part, i) {
      assert OccursAt(whole, part, i);
    }
  }

  /** Sender and text are what stands before and after the first colon-space; without one all is text. */
  ghost predicate ParsedAs(opening: string, m: Message) {
    && (m.sender.None? ==> !Contains(opening, ": ") && m.text == opening)
    && (m.sender.Some? ==> FirstAt(opening, ": ", |m.sender.value|) && opening == m.sender.value + ": " + m.text)
  }

  lemma ParsedIs(opening: string)
    ensures ParsedAs(opening, Parsed(opening))
  {
    hide Contains, FirstAt;
    IndexIs(opening, ": ");
    var r := IndexFrom(opening, ": ", 0);
    if r.Some? {
      var i := r.value;
      assert opening[i..i + 2] == ": ";
      assert opening == opening[..i] + opening[i..i + 2] + opening[i + 2..];
    }
  }

  /** What the header pattern makes of the line without its end and its marks. */
  ghost function HeaderText(rules: Rules, lines: seq<string>, k: nat): Option<string>
    requires k < |lines|
  {
    rules.header(Unmarked(TrimEnd(lines[k])))
  }

  /** A line opens a signed message exactly when it is a header with a non-empty sender that stands in the line itself. */
  lemma OpensIff(rules: Rules, lines: seq<string>, k: nat)
    requires k < |lines|
    ensures Header(rules, lines, k) <==> HeaderText(rules, lines, k).Some?
    ensures Opens(rules, lines, k)
            <==> HeaderText(rules, lines, k).Some?
                 && exists i: nat :: 0 < i && FirstAt(HeaderText(rules, lines, k).value, ": ", i)
                                && Contains(TrimEnd(lines[k]), HeaderText(rules, lines, k).value[..i])
  {
    hide TrimEnd, Unmarked, FirstAt;
    if Header(rules, lines, k) {
      var opening := HeaderText(rules, lines, k).value;
      IndexIs(opening, ": ");
      forall i: nat, j: nat | FirstAt(opening, ": ", i) && FirstAt(opening, ": ", j)
        ensures i == j
      {
        FirstOnce(opening, ": ", i, j);
      }
      var r := IndexFrom(opening, ": ", 0);
      if r.Some? {
        IndexIs(TrimEnd(lines[k]), opening[..r.value]);
        assert |opening[..r.value]| == r.value;
      }
    }
  }

  lemma FirstOnce(whole: string, part: string, i: nat, j: nat)
    requires FirstAt(whole, part, i) && FirstAt(whole, part, j)
    ensures i == j
  {
  }

  // ---------------------------------------------------------------- whole messages

  /** Continuation lines, each on a line of its own. */
  ghost function Continued(lines: seq<string>, from: nat, to: nat): string
    requires to <= |lines|
  {
    if to <= from then "" else Continued(lines, from, to - 1) + "\n" + TrimEnd(lines[to - 1])
  }

  /** The message that line k opens goes on up to line e: the next header, or the end. */
  ghost predicate Spans(rules: Rules, lines: seq<string>, k: nat, n: nat, e: nat)
    requires n <= |lines|
  {
    k < e <= n && (forall i | k < i < e :: HeaderText(rules, lines, i).None?) && (e < n ==> HeaderText(rules, lines, e).Some?)
  }

  lemma {:induction false} HeadersGrow(rules: Rules, lines: seq<string>, m: nat, n: nat)
    requires m <= n <= |lines|
    ensures Headers(rules, lines, m) <= Headers(rules, lines, n)
    ensures (forall i | m <= i < n :: HeaderText(rules, lines, i).None?) ==> Headers(rules, lines, m) == Headers(rules, lines, n)
    decreases n
  {
    hide TrimEnd, Unmarked;
    if m < n {
      assert Header(rules, lines, n - 1) <==> HeaderText(rules, lines, n - 1).Some?;
      HeadersGrow(rules, lines, m, n - 1);
    }
  }

  lemma HeaderCounts(rules: Rules, lines: seq<string>, k: nat)
    requires k < |lines|
    ensures Headers(rules, lines, k + 1) == Headers(rules, lines, k) + if HeaderText(rules, lines, k).Some? then 1 else 0
  {
  }

  /**
   What each message says: header line k, the (Headers(k) + 1)-th, opens the message at that
   place, with the sender and text it is parsed into, and every following line up to the next
   header is added to its text.
   */
  lemma {:induction false} MessageSays(rules: Rules, lines: seq<string>, k: nat, n: nat, e: nat)
    requires n <= |lines| && Spans(rules, lines, k, n, e) && HeaderText(rules, lines, k).Some?
    ensures Headers(rules, lines, k) < |MessagesOf(rules, lines, n)|
    ensures var m := MessagesOf(rules, lines, n)[Headers(rules, lines, k)];
            var parsed := Parsed(HeaderText(rules, lines, k).value);
            m == Message(parsed.sender, parsed.text + Continued(lines, k + 1, e))
    decreases n
  {
    hide TrimEnd, Unmarked, Parsed, HeaderText, MessagesOf, Headers;
    HeaderCounts(rules, lines, k);
    MessagesNext(rules, lines, n - 1);
    if k == n - 1 {
      assert Continued(lines, n, n) == "";
    } else if e == n {
      MessageSays(rules, lines, k, n - 1, n - 1);
      HeadersGrow(rules, lines, k + 1, n - 1);
      Lengthened(Parsed(HeaderText(rules, lines, k).value).text, lines, k + 1, n);
    } else {
      MessageSays(rules, lines, k, n - 1, e);
      HeadersGrow(rules, lines, k + 1, e);
      HeaderCounts(rules, lines, e);
      if e < n - 1 {
        HeadersGrow(rules, lines, e + 1, n - 1);
      }
    }
  }

  lemma Lengthened(text: string, lines: seq<string>, from: nat, to: nat)
    requires from < to <= |lines|
    ensures (text + Continued(lines, from, to - 1)) + "\n" + TrimEnd(lines[to - 1]) == text + Continued(lines, from, to)
  {
    hide TrimEnd;
    var front, last := Continued(lines, from, to - 1), "\n" + TrimEnd(lines[to - 1]);
    assert Continued(lines, from, to) == front + last;
    assert (text + front) + last == text + (front + last);
  }

  /** One line more: a message of its own, or a line more of the last message. */
  lemma MessagesNext(rules: Rules, lines: seq<string>, n: nat)
    requires n < |lines|
    ensures var before, after := MessagesOf(rules, lines, n), MessagesOf(rules, lines, n + 1);
            if HeaderText(rules, lines, n).Some? then after == before + [Parsed(HeaderText(rules, lines, n).value)]
            else if before == [] then after == before
            else
              var last := before[|before| - 1];
              after == before[|before| - 1 := Message(last.sender, last.text + "\n" + TrimEnd(lines[n]))]
  {
    hide TrimEnd, Unmarked, Parsed;
  }
}

/** Chat exports as one text with a context per signed message, and who owns an observation. */
module Messages {
  import opened Common
  import opened Lines

  /**
   A signed message: the sender's name stands at [start, end) and everything inside
   [from, until) is attributed to that sender. `message` is its place in the export.
   */
  datatype Context = Context(value: string, start: nat, end: nat, from: nat, until: nat, message: nat)

  ghost predicate ContextOk(text: string, c: Context) {
    && c.from <= c.start < c.end <= c.until <= |text|
    && text[c.start..c.end] == c.value
  }

  /** Every context's slice is its sender, and the contexts' spans are in order and disjoint. */
  ghost predicate Attributable(text: string, contexts: seq<Context>) {
    && (forall i | 0 <= i < |contexts| :: ContextOk(text, contexts[i]))
    && (forall i, j | 0 <= i < j < |contexts| :: contexts[i].until <= contexts[j].from)
  }

  // ---------------------------------------------------------------- attribution

  predicate Holds(c: Context, start: nat, end: nat) {
    c.from <= start < end <= c.until
  }

  function Owners(contexts: seq<Context>, start: nat, end: nat): seq<Context> {
    if contexts == [] then []
    else
      var c := contexts[|contexts| - 1];
      Owners(contexts[..|contexts| - 1], start, end) + if Holds(c, start, end) then [c] else []
  }

  /** run_evidence: an observation has an owner when exactly one context holds its span. */
  method Attribute(contexts: seq<Context>, start: nat, end: nat) returns (owner: Option<Context>)
    ensures owner == if |Owners(contexts, start, end)| == 1 then Some(Owners(contexts, start, end)[0]) else None
  {
    var owners: seq<Context> := [];
    for i := 0 to |contexts|
      invariant owners == Owners(contexts[..i], start, end)
    {
      assert contexts[..i + 1][..i] == contexts[..i];
      if Holds(contexts[i], start, end) {
        owners := owners + [contexts[i]];
      }
    }
    assert contexts[..|contexts|] == contexts;
    owner := if |owners| == 1 then Some(owners[0]) else None;
  }

  /** In an attributable text no span has two owners, so the only holder is the owner. */
  lemma {:induction false} HolderIsOwner(text: string, contexts: seq<Context>, start: nat, end: nat, i: nat)
    requires Attributable(text, contexts)
    requires i < |contexts| && Holds(contexts[i], start, end)
    ensures Owners(contexts, start, end) == [contexts[i]]
    decreases |contexts|
  {
    var n := |contexts| - 1;
    if i < n {
      HolderIsOwner(text, contexts[..n], start, end, i);
    } else {
      NoHolder(contexts[..n], start, end);
    }
  }

  lemma {:induction false} NoHolder(contexts: seq<Context>, start: nat, end: nat)
    requires forall i | 0 <= i < |contexts| :: !Holds(contexts[i], start, end)
    ensures Owners(contexts, start, end) == []
  {
    if contexts != [] {
      NoHolder(contexts[..|contexts| - 1], start, end);
    }
  }

  /** A span has an owner exactly when some context holds it, and then that context is it. */
  lemma OwnerIff(text: string, contexts: seq<Context>, start: nat, end: nat)
    requires Attributable(text, contexts)
    ensures |Owners(contexts, start, end)| <= 1
    ensures forall i | 0 <= i < |contexts| ::
              Holds(contexts[i], start, end) <==> Owners(contexts, start, end) == [contexts[i]]
    ensures Owners(contexts, start, end) == [] <==> forall i | 0 <= i < |contexts| :: !Holds(contexts[i], start, end)
  {
    if i :| 0 <= i < |contexts| && Holds(contexts[i], start, end) {
      HolderIsOwner(text, contexts, start, end, i);
      forall j | 0 <= j < |contexts|
        ensures Holds(contexts[j], start, end) <==> Owners(contexts, start, end) == [contexts[j]]
      {
        if Holds(contexts[j], start, end) {
          HolderIsOwner(text, contexts, start, end, j);
        }
      }
    } else {
      NoHolder(contexts, start, end);
    }
  }

  /** The observation made of a sender's name is attributed to that very message. */
  lemma SenderOwnsItself(text: string, contexts: seq<Context>, i: nat)
    requires Attributable(text, contexts) && i < |contexts|
    ensures Owners(contexts, contexts[i].start, contexts[i].end) == [contexts[i]]
  {
    assert ContextOk(text, contexts[i]);
    HolderIsOwner(text, contexts, contexts[i].start, contexts[i].end, i);
  }

  // ---------------------------------------------------------------- Telegram exports

  datatype Post = Post(id: string, at: string, sender: Option<string>, text: string, system: bool)

  function Name(p: Post): string {
    if p.sender.Some? then p.sender.value else ""
  }

  function Prefix(p: Post): string {
    "[" + p.id + "] " + p.at + " "
  }

  function PostLine(p: Post): string {
    Prefix(p) + Name(p) + ": " + p.text
  }

  predicate Signed(p: Post) {
    Name(p) != "" && !p.system
  }

  function PostLines(posts: seq<Post>): seq<string> {
    seq(|posts|, i requires 0 <= i < |posts| => PostLine(posts[i]))
  }

  /** The positions of the signed posts among the first n. */
  function SignedPosts(posts: seq<Post>, n: nat): (signed: seq<nat>)
    requires n <= |posts|
    ensures forall i | 0 <= i < |signed| :: signed[i] < n
    ensures forall i, j | 0 <= i < j < |signed| :: signed[i] < signed[j]
  {
    if n == 0 then [] else SignedPosts(posts, n - 1) + if Signed(posts[n - 1]) then [n - 1] else []
  }

  /** The context of post k: its span is exactly that post's line. */
  ghost predicate PostContext(posts: seq<Post>, text: string, c: Context, k: nat)
    requires k < |posts|
  {
    && ContextOk(text, c)
    && c.message == k && c.value == Name(posts[k])
    && c.from == |Before("\n", PostLines(posts), k)|
    && c.until == c.from + |PostLine(posts[k])|
    && c.start == c.from + |Prefix(posts[k])|
    && posts[k].sender.Some? && posts[k].sender.value != "" && !posts[k].system && c.value == posts[k].sender.value
    && text[c.from..c.until] == "[" + posts[k].id + "] " + posts[k].at + " " + c.value + ": " + posts[k].text
  }

  /** The contexts of the signed posts among the first n. */
  ghost predicate PostContexts(posts: seq<Post>, text: string, contexts: seq<Context>, n: nat)
    requires n <= |posts|
  {
    var signed := SignedPosts(posts, n);
    |contexts| == |signed| && forall i | 0 <= i < |contexts| :: PostContext(posts, text, contexts[i], signed[i])
  }

  method Telegram(posts: seq<Post>) returns (text: string, contexts: seq<Context>)
    ensures text == JoinWith("\n", PostLines(posts))
    ensures PostContexts(posts, text, contexts, |posts|)
    ensures forall k | 0 <= k < |posts| ::
              (posts[k].sender.Some? && posts[k].sender.value != "" && !posts[k].system)
              <==> exists i :: 0 <= i < |contexts| && contexts[i].message == k
  {
    hide PostContexts, Before, JoinWith;
    NoPosts(posts, JoinWith("\n", PostLines(posts)));
    ghost var full := JoinWith("\n", PostLines(posts));
    var parts: seq<string> := [];
    var offset := 0;
    contexts := [];
    for i := 0 to |posts|
      invariant parts == PostLines(posts)[..i]
      invariant i < |posts| ==> offset == |Before("\n", PostLines(posts), i)|
      invariant PostContexts(posts, full, contexts, i)
    {
      var prefix := Prefix(posts[i]);
      var line := prefix + Name(posts[i]) + ": " + posts[i].text;
      NextPostContexts(posts, contexts, i);
      if Signed(posts[i]) {
        var c := Context(Name(posts[i]), offset + |prefix|, offset + |prefix| + |Name(posts[i])|, offset, offset + |line|, i);
        contexts := contexts + [c];
      } else {
        assert contexts + [] == contexts;
      }
      parts := parts + [line];
      NextOffset(posts, i);
      offset := offset + |line| + 1;
    }
    text := JoinWith("\n", parts);
    assert parts == PostLines(posts);
    forall k | 0 <= k < |posts|
      ensures (posts[k].sender.Some? && posts[k].sender.value != "" && !posts[k].system)
              <==> exists i :: 0 <= i < |contexts| && contexts[i].message == k
    {
      ContextIffSigned(posts, text, contexts, k);
    }
  }

  lemma ContextIffSigned(posts: seq<Post>, text: string, contexts: seq<Context>, k: nat)
    requires k < |posts| && PostContexts(posts, text, contexts, |posts|)
    ensures (posts[k].sender.Some? && posts[k].sender.value != "" && !posts[k].system)
            <==> exists i :: 0 <= i < |contexts| && contexts[i].message == k
  {
    var signed := SignedPosts(posts, |posts|);
    if i :| 0 <= i < |contexts| && contexts[i].message == k {
      assert PostContext(posts, text, contexts[i], signed[i]);
    }
    if posts[k].sender.Some? && posts[k].sender.value != "" && !posts[k].system {
      var i := SignedHasContext(posts, |posts|, k);
      assert PostContext(posts, text, contexts[i], signed[i]);
    }
  }

  lemma NextOffset(posts: seq<Post>, i: nat)
    requires i < |posts|
    ensures i + 1 < |posts| ==>
              |Before("\n", PostLines(posts), i + 1)| == |Before("\n", PostLines(posts), i)| + |PostLine(posts[i])| + 1
  {
    if i + 1 < |posts| {
      BeforeNext("\n", PostLines(posts), i + 1);
    }
  }

  lemma {:induction false} LaterOffset(posts: seq<Post>, i: nat, j: nat)
    requires i < j < |posts|
    ensures |Before("\n", PostLines(posts), i)| + |PostLine(posts[i])| < |Before("\n", PostLines(posts), j)|
    decreases j
  {
    hide Before, PostLine, PostLines;
    NextOffset(posts, j - 1);
    if i < j - 1 {
      LaterOffset(posts, i, j - 1);
    }
  }

  /** A Telegram text is attributable; consecutive spans do not even touch. */
  lemma TelegramAttributable(posts: seq<Post>, text: string, contexts: seq<Context>)
    requires PostContexts(posts, text, contexts, |posts|)
    ensures Attributable(text, contexts)
    ensures forall i, j | 0 <= i < j < |contexts| :: contexts[i].until < contexts[j].from
  {
    var signed := SignedPosts(posts, |posts|);
    forall i, j | 0 <= i < j < |contexts|
      ensures contexts[i].until < contexts[j].from
    {
      assert PostContext(posts, text, contexts[i], signed[i]) && PostContext(posts, text, contexts[j], signed[j]);
      LaterOffset(posts, signed[i], signed[j]);
    }
  }

  ghost function ContextOfPost(posts: seq<Post>, k: nat): Context
    requires k < |posts|
  {
    var from := |Before("\n", PostLines(posts), k)|;
    var start := from + |Prefix(posts[k])|;
    Context(Name(posts[k]), start, start + |Name(posts[k])|, from, from + |PostLine(posts[k])|, k)
  }

  lemma NextPostContexts(posts: seq<Post>, contexts: seq<Context>, k: nat)
    requires k < |posts| && PostContexts(posts, JoinWith("\n", PostLines(posts)), contexts, k)
    ensures PostContexts(posts, JoinWith("\n", PostLines(posts)),
                         contexts + if Signed(posts[k]) then [ContextOfPost(posts, k)] else [], k + 1)
  {
    if Signed(posts[k]) {
      PostContextMade(posts, k);
    } else {
      assert contexts + [] == contexts;
    }
  }

  /** Before the first post there is no text and no context. */
  lemma NoPosts(posts: seq<Post>, text: string)
    ensures PostContexts(posts, text, [], 0)
    ensures posts != [] ==> Before("\n", PostLines(posts), 0) == ""
  {
  }

  /** Every post with a sender that is not a system message has a context. */
  lemma {:induction false} SignedHasContext(posts: seq<Post>, n: nat, k: nat) returns (i: nat)
    requires k < n <= |posts| && posts[k].sender.Some? && posts[k].sender.value != "" && !posts[k].system
    ensures i < |SignedPosts(posts, n)| && SignedPosts(posts, n)[i] == k
    decreases n
  {
    if k == n - 1 {
      i := |SignedPosts(posts, n)| - 1;
    } else {
      i := SignedHasContext(posts, n - 1, k);
    }
  }

  lemma PostContextMade(posts: seq<Post>, k: nat)
    requires k < |posts| && Signed(posts[k])
    ensures PostContext(posts, JoinWith("\n", PostLines(posts)), ContextOfPost(posts, k), k)
  {
    hide Before, JoinWith;
    var lines := PostLines(posts);
    var text, c := JoinWith("\n", lines), ContextOfPost(posts, k);
    var after := PartOf("\n", lines, k);
    assert text[c.from..c.until] == PostLine(posts[k]);
    assert text[c.start..c.end] == text[c.from..c.until][|Prefix(posts[k])|..|Prefix(posts[k])| + |Name(posts[k])|];
  }

  // ---------------------------------------------------------------- WhatsApp exports

  /**
   `header` is the pattern that recognises the date and time opening a message: it yields what
   follows them, or None for a continuation line.
   */
  datatype Rules = Rules(header: string -> Option<string>)

  /** One stored message: its sender when the header names one, and its text. */
  datatype Message = Message(sender: Option<string>, text: string)

  function TrimEnd(line: string): (t: string)
    ensures t <= line
  {
    if line != "" && (line[|line| - 1] == '\r' || line[|line| - 1] == '\n') then TrimEnd(line[..|line| - 1]) else line
  }

  /** The line without directional marks. */
  function Unmarked(line: string): string {
    if line == "" then ""
    else
      var c := line[|line| - 1];
      Unmarked(line[..|line| - 1]) + if c == '\U{200E}' || c == '\U{200F}' then "" else [c]
  }

  /** `part` stands at position i of `whole`. */
  predicate OccursAt(whole: string, part: string, i: nat) {
    i + |part| <= |whole| && whole[i..i + |part|] == part
  }

  /** First occurrence at or after i. */
  function IndexFrom(whole: string, part: string, i: nat): (r: Option<nat>)
    requires i <= |whole|
    ensures r.Some? ==> OccursAt(whole, part, r.value)
    decreases |whole| - i
  {
    if OccursAt(whole, part, i) then Some(i)
    else if i == |whole| then None
    else IndexFrom(whole, part, i + 1)
  }

  lemma {:induction false} IndexIsFirst(whole: string, part: string, i: nat, k: nat)
    requires i <= |whole| && i <= k && OccursAt(whole, part, k)
    ensures IndexFrom(whole, part, i).Some? && IndexFrom(whole, part, i).value <= k
    decreases |whole| - i
  {
    if !OccursAt(whole, part, i) {
      IndexIsFirst(whole, part, i + 1, k);
    }
  }

  /** What the header pattern yields for line k. */
  function Opening(rules: Rules, lines: seq<string>, k: nat): Option<string>
    requires k < |lines|
  {
    rules.header(Unmarked(TrimEnd(lines[k])))
  }

  predicate Header(rules: Rules, lines: seq<string>, k: nat)
    requires k < |lines|
  {
    Opening(rules, lines, k).Some?
  }

  /** partition(": "): the sender is what precedes the first colon-space, if there is one. */
  function Parsed(opening: string): Message {
    match IndexFrom(opening, ": ", 0)
    case Some(i) => Message(Some(opening[..i]), opening[i + 2..])
    case None => Message(None, opening)
  }

  /** Line k opens a message with a non-empty sender that can be found in the line itself. */
  predicate Opens(rules: Rules, lines: seq<string>, k: nat)
    requires k < |lines|
  {
    match Opening(rules, lines, k)
    case None => false
    case Some(opening) =>
      var sender := Parsed(opening).sender;
      sender.Some? && sender.value != "" && IndexFrom(TrimEnd(lines[k]), sender.value, 0).Some?
  }

  /** Text before line k. */
  function Upto(lines: seq<string>, k: nat): string
    requires k <= |lines|
  {
    if k == 0 then "" else Upto(lines, k - 1) + lines[k - 1]
  }

  function Offset(lines: seq<string>, k: nat): nat
    requires k <= |lines|
  {
    |Upto(lines, k)|
  }

  /** How many headers are among the first n lines. */
  function Headers(rules: Rules, lines: seq<string>, n: nat): nat
    requires n <= |lines|
  {
    if n == 0 then 0 else Headers(rules, lines, n - 1) + if Header(rules, lines, n - 1) then 1 else 0
  }

  /** The last header among the first n lines; -1 when there is none. */
  function LastHeader(rules: Rules, lines: seq<string>, n: nat): (k: int)
    requires n <= |lines|
    ensures -1 <= k < n
    ensures k >= 0 ==> Header(rules, lines, k)
    ensures forall j | k < j < n :: !Header(rules, lines, j)
  {
    if n == 0 then -1 else if Header(rules, lines, n - 1) then n - 1 else LastHeader(rules, lines, n - 1)
  }

  /** The lines among the first n that open a context. */
  function Openers(rules: Rules, lines: seq<string>, n: nat): (openers: seq<nat>)
    requires n <= |lines|
    ensures forall i | 0 <= i < |openers| :: openers[i] < n && Opens(rules, lines, openers[i])
    ensures forall i, j | 0 <= i < j < |openers| :: openers[i] < openers[j]
  {
    if n == 0 then [] else Openers(rules, lines, n - 1) + if Opens(rules, lines, n - 1) then [n - 1] else []
  }

  /** Where the span of the i-th opener ends after n lines. */
  function SpanEnd(rules: Rules, lines: seq<string>, n: nat, i: nat): nat
    requires n <= |lines| && i < |Openers(rules, lines, n)|
  {
    var openers := Openers(rules, lines, n);
    if i + 1 < |openers| then Offset(lines, openers[i + 1])
    else if LastHeader(rules, lines, n) > openers[i] then Offset(lines, LastHeader(rules, lines, n))
    else Offset(lines, |lines|)
  }

  /** The context of line k, whose span ends at `until`. */
  ghost predicate LineContext(rules: Rules, lines: seq<string>, c: Context, k: nat)
    requires k < |lines|
  {
    && Opens(rules, lines, k)
    && c.value == Parsed(Opening(rules, lines, k).value).sender.value
    && c.from == Offset(lines, k)
    && Some(c.start - c.from) == IndexFrom(TrimEnd(lines[k]), c.value, 0)
    && c.end == c.start + |c.value|
    && c.message == Headers(rules, lines, k)
  }

  ghost predicate Contexts(rules: Rules, lines: seq<string>, contexts: seq<Context>, n: nat)
    requires n <= |lines|
  {
    var openers := Openers(rules, lines, n);
    |contexts| == |openers| && forall i | 0 <= i < |contexts| :: OpenerContext(rules, lines, contexts[i], n, i)
  }

  /** The context of the i-th opener among the first n lines. */
  ghost predicate OpenerContext(rules: Rules, lines: seq<string>, c: Context, n: nat, i: nat)
    requires n <= |lines| && i < |Openers(rules, lines, n)|
  {
    LineContext(rules, lines, c, Openers(rules, lines, n)[i]) && c.until == SpanEnd(rules, lines, n, i)
  }

  /** The messages of the first n lines; continuation lines lengthen the last one. */
  function MessagesOf(rules: Rules, lines: seq<string>, n: nat): (messages: seq<Message>)
    requires n <= |lines|
    ensures |messages| == Headers(rules, lines, n)
  {
    if n == 0 then []
    else
      var before := MessagesOf(rules, lines, n - 1);
      match Opening(rules, lines, n - 1)
      case Some(opening) => before + [Parsed(opening)]
      case None =>
        if before == [] then before
        else
          var last := before[|before| - 1];
          before[|before| - 1 := last.(text := last.text + "\n" + TrimEnd(lines[n - 1]))]
  }

  /**
   The plain-text branch of parse, given the text's lines with their line ends. The last
   context's span is closed by every later header line, signed or not.
   */
  method WhatsApp(rules: Rules, lines: seq<string>) returns (messages: seq<Message>, contexts: seq<Context>)
    ensures messages == MessagesOf(rules, lines, |lines|)
    ensures Contexts(rules, lines, contexts, |lines|)
  {
    messages, contexts := [], [];
    var offset := 0;
    for i := 0 to |lines|
      invariant offset == Offset(lines, i)
      invariant messages == MessagesOf(rules, lines, i)
      invariant Contexts(rules, lines, contexts, i)
    {
      ghost var before := contexts;
      messages, contexts := ReadLine(rules, lines, i, offset, messages, contexts);
      ContextsStep(rules, lines, before, contexts, i);
      offset := offset + |lines[i]|;
    }
  }

  /** One turn of the loop: a header closes the last span and may open one, other lines continue. */
  method ReadLine(rules: Rules, lines: seq<string>, i: nat, offset: nat, messages0: seq<Message>, contexts0: seq<Context>)
    returns (messages: seq<Message>, contexts: seq<Context>)
    requires i < |lines| && offset == Offset(lines, i) && messages0 == MessagesOf(rules, lines, i)
    ensures messages == MessagesOf(rules, lines, i + 1)
    ensures contexts == if !Header(rules, lines, i) then contexts0 else Closed(contexts0, offset) + NewContext(rules, lines, i)
  {
    messages, contexts := messages0, contexts0;
    var line := TrimEnd(lines[i]);
    var opening := rules.header(Unmarked(line));
    if opening.Some? {
      if contexts != [] {
        contexts := contexts[|contexts| - 1 := contexts[|contexts| - 1].(until := offset)];
      }
      var message := Parsed(opening.value);
      messages := messages + [message];
      if message.sender.Some? && message.sender.value != "" {
        var at := IndexFrom(line, message.sender.value, 0);
        if at.Some? {
          var start := offset + at.value;
          contexts := contexts + [Context(message.sender.value, start, start + |message.sender.value|, offset, Offset(lines, |lines|), |messages| - 1)];
        }
      }
    } else if messages != [] {
      var last := messages[|messages| - 1];
      messages := messages[|messages| - 1 := last.(text := last.text + "\n" + line)];
    }
  }

  lemma ContextsStep(rules: Rules, lines: seq<string>, before: seq<Context>, after: seq<Context>, n: nat)
    requires n < |lines| && Contexts(rules, lines, before, n)
    requires after == if !Header(rules, lines, n) then before else Closed(before, Offset(lines, n)) + NewContext(rules, lines, n)
    ensures Contexts(rules, lines, after, n + 1)
  {
    hide OpenerContext, Openers, Opens, Header, NewContext, Offset;
    OpenersNext(rules, lines, n);
    var openers := Openers(rules, lines, n);
    forall i | 0 <= i < |openers|
      ensures OpenerContext(rules, lines, after[i], n + 1, i)
    {
      assert OpenerContext(rules, lines, before[i], n, i);
      ContextStep(rules, lines, before[i], after[i], n, i);
    }
    if Opens(rules, lines, n) {
      NewContextOk(rules, lines, n);
    }
  }

  lemma OpenersNext(rules: Rules, lines: seq<string>, n: nat)
    requires n < |lines|
    ensures Openers(rules, lines, n + 1) == Openers(rules, lines, n) + if Opens(rules, lines, n) then [n] else []
    ensures |NewContext(rules, lines, n)| == if Opens(rules, lines, n) then 1 else 0
    ensures Opens(rules, lines, n) ==> Header(rules, lines, n)
  {
  }

  lemma UntilApart(rules: Rules, lines: seq<string>, c: Context, until: nat, k: nat)
    requires k < |lines|
    ensures LineContext(rules, lines, c.(until := until), k) <==> LineContext(rules, lines, c, k)
  {
  }

  lemma ContextStep(rules: Rules, lines: seq<string>, c: Context, d: Context, n: nat, i: nat)
    requires n < |lines| && i < |Openers(rules, lines, n)| && OpenerContext(rules, lines, c, n, i)
    requires d == if Header(rules, lines, n) && i == |Openers(rules, lines, n)| - 1 then c.(until := Offset(lines, n)) else c
    ensures OpenerContext(rules, lines, d, n + 1, i)
  {
    hide LineContext, Offset, Openers, Opens, Header, NewContext;
    OpenersNext(rules, lines, n);
    assert Openers(rules, lines, n + 1)[i] == Openers(rules, lines, n)[i];
    UntilApart(rules, lines, c, d.until, Openers(rules, lines, n)[i]);
  }

  lemma NewContextOk(rules: Rules, lines: seq<string>, n: nat)
    requires n < |lines| && Opens(rules, lines, n)
    ensures OpenerContext(rules, lines, NewContext(rules, lines, n)[0], n + 1, |Openers(rules, lines, n)|)
  {
  }

  function Closed(contexts: seq<Context>, offset: nat): seq<Context> {
    if contexts == [] then [] else contexts[|contexts| - 1 := contexts[|contexts| - 1].(until := offset)]
  }

  function NewContext(rules: Rules, lines: seq<string>, n: nat): seq<Context>
    requires n < |lines|
  {
    if !Opens(rules, lines, n) then []
    else
      var sender := Parsed(Opening(rules, lines, n).value).sender.value;
      var start := Offset(lines, n) + IndexFrom(TrimEnd(lines[n]), sender, 0).value;
      [Context(sender, start, start + |sender|, Offset(lines, n), Offset(lines, |lines|), Headers(rules, lines, n))]
  }

  // ---------------------------------------------------------------- what the contexts mean

  lemma {:induction false} UptoSplit(lines: seq<string>, k: nat, n: nat) returns (rest: string)
    requires k <= n <= |lines|
    ensures Upto(lines, n) == Upto(lines, k) + rest
    ensures k < n ==> |lines[k]| <= |rest| && rest[..|lines[k]|] == lines[k]
    decreases n
  {
    if k == n {
      rest := "";
    } else {
      rest := UptoSplit(lines, k, n - 1);
      rest := rest + lines[n - 1];
    }
  }

  /** Line k's slice of the text is that line, and later lines start after it. */
  lemma LineSlice(lines: seq<string>, k: nat)
    requires k < |lines|
    ensures Offset(lines, k) + |lines[k]| == Offset(lines, k + 1) <= Offset(lines, |lines|)
    ensures Upto(lines, |lines|)[Offset(lines, k)..Offset(lines, k) + |lines[k]|] == lines[k]
  {
    var rest := UptoSplit(lines, k, |lines|);
    var more := UptoSplit(lines, k + 1, |lines|);
  }

  lemma OffsetsGrow(lines: seq<string>, k: nat, n: nat)
    requires k <= n <= |lines|
    ensures Offset(lines, k) <= Offset(lines, n)
    ensures k < n ==> Offset(lines, k) + |lines[k]| <= Offset(lines, n)
  {
    var rest := UptoSplit(lines, k, n);
  }

  /** A WhatsApp text is attributable: each context's slice is its sender, spans are in order and disjoint. */
  lemma WhatsAppAttributable(rules: Rules, lines: seq<string>, contexts: seq<Context>)
    requires Contexts(rules, lines, contexts, |lines|)
    ensures Attributable(Upto(lines, |lines|), contexts)
  {
    forall i | 0 <= i < |contexts|
      ensures ContextOk(Upto(lines, |lines|), contexts[i])
    {
      OpenerContextOk(rules, lines, contexts[i], i);
    }
    forall i, j | 0 <= i < j < |contexts|
      ensures contexts[i].until <= contexts[j].from
    {
      assert OpenerContext(rules, lines, contexts[i], |lines|, i) && OpenerContext(rules, lines, contexts[j], |lines|, j);
      EndsBeforeLater(rules, lines, contexts[i], contexts[j], i, j);
    }
  }

  lemma EndsBeforeLater(rules: Rules, lines: seq<string>, c: Context, d: Context, i: nat, j: nat)
    requires i < j < |Openers(rules, lines, |lines|)|
    requires OpenerContext(rules, lines, c, |lines|, i) && OpenerContext(rules, lines, d, |lines|, j)
    ensures c.until <= d.from
  {
    var openers := Openers(rules, lines, |lines|);
    assert i + 1 < j ==> openers[i + 1] < openers[j];
    OffsetsGrow(lines, openers[i + 1], openers[j]);
  }

  lemma OpenerContextOk(rules: Rules, lines: seq<string>, c: Context, i: nat)
    requires i < |Openers(rules, lines, |lines|)| && OpenerContext(rules, lines, c, |lines|, i)
    ensures ContextOk(Upto(lines, |lines|), c)
  {
    LineContextStands(rules, lines, c, Openers(rules, lines, |lines|)[i]);
    SpanEndLate(rules, lines, i);
  }

  lemma LineContextStands(rules: Rules, lines: seq<string>, c: Context, k: nat)
    requires k < |lines| && LineContext(rules, lines, c, k)
    ensures c.from <= c.start < c.end <= Offset(lines, k) + |lines[k]| == Offset(lines, k + 1) <= |Upto(lines, |lines|)|
    ensures Upto(lines, |lines|)[c.start..c.end] == c.value
  {
    hide LineContext, OccursAt, TrimEnd, Upto;
    LineContextFacts(rules, lines, c, k);
    LineSlice(lines, k);
    TrimmedOccurs(lines[k], c.value, c.start - c.from);
    NestedSlice(Upto(lines, |lines|), c.from, lines[k], c.start, c.value);
  }

  lemma SpanEndLate(rules: Rules, lines: seq<string>, i: nat)
    requires i < |Openers(rules, lines, |lines|)|
    ensures Offset(lines, Openers(rules, lines, |lines|)[i] + 1) <= SpanEnd(rules, lines, |lines|, i) <= Offset(lines, |lines|)
  {
    hide Openers, LastHeader, Offset, Opens, Header;
    var n := |lines|;
    var openers := Openers(rules, lines, n);
    var k := openers[i];
    var until: nat := if i + 1 < |openers| then openers[i + 1] else if LastHeader(rules, lines, n) > k then LastHeader(rules, lines, n) else n;
    OffsetsGrow(lines, k + 1, until);
    OffsetsGrow(lines, until, n);
  }

  lemma LineContextFacts(rules: Rules, lines: seq<string>, c: Context, k: nat)
    requires k < |lines| && LineContext(rules, lines, c, k)
    ensures c.value != "" && c.from == Offset(lines, k) && c.start >= c.from && c.end == c.start + |c.value|
    ensures OccursAt(TrimEnd(lines[k]), c.value, c.start - c.from)
  {
  }

  lemma TrimmedOccurs(line: string, part: string, i: nat)
    requires OccursAt(TrimEnd(line), part, i)
    ensures OccursAt(line, part, i)
  {
    var trimmed := TrimEnd(line);
    assert line[..|trimmed|] == trimmed;
    assert line[i..i + |part|] == line[..|trimmed|][i..i + |part|];
  }

  lemma NestedSlice(text: string, from: nat, line: string, start: nat, part: string)
    requires from + |line| <= |text| && text[from..from + |line|] == line
    requires from <= start && OccursAt(line, part, start - from)
    ensures start + |part| <= from + |line|
    ensures text[start..start + |part|] == part
  {
    var whole, i := text[from..from + |line|], start - from;
    forall j | 0 <= j < |part|
      ensures text[start + j] == part[j]
    {
      assert whole[i + j] == line[i + j] == line[i..i + |part|][j];
    }
  }

  lemma {:induction false} OpenersPrefix(rules: Rules, lines: seq<string>, k: nat, n: nat)
    requires k <= n <= |lines|
    ensures |Openers(rules, lines, k)| <= |Openers(rules, lines, n)|
    ensures Openers(rules, lines, n)[..|Openers(rules, lines, k)|] == Openers(rules, lines, k)
    ensures forall i | |Openers(rules, lines, k)| <= i < |Openers(rules, lines, n)| :: Openers(rules, lines, n)[i] >= k
    decreases n
  {
    if k < n {
      OpenersPrefix(rules, lines, k, n - 1);
    }
  }

  /** The last opener's span was closed by a header no later than line k. */
  predicate ClosedBy(rules: Rules, lines: seq<string>, i: nat, k: nat)
    requires i < |Openers(rules, lines, |lines|)|
  {
    var openers := Openers(rules, lines, |lines|);
    i + 1 == |openers| && openers[i] < LastHeader(rules, lines, |lines|) <= k
  }

  /**
   Who owns a span inside line k: nobody before the first opener or once the last opener's
   span is closed, else the nearest opener at or before line k.
   */
  lemma OwnerOfLine(rules: Rules, lines: seq<string>, contexts: seq<Context>, k: nat, start: nat, end: nat)
    requires Contexts(rules, lines, contexts, |lines|)
    requires k < |lines| && Offset(lines, k) <= start < end <= Offset(lines, k + 1)
    ensures |Openers(rules, lines, k + 1)| <= |contexts|
    ensures var m := |Openers(rules, lines, k + 1)|;
            Owners(contexts, start, end) == if m == 0 || ClosedBy(rules, lines, m - 1, k) then [] else [contexts[m - 1]]
  {
    hide Owners, Openers, Upto, Offset, LastHeader, OpenerContext, ClosedBy, Holds, Attributable;
    OpenersPrefix(rules, lines, k + 1, |lines|);
    WhatsAppAttributable(rules, lines, contexts);
    var text, m := Upto(lines, |lines|), |Openers(rules, lines, k + 1)|;
    forall i | 0 <= i < |contexts|
      ensures Holds(contexts[i], start, end) <==> i == m - 1 && !ClosedBy(rules, lines, i, k)
    {
      HoldsLine(rules, lines, contexts[i], i, k, start, end);
    }
    if m == 0 || ClosedBy(rules, lines, m - 1, k) {
      NoHolder(contexts, start, end);
    } else {
      HolderIsOwner(text, contexts, start, end, m - 1);
    }
  }

  lemma StartsAt(rules: Rules, lines: seq<string>, c: Context, i: nat)
    requires i < |Openers(rules, lines, |lines|)| && OpenerContext(rules, lines, c, |lines|, i)
    ensures c.from == Offset(lines, Openers(rules, lines, |lines|)[i])
  {
  }

  lemma HoldsLine(rules: Rules, lines: seq<string>, c: Context, i: nat, k: nat, start: nat, end: nat)
    requires i < |Openers(rules, lines, |lines|)| && OpenerContext(rules, lines, c, |lines|, i)
    requires k < |lines| && Offset(lines, k) <= start < end <= Offset(lines, k + 1)
    ensures Holds(c, start, end) <==> i == |Openers(rules, lines, k + 1)| - 1 && !ClosedBy(rules, lines, i, k)
  {
    hide Openers, Upto, LastHeader, LineContext, Header;
    var n := |lines|;
    var openers := Openers(rules, lines, n);
    OpenersPrefix(rules, lines, k + 1, n);
    StartsAt(rules, lines, c, i);
    var m := |Openers(rules, lines, k + 1)|;
    assert i < m ==> openers[i] == openers[..m][i];
    if i >= m {
      OffsetsGrow(lines, k + 1, openers[i]);
    } else {
      OffsetsGrow(lines, openers[i], k);
      var until: nat := if i + 1 < |openers| then openers[i + 1] else if LastHeader(rules, lines, n) > openers[i] then LastHeader(rules, lines, n) else n;
      assert c.until == Offset(lines, until);
      if i + 1 < m {
        assert openers[i + 1] == openers[..m][i + 1];
      }
      if until <= k {
        OffsetsGrow(lines, until, k);
      } else {
        OffsetsGrow(lines, k + 1, until);
      }
    }
  }

  /**
   A header line without a usable sender (a system notice) is nobody's text, except that it
   goes to the previous signed message exactly when some later line opens another message.
   */
  lemma NoticeOwnedIff(rules: Rules, lines: seq<string>, contexts: seq<Context>, k: nat, start: nat, end: nat)
    requires Contexts(rules, lines, contexts, |lines|)
    requires k < |lines| && Offset(lines, k) <= start < end <= Offset(lines, k + 1)
    requires Header(rules, lines, k) && !Opens(rules, lines, k)
    ensures |Openers(rules, lines, k)| <= |contexts|
    ensures Owners(contexts, start, end)
            == if Openers(rules, lines, k) != [] && exists j | k < j < |lines| :: Header(rules, lines, j)
               then [contexts[|Openers(rules, lines, k)| - 1]] else []
  {
    hide Openers, Opens, Header, Contexts, Owners, ClosedBy, Offset;
    OwnerOfLine(rules, lines, contexts, k, start, end);
    OpenersNext(rules, lines, k);
    if Openers(rules, lines, k) != [] {
      NoticeCloses(rules, lines, k);
    }
  }

  lemma NoticeCloses(rules: Rules, lines: seq<string>, k: nat)
    requires k < |lines| && Header(rules, lines, k) && !Opens(rules, lines, k) && Openers(rules, lines, k) != []
    ensures |Openers(rules, lines, k)| <= |Openers(rules, lines, |lines|)|
    ensures ClosedBy(rules, lines, |Openers(rules, lines, k)| - 1, k) <==> !exists j | k < j < |lines| :: Header(rules, lines, j)
  {
    hide Openers, Opens, Header, LastHeader;
    var openers, m := Openers(rules, lines, |lines|), |Openers(rules, lines, k)|;
    OpenersPrefix(rules, lines, k, |lines|);
    assert openers[m - 1] == openers[..m][m - 1];
    var last := LastHeader(rules, lines, |lines|);
    assert last >= k;
    if last == k && m < |openers| {
      OpenersNext(rules, lines, openers[m]);
    }
  }
}

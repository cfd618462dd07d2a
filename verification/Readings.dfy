/** How a line reads as code spans, lone backtick runs, control tokens and other
    characters, and which positions of a text the escaper rewrites. */
module Readings {
  import opened Text
  import opened Escape
  import opened EscapeLaws

  datatype Item = Span(length: nat, code: string) | Run(length: nat) | Token(text: string) | Other(c: char)

  function Source(item: Item): string {
    match item
    case Span(n, code) => Ticks(n) + code + Ticks(n)
    case Run(n) => Ticks(n)
    case Token(text) => text
    case Other(c) => [c]
  }

  function Line(items: seq<Item>): string {
    if items == [] then "" else Source(items[0]) + Line(items[1..])
  }

  predicate NoTick(rest: string) {
    rest == "" || rest[0] != '`'
  }

  /** The item stands for the beginning of its own text and rest: a code span up
      to the first run of its length, a run that nothing closes, a whole token. */
  predicate Fits(item: Item, rest: string) {
    match item
    case Span(n, code) => n > 0 && Bounded(code) && !HasClosingRun(code, n) && NoTick(rest)
    case Run(n) => n > 0 && NoTick(rest) && !HasClosingRun(rest, n)
    case Token(text) => text != "" && ControlLen(text + rest) == |text|
    case Other(c) => c != '`' && ControlLen([c] + rest) == 0
  }

  predicate Reading(items: seq<Item>) {
    items == [] || (Fits(items[0], Line(items[1..])) && Reading(items[1..]))
  }

  // ---- Every line has one reading ---------------------------------------

  lemma ClosingEmpty(n: nat)
    ensures !HasClosingRun("", n)
  {
  }

  lemma TicksAreRun(s: string, n: nat)
    requires n <= |s| && forall k | 0 <= k < n :: s[k] == '`'
    ensures s == Ticks(n) + s[n..]
  {
  }

  lemma TicksThen(n: nat, rest: string)
    requires n > 0 && NoTick(rest)
    ensures var s := Ticks(n) + rest;
            s[0] == '`' && RunLength(s, '`') == n && s[n..] == rest && s[..n] == Ticks(n)
  {
    RunOfTicks(n, rest);
  }

  lemma ClosingCons(c: char, s: string, n: nat)
    requires c != '`'
    ensures HasClosingRun([c] + s, n) == HasClosingRun(s, n)
  {
    assert ([c] + s)[1..] == s;
  }

  lemma ClosingOther(run: nat, s: string, n: nat)
    requires run > 0 && run != n && NoTick(s)
    ensures HasClosingRun(Ticks(run) + s, n) == HasClosingRun(s, n)
  {
    hide HasClosingRun, RunLength;
    TicksThen(run, s);
    ClosingRunStep(Ticks(run) + s, n);
  }

  /** The text before the first run of length n, and the text after it. */
  lemma {:induction false} FirstClosing(s: string, n: nat) returns (c: string, b: string)
    requires n > 0 && HasClosingRun(s, n)
    ensures s == c + Ticks(n) + b && !HasClosingRun(c, n) && NoTick(b)
    ensures c != "" ==> c[|c| - 1] != '`'
    decreases |s|
  {
    hide HasClosingRun, RunLength, Ticks;
    ClosingRunStep(s, n);
    ClosingEmpty(n);
    if s[0] != '`' {
      var c', b' := FirstClosing(s[1..], n);
      c, b := [s[0]] + c', b';
      assert s == [s[0]] + s[1..];
      ClosingCons(s[0], c', n);
    } else {
      var run := RunLength(s, '`');
      TicksAreRun(s, run);
      if run == n { return "", s[n..]; }
      var c', b' := FirstClosing(s[run..], n);
      TickHead(s[run..], c', n, b');
      c, b := Ticks(run) + c', b';
      ClosingOther(run, c', n);
    }
  }

  lemma TickHead(s: string, c: string, n: nat, b: string)
    requires n > 0 && s == c + Ticks(n) + b && NoTick(s)
    ensures c != "" && NoTick(c)
  {
    assert (Ticks(n) + b)[0] == '`' && s == c + (Ticks(n) + b);
    if c != "" { assert s[0] == c[0]; }
  }

  /** Every line reads as some items. */
  lemma {:induction false} ReadingExists(line: string) returns (items: seq<Item>)
    ensures Reading(items) && Line(items) == line
    decreases |line|
  {
    hide ControlLen, HasClosingRun, RunLength;
    if line == "" { return []; }
    var item, rest := HeadOf(line);
    var tail := ReadingExists(rest);
    items := [item] + tail;
    assert items[1..] == tail;
  }

  lemma HeadOf(line: string) returns (item: Item, rest: string)
    requires line != ""
    ensures Source(item) + rest == line && Source(item) != "" && Fits(item, rest)
  {
    hide ControlLen, HasClosingRun, RunLength;
    if line[0] == '`' {
      var n := RunLength(line, '`');
      rest := line[n..];
      TicksAreRun(line, n);
      assert n > 0 && NoTick(rest);
      if HasClosingRun(rest, n) {
        var c, b := FirstClosing(rest, n);
        assert rest == c + Ticks(n) + b;
        item, rest := Span(n, c), b;
        assert line == Ticks(n) + c + Ticks(n) + b;
      } else {
        item := Run(n);
      }
    } else if ControlLen(line) > 0 {
      var n := ControlLen(line);
      item, rest := Token(line[..n]), line[n..];
      assert line[..n] + line[n..] == line;
    } else {
      item, rest := Other(line[0]), line[1..];
      assert [line[0]] + line[1..] == line;
    }
  }

  /** Only one reading. */
  lemma {:induction false} ReadingUnique(a: seq<Item>, b: seq<Item>)
    requires Reading(a) && Reading(b) && Line(a) == Line(b)
    ensures a == b
  {
    hide Fits;
    if a != [] && b != [] {
      HeadUnique(a[0], Line(a[1..]), b[0], Line(b[1..]));
      assert Line(a[1..]) == Line(a)[|Source(a[0])|..] && Line(b[1..]) == Line(b)[|Source(b[0])|..];
      ReadingUnique(a[1..], b[1..]);
      assert a == [a[0]] + a[1..] && b == [b[0]] + b[1..];
    } else {
      if a != [] { SourceHolds(a[0], Line(a[1..])); }
      if b != [] { SourceHolds(b[0], Line(b[1..])); }
    }
  }

  lemma SourceHolds(item: Item, rest: string)
    requires Fits(item, rest)
    ensures Source(item) != ""
  {
    hide ControlLen, HasClosingRun;
  }

  /** What the item is can be read off the line. */
  lemma HeadIs(item: Item, rest: string)
    requires Fits(item, rest)
    ensures var line := Source(item) + rest;
            && line != "" && (line[0] == '`' <==> item.Span? || item.Run?)
            && (item.Token? <==> line[0] != '`' && ControlLen(line) > 0)
              && (item.Token? ==> |item.text| == ControlLen(line))
            && (line[0] == '`' ==> item.length == RunLength(line, '`')
                                   && (item.Span? <==> HasClosingRun(line[item.length..], item.length)))
  {
    hide HasClosingRun, RunLength;
    match item
    case Span(n, code) =>
      var after := code + Ticks(n) + rest;
      assert Source(item) + rest == Ticks(n) + after;
      TicksThen(n, after);
      SpanInterior(code, n, rest);
    case Run(n) =>
      TicksThen(n, rest);
    case Token(text) =>
      assert (text + rest)[0] == '<';
    case Other(c) =>
  }

  lemma HeadUnique(a: Item, s: string, b: Item, t: string)
    requires Fits(a, s) && Fits(b, t) && Source(a) + s == Source(b) + t
    ensures a == b
  {
    hide Fits, ControlLen, HasClosingRun, RunLength;
    HeadIs(a, s);
    HeadIs(b, t);
    var line := Source(a) + s;
    match a
    case Span(n, code) =>
      SpanUnique(n, code, s, b.code, t);
    case Run(n) =>
    case Token(text) =>
      assert text == line[..|text|] && b.text == line[..|text|];
    case Other(c) =>
      assert line[0] == c;
  }

  lemma SpanUnique(n: nat, a: string, s: string, b: string, t: string)
    requires Fits(Span(n, a), s) && Fits(Span(n, b), t)
    requires Ticks(n) + a + Ticks(n) + s == Ticks(n) + b + Ticks(n) + t
    ensures a == b
  {
    hide HasClosingRun;
    var rest := a + Ticks(n) + s;
    assert rest == (Ticks(n) + a + Ticks(n) + s)[n..] && b + Ticks(n) + t == (Ticks(n) + b + Ticks(n) + t)[n..];
    NotShorter(n, a, s, b, t);
    NotShorter(n, b, t, a, s);
    assert a == rest[..|a|] && b == rest[..|b|];
  }

  lemma NotShorter(n: nat, a: string, s: string, b: string, t: string)
    requires Fits(Span(n, a), s) && Fits(Span(n, b), t) && a + Ticks(n) + s == b + Ticks(n) + t
    ensures |b| <= |a|
  {
    hide HasClosingRun;
    if |b| <= |a| { return; }
    var rest := a + Ticks(n) + s;
    var last := |b| - 1;
    assert rest[last] == b[last];
    assert last >= |a| + n by {
      assert forall k | |a| <= k < |a| + n :: rest[k] == '`';
    }
    var d := b[|a| + n..];
    assert rest[|a| + n] == d[0] == s[0];
    assert b == a + Ticks(n) + d by {
      assert b == rest[..|b|] && a == rest[..|a|] && Ticks(n) == rest[|a|..|a| + n];
    }
    SpanInterior(a, n, d);
  }

  // ---- What is rewritten -------------------------------------------------

  function ItemMarks(item: Item): (m: seq<bool>)
    ensures |m| == |Source(item)|
  {
    if item.Token? && item.text != "" then [true] + Plain(|item.text| - 1) else Plain(|Source(item)|)
  }

  function MarksOf(items: seq<Item>): (m: seq<bool>)
    ensures |m| == |Line(items)|
  {
    if items == [] then [] else ItemMarks(items[0]) + MarksOf(items[1..])
  }

  lemma PlainSum(a: nat, b: nat)
    ensures Plain(a) + Plain(b) == Plain(a + b)
  {
  }

  lemma MarksCons(a: seq<bool>, b: seq<bool>, c: seq<bool>)
    ensures a + (b + c) == (a + b) + c
  {
  }

  lemma StepMarks(c: string, n: nat, rest: string, k: nat)
    requires n > 0 && c != "" && c[|c| - 1] != '`' && !HasClosingRun(c, n)
    requires k == if c[0] == '`' then RunLength(c, '`') else 1
    ensures 0 < k <= |c| && LineMarks(c + rest, n) == Plain(k) + LineMarks((c + rest)[k..], n)
  {
    hide ControlLen, HasClosingRun, RunLength;
    CodeRunPrefix(c, rest);
    ClosingRunStep(c, n);
    assert Plain(1) == [false];
  }

  /** Up to the closing run a span is scanned without marking anything. */
  lemma {:induction false} InteriorMarks(c: string, n: nat, b: string)
    requires n > 0 && (c == "" || c[|c| - 1] != '`') && !HasClosingRun(c, n) && NoTick(b)
    ensures LineMarks(c + Ticks(n) + b, n) == Plain(|c| + n) + LineMarks(b, 0)
    decreases |c|
  {
    hide ControlLen, HasClosingRun, RunLength, LineMarks, LineOut, Ticks;
    var rest := Ticks(n) + b;
    if c == "" {
      ClosingMarks(n, b);
      assert c + Ticks(n) + b == rest;
    } else {
      var k := if c[0] == '`' then RunLength(c, '`') else 1;
      SpanStep(c, n, rest, k) by { CodeRunPrefix(c, rest); }
      StepMarks(c, n, rest, k);
      assert c + Ticks(n) + b == c + rest && (c + rest)[k..] == c[k..] + Ticks(n) + b;
      InteriorMarks(c[k..], n, b);
      PlainSum(k, |c| - k + n);
      MarksCons(Plain(k), Plain(|c| - k + n), LineMarks(b, 0));
    }
  }

  lemma ClosingMarks(n: nat, b: string)
    requires n > 0 && NoTick(b)
    ensures LineMarks(Ticks(n) + b, n) == Plain(n) + LineMarks(b, 0)
  {
    hide ControlLen, HasClosingRun, RunLength;
    TicksThen(n, b);
  }

  lemma CodeRunPrefix(c: string, rest: string)
    requires c != "" && c[|c| - 1] != '`'
    ensures RunLength(c, '`') < |c| && RunLength(c + rest, '`') == RunLength(c, '`')
  {
    RunPrefix(c, rest);
  }

  lemma ItemIsMarked(item: Item, rest: string)
    requires Fits(item, rest)
    ensures LineMarks(Source(item) + rest, 0) == ItemMarks(item) + LineMarks(rest, 0)
  {
    hide ControlLen, HasClosingRun, RunLength;
    var line := Source(item) + rest;
    HeadIs(item, rest);
    match item
    case Span(n, code) =>
      var after := code + Ticks(n) + rest;
      assert line == Ticks(n) + after;
      TicksThen(n, after);
      InteriorMarks(code, n, rest);
      PlainSum(n, |code| + n);
      MarksCons(Plain(n), Plain(|code| + n), LineMarks(rest, 0));
    case Run(n) =>
      TicksThen(n, rest);
    case Token(text) =>
      assert line[|text|..] == rest;
      MarksCons([true], Plain(|text| - 1), LineMarks(rest, 0));
    case Other(c) =>
      assert line[1..] == rest && Plain(1) == [false];
  }

  /** The scanner marks the first character of each token and nothing else. */
  lemma {:induction false} ReadingMarks(items: seq<Item>)
    requires Reading(items)
    ensures LineMarks(Line(items), 0) == MarksOf(items)
  {
    hide Fits, LineMarks;
    if items == [] {
      NoMarks();
    } else {
      ItemIsMarked(items[0], Line(items[1..]));
      ReadingMarks(items[1..]);
    }
  }

  lemma NoMarks()
    ensures LineMarks("", 0) == []
  {
  }

  /** Some token begins at position i of the items' text. */
  predicate Begins(items: seq<Item>, i: nat) {
    items != [] && if i < |Source(items[0])| then i == 0 && items[0].Token?
                   else Begins(items[1..], i - |Source(items[0])|)
  }

  lemma {:induction false} MarkIsBeginning(items: seq<Item>, i: nat)
    requires i < |Line(items)|
    ensures MarksOf(items)[i] <==> Begins(items, i)
  {
    if items != [] && i >= |Source(items[0])| {
      MarkIsBeginning(items[1..], i - |Source(items[0])|);
    }
  }

  /** A token outside code begins at position i of the line. */
  ghost predicate TokenAt(line: string, i: nat) {
    exists items :: Reading(items) && Line(items) == line && Begins(items, i)
  }

  lemma LineMarksIff(line: string, i: nat)
    requires i < |line|
    ensures LineMarks(line, 0)[i] <==> TokenAt(line, i)
  {
    hide LineMarks, Reading, Line, Begins, MarksOf;
    var items := ReadingExists(line);
    ReadingMarks(items);
    MarkIsBeginning(items, i);
    if TokenAt(line, i) {
      var other :| Reading(other) && Line(other) == line && Begins(other, i);
      ReadingUnique(items, other);
    }
  }

  /** Position i of the text lies on an unfenced line, at a token outside code. */
  ghost predicate Rewritten(text: string, fence: Fence, i: nat)
    decreases |text|
  {
    text != "" &&
    var line := FirstLine(text);
    if i < |line| then !Verbatim(line, fence) && TokenAt(Body(line), i)
    else Rewritten(text[|line|..], NextFence(line, fence), i - |line|)
  }

  lemma {:induction false} LineEnds(items: seq<Item>, i: nat)
    requires i >= |Line(items)|
    ensures !Begins(items, i)
  {
    if items != [] {
      LineEnds(items[1..], i - |Source(items[0])|);
    }
  }

  lemma OneLineIff(line: string, fence: Fence, i: nat)
    requires i < |line|
    ensures MarksOfLine(line, fence)[i] <==> !Verbatim(line, fence) && TokenAt(Body(line), i)
  {
    hide LineMarks, Verbatim, Reading, Line, Begins, Ending;
    var body := Body(line);
    if i < |body| {
      LineMarksIff(body, i);
    } else {
      forall items | Line(items) == body
        ensures !Begins(items, i)
      {
        LineEnds(items, i);
      }
    }
  }

  /** The escaper rewrites these positions and no other. */
  lemma {:induction false} MarksIff(text: string, fence: Fence, i: nat)
    requires i < |text|
    ensures Marks(text, fence)[i] <==> Rewritten(text, fence, i)
    decreases |text|
  {
    hide MarksOfLine, FirstLine, NextFence, Verbatim, TokenAt;
    var line := FirstLine(text);
    if i < |line| {
      OneLineIff(line, fence, i);
    } else {
      MarksIff(text[|line|..], NextFence(line, fence), i - |line|);
    }
  }
}

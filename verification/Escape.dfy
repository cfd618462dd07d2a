/** The control token neutralizer (internal/blockkit/escape.go). A token is a
    Slack mention, broadcast, channel or date escape in angle brackets. */
module Escape {
  import opened Text

  // ---- Control tokens --------------------------------------------------

  function UpperRun(b: string): (n: nat)
    ensures n <= |b|
  {
    if b != "" && ('A' <= b[0] <= 'Z' || '0' <= b[0] <= '9') then 1 + UpperRun(b[1..]) else 0
  }

  /** [A-Z0-9]+(\|[^>]*)? over text that holds no '>'. */
  predicate Identity(b: string) {
    var n := UpperRun(b);
    n > 0 && (n == |b| || b[n] == '|')
  }

  const USER := "@U"
  const TEAM := "!subteam^"
  const CHANNEL := "#C"
  const DATE := "!date^"

  /** Text between '<' and the first '>' that makes a control token. */
  predicate ControlBody(b: string) {
    || (USER <= b && Identity(b[|USER|..]))
    || (TEAM <= b && Identity(b[|TEAM|..]))
    || (CHANNEL <= b && Identity(b[|CHANNEL|..]))
    || (DATE <= b && |b| > |DATE|)
    || b == "!here" || b == "!channel" || b == "!everyone"
  }

  /** Length of the control token at the start of s, 0 when there is none. */
  function ControlLen(s: string): (n: nat)
    ensures n <= |s|
    ensures n > 0 ==> n > 1 && s[0] == '<' && s[n - 1] == '>'
    ensures forall k | 0 <= k < n - 1 :: s[k] != '>'
  {
    if s == "" || s[0] != '<' then 0
    else
      var close := FirstIndex(s, '>');
      if close < |s| && ControlBody(s[1..close]) then close + 1 else 0
  }

  // ---- mrkdwn entities ---------------------------------------------------

  function Entity(c: char): string {
    match c
    case '&' => "&amp;"
    case '<' => "&lt;"
    case '>' => "&gt;"
    case _ => [c]
  }

  function Mrkdwn(s: string, neutralize: bool): (r: string)
    decreases |s|
  {
    if s == "" then ""
    else if neutralize && ControlLen(s) > 0 then
      "&lt;" + s[1..ControlLen(s)] + Mrkdwn(s[ControlLen(s)..], neutralize)
    else Entity(s[0]) + Mrkdwn(s[1..], neutralize)
  }

  method EscapeMrkdwn(value: string, neutralize: bool) returns (out: string)
    ensures out == Mrkdwn(value, neutralize)
  {
    hide ControlLen, Entity, Mrkdwn;
    out := "";
    var index := 0;
    assert value[0..] == value;
    while index < |value|
      invariant index <= |value|
      invariant Mrkdwn(value, neutralize) == out + Mrkdwn(value[index..], neutralize)
    {
      MrkdwnStep(value, index, neutralize);
      var n := ControlLen(value[index..]);
      if neutralize && n > 0 {
        Regroup(out, "&lt;" + value[index + 1..index + n], Mrkdwn(value[index + n..], neutralize));
        out := out + ("&lt;" + value[index + 1..index + n]);
        index := index + n;
        continue;
      }
      Regroup(out, Entity(value[index]), Mrkdwn(value[index + 1..], neutralize));
      out := out + Entity(value[index]);
      index := index + 1;
    }
    MrkdwnEmpty(neutralize);
    assert value[|value|..] == "";
  }

  lemma MrkdwnEmpty(neutralize: bool)
    ensures Mrkdwn("", neutralize) == ""
  {
  }

  lemma MrkdwnStep(value: string, index: nat, neutralize: bool)
    requires index < |value|
    ensures var n := ControlLen(value[index..]);
            Mrkdwn(value[index..], neutralize) ==
            if neutralize && n > 0 then "&lt;" + value[index + 1..index + n] + Mrkdwn(value[index + n..], neutralize)
            else Entity(value[index]) + Mrkdwn(value[index + 1..], neutralize)
  {
    hide ControlLen, Entity;
    SliceSlice(value, index, 1);
    SliceSlice(value, index, ControlLen(value[index..]));
  }

  // ---- Backtick runs and fences ----------------------------------------

  predicate HasClosingRun(s: string, n: nat): (found: bool)
    ensures s == "" ==> !found
    decreases |s|
  {
    if s == "" then false
    else if s[0] != '`' then HasClosingRun(s[1..], n)
    else
      var run := RunLength(s, '`');
      run == n || HasClosingRun(s[run..], n)
  }

  /** Open code span length after a backtick run followed by rest. */
  function NextTicks(rest: string, run: nat, ticks: nat): nat {
    if ticks == 0 then if HasClosingRun(rest, run) then run else 0
    else if run == ticks then 0 else ticks
  }

  datatype Fence = Outside | Inside(marker: char, length: nat)

  function SpaceRun(s: string): nat { RunLength(s, ' ') }

  /** A fence opener after its indent. */
  function FenceHere(s: string): Fence {
    if s == "" || s[0] !in "`~" then Outside
    else
      var length := RunLength(s, s[0]);
      if length < 3 || (s[0] == '`' && '`' in s[length..]) then Outside
      else Inside(s[0], length)
  }

  function ParseFence(line: string): Fence {
    var start := SpaceRun(line);
    if start > 3 then Outside else FenceHere(line[start..])
  }

  predicate ClosesFence(line: string, fence: Fence)
    requires fence.Inside?
  {
    var start := SpaceRun(line);
    start <= 3 && start < |line| && line[start] == fence.marker &&
    var length := RunLength(line[start..], fence.marker);
    length >= fence.length && IsBlank(line[start + length..])
  }

  // ---- Lines -----------------------------------------------------------

  function FirstLine(text: string): (line: string)
    requires text != ""
    ensures line != "" && line <= text
    ensures forall k | 0 <= k < |line| - 1 :: line[k] != '\n'
  {
    var newline := FirstIndex(text, '\n');
    if newline == |text| then text else text[..newline + 1]
  }

  function SplitLines(text: string): (lines: seq<string>)
    decreases |text|
  {
    if text == "" then []
    else [FirstLine(text)] + SplitLines(text[|FirstLine(text)|..])
  }

  function Ending(line: string): (ending: string)
    ensures |ending| <= |line| && line[|line| - |ending|..] == ending
  {
    if |line| >= 2 && line[|line| - 2..] == "\r\n" then "\r\n"
    else if line != "" && line[|line| - 1] == '\n' then "\n"
    else ""
  }

  function Body(line: string): string {
    line[..|line| - |Ending(line)|]
  }

  // ---- Which '<' are rewritten -----------------------------------------

  /** No position of a stretch of length n is rewritten. */
  function Plain(n: nat): (m: seq<bool>) {
    seq(n, i => false)
  }

  /** The positions of a line whose '<' is replaced. */
  function LineMarks(s: string, ticks: nat): (m: seq<bool>)
    ensures |m| == |s|
    decreases |s|
  {
    if s == "" then []
    else if s[0] == '`' then
      var run := RunLength(s, '`');
      Plain(run) + LineMarks(s[run..], NextTicks(s[run..], run, ticks))
    else if ticks == 0 && ControlLen(s) > 0 then
      var n := ControlLen(s);
      [true] + (Plain(n - 1) + LineMarks(s[n..], 0))
    else
      [false] + LineMarks(s[1..], ticks)
  }

  /** Text with every marked character replaced by "&lt;". */
  function Expand(s: string, m: seq<bool>): (r: string)
    requires |s| == |m|
    ensures |r| >= |s|
    ensures s == "" ==> r == ""
  {
    if s == "" then ""
    else (if m[0] then "&lt;" else [s[0]]) + Expand(s[1..], m[1..])
  }

  /** The fence state after one line. */
  function NextFence(line: string, fence: Fence): Fence {
    if fence.Inside? then if ClosesFence(Body(line), fence) then Outside else fence
    else ParseFence(Body(line))
  }

  /** A line that is copied whole: fenced, or opening a fence. */
  predicate Verbatim(line: string, fence: Fence) {
    fence.Inside? || ParseFence(Body(line)).Inside?
  }

  function MarksOfLine(line: string, fence: Fence): (m: seq<bool>)
    ensures |m| == |line|
  {
    if Verbatim(line, fence) then Plain(|line|)
    else LineMarks(Body(line), 0) + Plain(|Ending(line)|)
  }

  function Marks(text: string, fence: Fence): (m: seq<bool>)
    ensures |m| == |text|
    decreases |text|
  {
    if text == "" then []
    else
      var line := FirstLine(text);
      MarksOfLine(line, fence) + Marks(text[|line|..], NextFence(line, fence))
  }

  /** One unfenced line after rewriting, from an open span of ticks backticks. */
  function LineOut(line: string, ticks: nat): (r: string)
    ensures |r| >= |line|
    ensures line == "" ==> r == ""
  {
    Expand(line, LineMarks(line, ticks))
  }

  function TextOut(text: string, fence: Fence): (r: string)
    ensures |r| >= |text|
    ensures text == "" ==> r == ""
  {
    Expand(text, Marks(text, fence))
  }

  function Neutralize(text: string): string {
    TextOut(text, Outside)
  }

  // ---- The scanner as the source runs it -------------------------------

  method HasClosingBacktickRun(line: string, start: nat, length: nat) returns (found: bool)
    requires start <= |line|
    ensures found == HasClosingRun(line[start..], length)
  {
    var index := start;
    while index < |line|
      invariant index <= |line|
      invariant HasClosingRun(line[start..], length) == HasClosingRun(line[index..], length)
    {
      if line[index] != '`' {
        assert line[index..][1..] == line[index + 1..];
        index := index + 1;
      } else {
        var run := CountRun(line, index, '`');
        assert run > 0;
        if run == length { return true; }
        assert line[index..][run..] == line[index + run..];
        index := index + run;
      }
    }
    return false;
  }

  method LeadingFenceIndent(line: string) returns (index: int)
    ensures index == if SpaceRun(line) > 3 then -1 else SpaceRun(line)
  {
    index := 0;
    while index < |line| && line[index] == ' ' && index < 4
      invariant 0 <= index <= |line| && index <= 4
      invariant SpaceRun(line) == index + RunLength(line[index..], ' ')
    {
      assert line[index..][1..] == line[index + 1..];
      index := index + 1;
    }
    if index > 3 { return -1; }
  }

  method ParseFenceOpen(line: string) returns (fence: Fence)
    ensures fence == ParseFence(line)
  {
    var start := LeadingFenceIndent(line);
    if start < 0 || start >= |line| || (line[start] != '`' && line[start] != '~') { return Outside; }
    var length := CountRun(line, start, line[start]);
    if length < 3 { return Outside; }
    assert line[start..][length..] == line[start + length..];
    if line[start] == '`' && '`' in line[start + length..] { return Outside; }
    return Inside(line[start], length);
  }

  method IsFenceClose(line: string, fence: Fence) returns (closes: bool)
    requires fence.Inside?
    ensures closes == ClosesFence(line, fence)
  {
    var start := LeadingFenceIndent(line);
    if start < 0 || start >= |line| || line[start] != fence.marker { return false; }
    var length := CountRun(line, start, fence.marker);
    return length >= fence.length && IsBlank(line[start + length..]);
  }

  method SplitLinesKeepEnd(text: string) returns (lines: seq<string>)
    ensures lines == SplitLines(text)
  {
    hide FirstLine, SplitLines;
    lines := [];
    var start := 0;
    assert text[0..] == text;
    while start < |text|
      invariant start <= |text|
      invariant SplitLines(text) == lines + SplitLines(text[start..])
    {
      SplitLinesStep(text, start);
      var newline := FirstIndex(text[start..], '\n');
      if start + newline == |text| {
        lines := lines + [text[start..]];
        start := |text|;
        break;
      }
      var end := start + newline + 1;
      lines := lines + [text[start..end]];
      start := end;
    }
    SplitLinesEmpty();
    assert text[|text|..] == "";
  }

  /** One unfenced line. The span length travels in and out as in the source. */
  method NeutralizeLine(line: string, ticks: nat) returns (out: string, ticks': nat)
    requires ticks == 0 || HasClosingRun(line, ticks)
    ensures out == LineOut(line, ticks)
    ensures ticks' == 0
  {
    hide LineOut;
    hide HasClosingRun, ControlLen, RunLength;
    out, ticks' := "", ticks;
    var index := 0;
    assert line[0..] == line;
    while index < |line|
      invariant index <= |line|
      invariant ticks' == 0 || HasClosingRun(line[index..], ticks')
      invariant LineOut(line, ticks) == out + LineOut(line[index..], ticks')
    {
      ghost var rest, before := line[index..], out;
      ClosingRunStep(rest, ticks');
      if line[index] == '`' {
        var run := CountRun(line, index, '`');
        LineOutTicks(rest, ticks');
        SliceSlice(line, index, run);
        out := out + line[index..index + run];
        if ticks' == 0 {
          var closing := HasClosingBacktickRun(line, index + run, run);
          if closing { ticks' := run; }
        } else if run == ticks' {
          ticks' := 0;
        }
        index := index + run;
        Regroup(before, rest[..run], LineOut(line[index..], ticks'));
        continue;
      }
      if ticks' == 0 && ControlLen(line[index..]) > 0 {
        var n := ControlLen(line[index..]);
        LineOutToken(rest);
        SliceSlice(line, index, n);
        out := out + "&lt;" + line[index + 1..index + n];
        index := index + n;
        Regroup(before, "&lt;" + rest[1..n], LineOut(line[index..], ticks'));
        continue;
      }
      LineOutChar(rest, ticks');
      SliceSlice(line, index, 1);
      out := out + [line[index]];
      index := index + 1;
      Regroup(before, [rest[0]], LineOut(line[index..], ticks'));
    }
  }

  method NeutralizeUnsafeControls(text: string) returns (out: string)
    ensures out == Neutralize(text)
  {
    hide TextOut, LineOut, FirstLine, Ending, ParseFence, ClosesFence, LineMarks, HasClosingRun, RunLength, FirstIndex;
    out := "";
    var fence, ticks := Outside, 0;
    var lines := SplitLinesKeepEnd(text);
    ghost var rest := text;
    for i := 0 to |lines|
      invariant ticks == 0
      invariant SplitLines(rest) == lines[i..]
      invariant Neutralize(text) == out + TextOut(rest, fence)
    {
      var raw := lines[i];
      TextOutLine(rest, fence);
      Regroup(out, OutOfLine(raw, fence), TextOut(rest[|raw|..], NextFence(raw, fence)));
      assert SplitLines(rest[|raw|..]) == lines[i..][1..];
      rest := rest[|raw|..];
      var line, ending := Body(raw), Ending(raw);
      if fence.Inside? {
        out := out + raw;
        var closes := IsFenceClose(line, fence);
        if closes { fence := Outside; }
        continue;
      }
      if ticks == 0 {
        var spec := ParseFenceOpen(line);
        if spec.Inside? {
          out := out + raw;
          fence := spec;
          continue;
        }
      }
      var rewritten;
      rewritten, ticks := NeutralizeLine(line, ticks);
      Regroup(out, rewritten, ending);
      out := out + rewritten + ending;
    }
    assert rest == "";
  }

  lemma ClosingRunStep(s: string, n: nat)
    requires s != ""
    ensures HasClosingRun(s, n) ==
            if s[0] != '`' then HasClosingRun(s[1..], n)
            else RunLength(s, '`') == n || HasClosingRun(s[RunLength(s, '`')..], n)
  {
  }

  lemma SplitLinesEmpty()
    ensures SplitLines("") == []
  {
  }

  lemma SplitLinesStep(text: string, start: nat)
    requires start < |text|
    ensures var newline := start + FirstIndex(text[start..], '\n');
            SplitLines(text[start..]) ==
            if newline == |text| then [text[start..]] + SplitLines(text[|text|..])
            else [text[start..newline + 1]] + SplitLines(text[newline + 1..])
  {
    hide FirstIndex;
    var rest := text[start..];
    var line := FirstLine(rest);
    SliceSlice(text, start, |line|);
    assert rest[..|line|] == line;
  }

  lemma SliceSlice(s: string, i: nat, n: nat)
    requires i + n <= |s|
    ensures s[i..][n..] == s[i + n..] && s[i..][..n] == s[i..i + n]
    ensures n > 0 ==> s[i..][1..n] == s[i + 1..i + n]
  {
  }

  lemma Regroup(a: string, b: string, c: string)
    ensures a + (b + c) == (a + b) + c
  {
  }

  // ---- Expansion -------------------------------------------------------

  lemma {:induction false} ExpandAppend(a: string, b: string, ma: seq<bool>, mb: seq<bool>)
    requires |a| == |ma| && |b| == |mb|
    ensures Expand(a + b, ma + mb) == Expand(a, ma) + Expand(b, mb)
  {
    if a == "" {
      assert a + b == b && ma + mb == mb;
    } else {
      ExpandAppend(a[1..], b, ma[1..], mb);
      Regroup(if ma[0] then "&lt;" else [a[0]], Expand(a[1..], ma[1..]), Expand(b, mb));
      assert (a + b)[1..] == a[1..] + b && (ma + mb)[1..] == ma[1..] + mb;
    }
  }

  lemma {:induction false} ExpandPlain(s: string)
    ensures Expand(s, Plain(|s|)) == s
  {
    if s != "" {
      assert Plain(|s|)[1..] == Plain(|s| - 1);
      ExpandPlain(s[1..]);
    }
  }

  lemma LineOutTicks(s: string, ticks: nat)
    requires s != "" && s[0] == '`'
    ensures var run := RunLength(s, '`');
            run > 0 && LineOut(s, ticks) == s[..run] + LineOut(s[run..], NextTicks(s[run..], run, ticks))
  {
    hide Expand, NextTicks, ControlLen;
    var run := RunLength(s, '`');
    ExpandAppend(s[..run], s[run..], Plain(run), LineMarks(s[run..], NextTicks(s[run..], run, ticks)));
    ExpandPlain(s[..run]);
    assert s[..run] + s[run..] == s;
  }

  lemma ExpandCons(s: string, m: seq<bool>)
    requires |s| == 1 + |m|
    ensures Expand(s, [true] + m) == "&lt;" + Expand(s[1..], m)
  {
    assert ([true] + m)[1..] == m;
  }

  lemma ExpandTail(s: string, n: nat, m: seq<bool>)
    requires 0 < n <= |s| && |m| == |s| - n
    ensures Expand(s[1..], Plain(n - 1) + m) == s[1..n] + Expand(s[n..], m)
  {
    hide Expand;
    ExpandAppend(s[1..n], s[n..], Plain(n - 1), m);
    ExpandPlain(s[1..n]);
    assert s[1..] == s[1..n] + s[n..];
  }

  lemma LineOutToken(s: string)
    requires ControlLen(s) > 0
    ensures LineOut(s, 0) == "&lt;" + s[1..ControlLen(s)] + LineOut(s[ControlLen(s)..], 0)
  {
    hide ControlLen, RunLength, HasClosingRun, Expand;
    var n := ControlLen(s);
    var m := LineMarks(s[n..], 0);
    ExpandCons(s, Plain(n - 1) + m);
    ExpandTail(s, n, m);
    Regroup("&lt;", s[1..n], Expand(s[n..], m));
  }

  lemma LineOutChar(s: string, ticks: nat)
    requires s != "" && s[0] != '`' && (ticks == 0 ==> ControlLen(s) == 0)
    ensures LineOut(s, ticks) == [s[0]] + LineOut(s[1..], ticks)
  {
    assert LineMarks(s, ticks)[1..] == LineMarks(s[1..], ticks);
  }

  /** What one line contributes. */
  function OutOfLine(line: string, fence: Fence): (r: string)
    ensures |r| >= |line|
  {
    if Verbatim(line, fence) then line else LineOut(Body(line), 0) + Ending(line)
  }

  lemma OutOfLineIsExpand(line: string, fence: Fence)
    ensures OutOfLine(line, fence) == Expand(line, MarksOfLine(line, fence))
  {
    hide LineMarks, ParseFence, ClosesFence, Ending, Expand;
    if Verbatim(line, fence) {
      ExpandPlain(line);
    } else {
      assert line == Body(line) + Ending(line);
      ExpandAppend(Body(line), Ending(line), LineMarks(Body(line), 0), Plain(|Ending(line)|));
      ExpandPlain(Ending(line));
    }
  }

  lemma TextOutLine(text: string, fence: Fence)
    requires text != ""
    ensures var line := FirstLine(text);
            TextOut(text, fence) == OutOfLine(line, fence) + TextOut(text[|line|..], NextFence(line, fence))
  {
    hide FirstLine, MarksOfLine, NextFence, Expand, OutOfLine;
    var line := FirstLine(text);
    var tail := text[|line|..];
    assert text == line + tail;
    ExpandAppend(line, tail, MarksOfLine(line, fence), Marks(tail, NextFence(line, fence)));
    OutOfLineIsExpand(line, fence);
  }
}

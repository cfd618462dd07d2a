/** The fences of section 4.5 of CommonMark 0.31, and how far the escaper follows
    them (internal/blockkit/escape.go). */
module Fences {
  import opened Text
  import opened Escape

  // ---- The rules of the section ----------------------------------------

  /** At most three spaces, then the whole of a run of markers. */
  predicate FencedAt(line: string, indent: nat, marker: char, run: nat) {
    && indent <= 3 && indent + run <= |line|
    && (forall k | 0 <= k < indent :: line[k] == ' ')
    && (forall k | indent <= k < indent + run :: line[k] == marker)
    && (indent + run < |line| ==> line[indent + run] != marker)
  }

  /** A line that begins a fenced code block. */
  ghost predicate OpensBlock(line: string, marker: char, length: nat) {
    && (marker == '`' || marker == '~') && length >= 3
    && exists indent: nat :: FencedAt(line, indent, marker, length)
         && (marker == '`' ==> '`' !in line[indent + length..])
  }

  predicate SpacesAndTabs(s: string) {
    forall k | 0 <= k < |s| :: s[k] == ' ' || s[k] == '\t'
  }

  /** A line that ends the block begun by length markers. */
  ghost predicate EndsBlock(line: string, marker: char, length: nat) {
    exists indent: nat, run: nat ::
      FencedAt(line, indent, marker, run) && run >= length && SpacesAndTabs(line[indent + run..])
  }

  /** What is open after a line, by the section. */
  ghost predicate Steps(line: string, before: Fence, after: Fence) {
    match before
    case Inside(marker, length) => after == if EndsBlock(line, marker, length) then Outside else before
    case Outside =>
      match after
      case Inside(marker, length) => OpensBlock(line, marker, length)
      case Outside => forall marker, length: nat :: !OpensBlock(line, marker, length)
  }

  // ---- Openers ---------------------------------------------------------

  lemma {:induction false} RunIs(s: string, c: char, n: nat)
    requires n <= |s| && (forall k | 0 <= k < n :: s[k] == c) && (n < |s| ==> s[n] != c)
    ensures RunLength(s, c) == n
  {
    if n > 0 {
      RunIs(s[1..], c, n - 1);
    }
  }

  /** The indent and the run are read off the line. */
  lemma FencedIff(line: string, indent: nat, marker: char, run: nat)
    requires marker != ' ' && run > 0 && indent <= |line|
    ensures FencedAt(line, indent, marker, run) <==>
            indent == SpaceRun(line) <= 3 && run == RunLength(line[indent..], marker)
  {
    if FencedAt(line, indent, marker, run) {
      assert line[indent] == marker;
      RunIs(line, ' ', indent);
      RunIs(line[indent..], marker, run);
    }
    if indent == SpaceRun(line) <= 3 && run == RunLength(line[indent..], marker) {
      RunsAreFenced(line, marker);
    }
  }

  lemma RunsAreFenced(line: string, marker: char)
    requires SpaceRun(line) <= 3
    ensures FencedAt(line, SpaceRun(line), marker, RunLength(line[SpaceRun(line)..], marker))
  {
    var start := SpaceRun(line);
    var rest := line[start..];
    var run := RunLength(rest, marker);
    assert forall k | start <= k < start + run :: line[k] == rest[k - start];
  }

  /** The escaper opens a fence exactly where the section begins a block. */
  lemma OpenerIff(line: string, marker: char, length: nat)
    ensures ParseFence(line) == Inside(marker, length) <==> OpensBlock(line, marker, length)
  {
    var start := SpaceRun(line);
    if ParseFence(line) == Inside(marker, length) {
      RunsAreFenced(line, marker);
      assert line[start..][length..] == line[start + length..];
    }
    if OpensBlock(line, marker, length) {
      var indent: nat :| FencedAt(line, indent, marker, length) && (marker == '`' ==> '`' !in line[indent + length..]);
      FencedIff(line, indent, marker, length);
      assert line[start..][length..] == line[start + length..];
      assert line[start..][0] == marker;
    }
  }

  // ---- Closers ---------------------------------------------------------

  /** A fence that some line opened. */
  predicate Opened(fence: Fence) {
    fence.Inside? ==> (fence.marker == '`' || fence.marker == '~') && fence.length >= 3
  }

  lemma ParsedIsOpened(line: string)
    ensures Opened(ParseFence(line))
  {
  }

  /** Blanks of which one is neither a space nor a tab. */
  predicate StrayBlanks(s: string) {
    IsBlank(s) && !SpacesAndTabs(s)
  }

  /** A fence long enough, followed by such blanks. */
  ghost predicate StrayCloser(line: string, fence: Fence)
    requires fence.Inside?
  {
    exists indent: nat, run: nat ::
      FencedAt(line, indent, fence.marker, run) && run >= fence.length && StrayBlanks(line[indent + run..])
  }

  lemma BlanksAreBlank(s: string)
    requires SpacesAndTabs(s)
    ensures IsBlank(s)
  {
  }

  lemma EndsAt(line: string, fence: Fence)
    requires fence.Inside? && Opened(fence)
    ensures var start := SpaceRun(line);
            EndsBlock(line, fence.marker, fence.length) <==>
            start <= 3 && RunLength(line[start..], fence.marker) >= fence.length
            && SpacesAndTabs(line[start + RunLength(line[start..], fence.marker)..])
  {
    hide SpacesAndTabs, RunLength;
    var start := SpaceRun(line);
    var run := RunLength(line[start..], fence.marker);
    if EndsBlock(line, fence.marker, fence.length) {
      var i: nat, n: nat :| FencedAt(line, i, fence.marker, n) && n >= fence.length && SpacesAndTabs(line[i + n..]);
      FencedIff(line, i, fence.marker, n);
    }
    if start <= 3 && run >= fence.length && SpacesAndTabs(line[start + run..]) {
      FencedIff(line, start, fence.marker, run);
      assert FencedAt(line, start, fence.marker, run);
    }
  }

  lemma StrayAt(line: string, fence: Fence)
    requires fence.Inside? && Opened(fence)
    ensures var start := SpaceRun(line);
            StrayCloser(line, fence) <==>
            start <= 3 && RunLength(line[start..], fence.marker) >= fence.length
            && StrayBlanks(line[start + RunLength(line[start..], fence.marker)..])
  {
    hide StrayBlanks, RunLength;
    var start := SpaceRun(line);
    var run := RunLength(line[start..], fence.marker);
    if StrayCloser(line, fence) {
      var i: nat, n: nat :| FencedAt(line, i, fence.marker, n) && n >= fence.length && StrayBlanks(line[i + n..]);
      FencedIff(line, i, fence.marker, n);
    }
    if start <= 3 && run >= fence.length && StrayBlanks(line[start + run..]) {
      FencedIff(line, start, fence.marker, run);
      assert FencedAt(line, start, fence.marker, run);
    }
  }

  lemma ClosesAt(line: string, fence: Fence)
    requires fence.Inside? && Opened(fence)
    ensures var start := SpaceRun(line);
            ClosesFence(line, fence) <==>
            start <= 3 && RunLength(line[start..], fence.marker) >= fence.length
            && IsBlank(line[start + RunLength(line[start..], fence.marker)..])
  {
    var start := SpaceRun(line);
    if start < |line| && line[start] != fence.marker {
      assert line[start..][0] == line[start];
    }
  }

  /** Every closer of the section closes. The escaper also closes on stray blanks,
      and there alone the two differ. */
  lemma CloserIff(line: string, fence: Fence)
    requires fence.Inside? && Opened(fence)
    ensures EndsBlock(line, fence.marker, fence.length) ==> ClosesFence(line, fence)
    ensures (ClosesFence(line, fence) <==> EndsBlock(line, fence.marker, fence.length)) <==> !StrayCloser(line, fence)
  {
    hide EndsBlock, StrayCloser, ClosesFence;
    EndsAt(line, fence);
    StrayAt(line, fence);
    ClosesAt(line, fence);
    var start := SpaceRun(line);
    var rest := line[start + RunLength(line[start..], fence.marker)..];
    if SpacesAndTabs(rest) { BlanksAreBlank(rest); }
  }

  // ---- Whole texts -----------------------------------------------------

  /** The escaper's state follows the section over all the lines. */
  ghost predicate Follows(lines: seq<string>, fence: Fence) {
    lines == [] || (Steps(Body(lines[0]), fence, NextFence(lines[0], fence))
                    && Follows(lines[1..], NextFence(lines[0], fence)))
  }

  /** Some line closes the fence open there with stray blanks. */
  ghost predicate Strays(lines: seq<string>, fence: Fence) {
    lines != [] && ((fence.Inside? && StrayCloser(Body(lines[0]), fence))
                    || Strays(lines[1..], NextFence(lines[0], fence)))
  }

  lemma StepIff(line: string, fence: Fence)
    requires Opened(fence)
    ensures Opened(NextFence(line, fence))
    ensures Steps(Body(line), fence, NextFence(line, fence)) <==> !(fence.Inside? && StrayCloser(Body(line), fence))
  {
    hide OpensBlock, EndsBlock, StrayCloser, ClosesFence, ParseFence;
    var body := Body(line);
    if fence.Inside? {
      CloserIff(body, fence);
    } else {
      ParsedIsOpened(body);
      forall marker, length: nat
        ensures ParseFence(body) == Inside(marker, length) <==> OpensBlock(body, marker, length)
      {
        OpenerIff(body, marker, length);
      }
    }
  }

  /** The fences of a text are those of the section exactly when none of its
      closers is followed by a blank other than a space or a tab. */
  lemma {:induction false} FollowsIff(lines: seq<string>, fence: Fence)
    requires Opened(fence)
    ensures Follows(lines, fence) <==> !Strays(lines, fence)
  {
    hide Steps, StrayCloser, NextFence, Opened;
    if lines != [] {
      StepIff(lines[0], fence);
      FollowsIff(lines[1..], NextFence(lines[0], fence));
    }
  }

  lemma TextFollowsIff(text: string)
    ensures Follows(SplitLines(text), Outside) <==> !Strays(SplitLines(text), Outside)
  {
    FollowsIff(SplitLines(text), Outside);
  }

  // ---- A line that closes too early ------------------------------------

  /** Three backticks and a no-break space or a form feed: text to the section, a
      closing fence to the escaper. */
  lemma ClosesTooEarly(blank: char)
    requires blank == '\U{00A0}' || blank == '\U{000C}'
    ensures ClosesFence("```" + [blank], Inside('`', 3)) && !EndsBlock("```" + [blank], '`', 3)
  {
    var line := "```" + [blank];
    RunIs(line, ' ', 0);
    RunIs(line, '`', 3);
    assert line[0..] == line && line[3..] == [blank];
    assert IsSpace(blank);
    EndsAt(line, Inside('`', 3));
    ClosesAt(line, Inside('`', 3));
    assert line[3..][0] == blank;
  }
}

/** What the neutralizer guarantees: code is copied, only the '<' of a control
    token changes, and exactly when a second pass finds nothing to do. */
module EscapeLaws {
  import opened Text
  import opened Escape

  /** m marks only '<' characters of s. */
  predicate Marked(s: string, m: seq<bool>) {
    |m| == |s| && forall i | 0 <= i < |s| && m[i] :: s[i] == '<'
  }

  // ---- Only the '<' of a control token is replaced ----------------------

  lemma FirstIndexIs(s: string, c: char, n: nat)
    requires n < |s| && s[n] == c && forall k | 0 <= k < n :: s[k] != c
    ensures FirstIndex(s, c) == n
  {
  }

  lemma ControlLenExtends(a: string, b: string)
    requires ControlLen(a) > 0
    ensures ControlLen(a + b) == ControlLen(a)
  {
    hide ControlBody;
    var n := ControlLen(a);
    assert ControlLen(a) == FirstIndex(a, '>') + 1;
    FirstIndexIs(a + b, '>', n - 1);
    assert (a + b)[1..n - 1] == a[1..n - 1];
  }

  lemma {:induction false} LineMarksAreTokens(s: string, ticks: nat, i: nat)
    requires i < |s| && LineMarks(s, ticks)[i]
    ensures ControlLen(s[i..]) > 0
    decreases |s|
  {
    hide ControlLen, HasClosingRun;
    if s[0] == '`' {
      var run := RunLength(s, '`');
      assert s[i..] == s[run..][i - run..];
      LineMarksAreTokens(s[run..], NextTicks(s[run..], run, ticks), i - run);
    } else if ticks == 0 && ControlLen(s) > 0 {
      var n := ControlLen(s);
      if i == 0 {
        assert s[i..] == s;
      } else {
        assert s[i..] == s[n..][i - n..];
        LineMarksAreTokens(s[n..], 0, i - n);
      }
    } else {
      assert s[i..] == s[1..][i - 1..];
      LineMarksAreTokens(s[1..], ticks, i - 1);
    }
  }

  lemma LineTokens(line: string, fence: Fence, i: nat)
    requires i < |line| && MarksOfLine(line, fence)[i]
    ensures ControlLen(line[i..]) > 0
  {
    hide ControlLen, LineMarks, Ending, ParseFence, ClosesFence;
    var body := Body(line);
    assert i < |body|;
    LineMarksAreTokens(body, 0, i);
    assert line[i..] == body[i..] + Ending(line);
    ControlLenExtends(body[i..], Ending(line));
  }

  /** Every replaced character starts a control token on an unfenced line. */
  lemma {:induction false} MarksAreTokens(text: string, fence: Fence, i: nat)
    requires i < |text| && Marks(text, fence)[i]
    ensures ControlLen(text[i..]) > 0
    decreases |text|
  {
    hide ControlLen, MarksOfLine, FirstLine, NextFence;
    var line := FirstLine(text);
    var rest := text[|line|..];
    if i >= |line| {
      MarksAreTokens(rest, NextFence(line, fence), i - |line|);
      assert text[i..] == rest[i - |line|..];
    } else {
      LineTokens(line, fence, i);
      assert text[i..] == line[i..] + rest;
      ControlLenExtends(line[i..], rest);
    }
  }

  lemma MarksAreMarked(text: string, fence: Fence)
    ensures Marked(text, Marks(text, fence))
  {
    forall i | 0 <= i < |text| && Marks(text, fence)[i]
      ensures text[i] == '<'
    {
      MarksAreTokens(text, fence, i);
    }
  }

  lemma LineMarksAreMarked(s: string)
    ensures Marked(s, LineMarks(s, 0))
  {
    forall i | 0 <= i < |s| && LineMarks(s, 0)[i]
      ensures s[i] == '<'
    {
      LineMarksAreTokens(s, 0, i);
    }
  }

  // ---- Code spans (CommonMark 0.31, section 6.1, within one line) -------

  function Ticks(n: nat): (s: string) {
    seq(n, i => '`')
  }

  predicate Bounded(c: string) {
    c != "" && c[0] != '`' && c[|c| - 1] != '`'
  }

  lemma {:induction false} RunOfTicks(n: nat, rest: string)
    requires rest == "" || rest[0] != '`'
    ensures RunLength(Ticks(n) + rest, '`') == n
  {
    var s := Ticks(n) + rest;
    if n == 0 {
      assert s == rest;
    } else {
      RunOfTicks(n - 1, rest);
      assert s[1..] == Ticks(n - 1) + rest;
    }
  }

  /** One scanning step inside a span whose closing run lies in rest. */
  lemma SpanStep(c: string, n: nat, rest: string, k: nat)
    requires n > 0 && c != "" && !HasClosingRun(c, n)
    requires if c[0] == '`' then k == RunLength(c, '`') < |c| else k == 1
    ensures 0 < k <= |c| && !HasClosingRun(c[k..], n)
    ensures HasClosingRun(c + rest, n) == HasClosingRun((c + rest)[k..], n)
    ensures LineOut(c + rest, n) == c[..k] + LineOut((c + rest)[k..], n)
  {
    hide LineOut, ControlLen, HasClosingRun;
    var s := c + rest;
    ClosingRunStep(c, n);
    ClosingRunStep(s, n);
    assert s[..k] == c[..k];
    if c[0] == '`' {
      RunPrefix(c, rest);
      LineOutTicks(s, n);
    } else {
      LineOutChar(s, n);
    }
  }

  /** Inside a span, text up to the closing run is scanned without change. */
  lemma {:induction false} SpanInterior(c: string, n: nat, b: string)
    requires n > 0 && (c == "" || c[|c| - 1] != '`')
    requires !HasClosingRun(c, n) && (b == "" || b[0] != '`')
    ensures HasClosingRun(c + Ticks(n) + b, n)
    ensures LineOut(c + Ticks(n) + b, n) == c + Ticks(n) + LineOut(b, 0)
    decreases |c|
  {
    hide LineOut, ControlLen, HasClosingRun, RunLength;
    var s := c + Ticks(n) + b;
    if c == "" {
      assert s == Ticks(n) + b && s[n..] == b && s[..n] == Ticks(n);
      RunOfTicks(n, b);
      LineOutTicks(s, n);
      ClosingRunStep(s, n);
      assert c + Ticks(n) == Ticks(n);
    } else {
      var k := if c[0] == '`' then RunLength(c, '`') else 1;
      SpanStep(c, n, Ticks(n) + b, k);
      assert s == c + (Ticks(n) + b);
      assert s[k..] == c[k..] + Ticks(n) + b && s[..k] == c[..k];
      SpanInterior(c[k..], n, b);
      assert c == c[..k] + c[k..];
      assert c[..k] + (c[k..] + Ticks(n) + LineOut(b, 0)) == c + Ticks(n) + LineOut(b, 0);
    }
  }

  lemma {:induction false} RunPrefix(c: string, rest: string)
    requires RunLength(c, '`') < |c|
    ensures RunLength(c + rest, '`') == RunLength(c, '`')
  {
    if c[0] == '`' {
      RunPrefix(c[1..], rest);
      assert (c + rest)[1..] == c[1..] + rest;
    }
  }

  /** A code span is copied, and scanning resumes outside code after it. */
  lemma CodeSpanCopied(c: string, n: nat, b: string)
    requires n > 0 && Bounded(c) && !HasClosingRun(c, n) && (b == "" || b[0] != '`')
    ensures LineOut(Ticks(n) + c + Ticks(n) + b, 0) == Ticks(n) + c + Ticks(n) + LineOut(b, 0)
  {
    hide LineOut, HasClosingRun;
    var rest := c + Ticks(n) + b;
    var s := Ticks(n) + rest;
    RunOfTicks(n, rest);
    assert s[0] == '`' && s[n..] == rest && s[..n] == Ticks(n);
    LineOutTicks(s, 0);
    SpanInterior(c, n, b);
    assert s == Ticks(n) + c + Ticks(n) + b;
    assert Ticks(n) + (c + Ticks(n) + LineOut(b, 0)) == Ticks(n) + c + Ticks(n) + LineOut(b, 0);
  }

  /** A backtick run with no closing run of its length is literal text. */
  lemma UnmatchedRunIsLiteral(n: nat, b: string)
    requires n > 0 && (b == "" || b[0] != '`') && !HasClosingRun(b, n)
    ensures LineOut(Ticks(n) + b, 0) == Ticks(n) + LineOut(b, 0)
  {
    hide LineOut;
    var s := Ticks(n) + b;
    RunOfTicks(n, b);
    assert s[0] == '`' && s[n..] == b && s[..n] == Ticks(n);
    LineOutTicks(s, 0);
  }

  // ---- Scanning the rewritten text --------------------------------------

  lemma {:induction false} ExpandRun(s: string, m: seq<bool>, c: char)
    requires Marked(s, m) && c != '<' && c != '&'
    ensures var n := RunLength(s, c);
            RunLength(Expand(s, m), c) == n && Expand(s, m)[n..] == Expand(s[n..], m[n..])
  {
    if s != "" && s[0] == c {
      ExpandRun(s[1..], m[1..], c);
      var n := RunLength(s[1..], c);
      assert Expand(s, m)[1..] == Expand(s[1..], m[1..]);
      assert s[1 + n..] == s[1..][n..] && m[1 + n..] == m[1..][n..];
      assert Expand(s, m)[1 + n..] == Expand(s[1..], m[1..])[n..];
    } else {
      assert s[0..] == s && m[0..] == m;
    }
  }

  lemma {:induction false} ExpandUpperRun(s: string, m: seq<bool>)
    requires Marked(s, m)
    ensures var n := UpperRun(s);
            UpperRun(Expand(s, m)) == n && Expand(s, m)[n..] == Expand(s[n..], m[n..])
  {
    if s != "" && UpperRun(s) > 0 {
      ExpandUpperRun(s[1..], m[1..]);
      var n := UpperRun(s[1..]);
      assert Expand(s, m)[1..] == Expand(s[1..], m[1..]);
      assert s[1 + n..] == s[1..][n..] && m[1 + n..] == m[1..][n..];
      assert Expand(s, m)[1 + n..] == Expand(s[1..], m[1..])[n..];
    } else {
      assert s[0..] == s && m[0..] == m;
    }
  }

  lemma ExpandIdentity(s: string, m: seq<bool>)
    requires Marked(s, m)
    ensures Identity(Expand(s, m)) == Identity(s)
  {
    ExpandUpperRun(s, m);
    var n := UpperRun(s);
    var e := Expand(s, m);
    if n < |s| {
      assert e[n] == e[n..][0];
      assert Expand(s[n..], m[n..])[0] == if m[n] then '&' else s[n];
    }
  }

  lemma {:induction false} ExpandPrefix(p: string, s: string, m: seq<bool>)
    requires Marked(s, m) && '<' !in p && '&' !in p
    ensures (p <= Expand(s, m)) == (p <= s)
    ensures p <= s ==> Expand(s, m)[|p|..] == Expand(s[|p|..], m[|p|..])
  {
    var e := Expand(s, m);
    if p == "" {
      assert e[0..] == e && s[0..] == s && m[0..] == m;
    } else if s == "" {
    } else if s[0] == p[0] {
      ExpandPrefix(p[1..], s[1..], m[1..]);
      assert e[1..] == Expand(s[1..], m[1..]);
      assert (p <= s) == (p[1..] <= s[1..]) by { PrefixTail(p, s); }
      assert (p <= e) == (p[1..] <= e[1..]) by { PrefixTail(p, e); }
      if p <= s {
        assert s[|p|..] == s[1..][|p| - 1..] && m[|p|..] == m[1..][|p| - 1..] && e[|p|..] == e[1..][|p| - 1..];
      }
    } else {
      assert e[0] == s[0] || e[0] == '&';
    }
  }

  lemma PrefixTail(p: string, s: string)
    requires p != "" && s != "" && p[0] == s[0]
    ensures (p <= s) == (p[1..] <= s[1..])
  {
    if p[1..] <= s[1..] {
      assert p == [p[0]] + p[1..] && s == [s[0]] + s[1..];
    }
  }

  lemma ExpandEquals(p: string, s: string, m: seq<bool>)
    requires Marked(s, m) && '<' !in p && '&' !in p
    ensures (Expand(s, m) == p) == (s == p)
  {
    ExpandPrefix(p, s, m);
    if p <= s {
      assert s == p + s[|p|..];
      assert Expand(s, m) == p + Expand(s[|p|..], m[|p|..]);
    }
  }

  lemma ExpandControlBody(s: string, m: seq<bool>)
    requires Marked(s, m)
    ensures ControlBody(Expand(s, m)) == ControlBody(s)
  {
    hide Expand, Identity;
    ExpandPrefix(USER, s, m);
    ExpandPrefix(TEAM, s, m);
    ExpandPrefix(CHANNEL, s, m);
    ExpandPrefix(DATE, s, m);
    if USER <= s { ExpandIdentity(s[|USER|..], m[|USER|..]); }
    if TEAM <= s { ExpandIdentity(s[|TEAM|..], m[|TEAM|..]); }
    if CHANNEL <= s { ExpandIdentity(s[|CHANNEL|..], m[|CHANNEL|..]); }
    ExpandEquals(DATE, s, m);
    ExpandEquals("!here", s, m);
    ExpandEquals("!channel", s, m);
    ExpandEquals("!everyone", s, m);
  }

  lemma InAppend(a: string, b: string, c: char)
    ensures (c in a + b) == (c in a || c in b)
  {
  }

  lemma {:induction false} NoCharInExpand(s: string, m: seq<bool>, c: char)
    requires Marked(s, m) && c !in "<&lt;"
    ensures (c in Expand(s, m)) == (c in s)
  {
    if s != "" {
      NoCharInExpand(s[1..], m[1..], c);
      var head := if m[0] then "&lt;" else [s[0]];
      InAppend(head, Expand(s[1..], m[1..]), c);
      assert c in head <==> c == s[0];
      InAppend([s[0]], s[1..], c);
      assert s == [s[0]] + s[1..];
    }
  }

  lemma ExpandAt(s: string, m: seq<bool>, i: nat)
    requires |m| == |s| && i <= |s|
    ensures Expand(s, m) == Expand(s[..i], m[..i]) + Expand(s[i..], m[i..])
  {
    hide Expand;
    ExpandAppend(s[..i], s[i..], m[..i], m[i..]);
    assert s[..i] + s[i..] == s && m[..i] + m[i..] == m;
  }

  lemma ExpandHead(s: string, m: seq<bool>)
    requires s != "" && Marked(s, m) && (m[0] ==> s[0] == '>')
    ensures Expand(s, m) == [s[0]] + Expand(s[1..], m[1..])
  {
  }

  lemma ExpandAround(s: string, m: seq<bool>, g: nat)
    requires Marked(s, m) && 0 < g < |s| && !m[0] && s[g] == '>'
    ensures Expand(s, m) == ([s[0]] + Expand(s[1..g], m[1..g])) + ([s[g]] + Expand(s[g + 1..], m[g + 1..]))
  {
    hide Expand;
    ExpandAt(s, m, g);
    ExpandHead(s[..g], m[..g]);
    ExpandHead(s[g..], m[g..]);
    assert s[..g][1..] == s[1..g] && m[..g][1..] == m[1..g];
    assert s[g..][1..] == s[g + 1..] && m[g..][1..] == m[g + 1..];
  }

  /** The text up to the first '>' of an unreplaced '<', after rewriting. */
  lemma ExpandToClose(s: string, m: seq<bool>, g: nat)
    requires Marked(s, m) && 0 < g < |s| && !m[0] && s[0] == '<' && g == FirstIndex(s, '>')
    ensures var e, front := Expand(s, m), [s[0]] + Expand(s[1..g], m[1..g]);
            FirstIndex(e, '>') == |front| < |e| && e[1..|front|] == Expand(s[1..g], m[1..g])
  {
    hide FirstIndex, Expand;
    var e, inner := Expand(s, m), Expand(s[1..g], m[1..g]);
    ExpandAround(s, m, g);
    NoCharInExpand(s[1..g], m[1..g], '>');
    assert '>' !in s[1..g] by {
      assert forall k | 0 <= k < g - 1 :: s[1..g][k] == s[k + 1];
    }
    forall k | 0 <= k < 1 + |inner|
      ensures e[k] != '>'
    {
      assert k == 0 ==> e[k] == s[0];
      assert k > 0 ==> e[k] == inner[k - 1];
    }
    FirstIndexIs(e, '>', 1 + |inner|);
  }

  /** An unreplaced '<' starts a token in the result iff it did in the original. */
  lemma ExpandControl(s: string, m: seq<bool>)
    requires s != "" && Marked(s, m) && !m[0]
    ensures (ControlLen(Expand(s, m)) > 0) == (ControlLen(s) > 0)
  {
    hide ControlBody, FirstIndex;
    assert Expand(s, m)[0] == s[0];
    var g := FirstIndex(s, '>');
    if s[0] == '<' && g < |s| {
      ExpandToClose(s, m, g);
      ExpandControlBody(s[1..g], m[1..g]);
    } else if s[0] == '<' {
      NoCharInExpand(s, m, '>');
    }
  }

  // ---- The second pass --------------------------------------------------

  /** A scan of s from an open span of ticks meets no control token outside code. */
  predicate Clean(s: string, ticks: nat)
    decreases |s|
  {
    if s == "" then true
    else if s[0] == '`' then
      var run := RunLength(s, '`');
      Clean(s[run..], NextTicks(s[run..], run, ticks))
    else (ticks == 0 ==> ControlLen(s) == 0) && Clean(s[1..], ticks)
  }

  /** A scan of the original line that skips nothing: every control token start
      it sees outside code is one of the marked positions. Checked on the input. */
  predicate Covered(s: string, m: seq<bool>, ticks: nat)
    requires |m| == |s|
    decreases |s|
  {
    if s == "" then true
    else if s[0] == '`' then
      var run := RunLength(s, '`');
      Covered(s[run..], m[run..], NextTicks(s[run..], run, ticks))
    else (ticks == 0 && ControlLen(s) > 0 ==> m[0]) && Covered(s[1..], m[1..], ticks)
  }

  /** A scan changes nothing exactly when it meets no control token outside code. */
  lemma {:induction false} UnchangedIffClean(s: string, ticks: nat)
    ensures LineOut(s, ticks) == s <==> Clean(s, ticks)
    decreases |s|
  {
    hide LineOut, ControlLen, HasClosingRun, RunLength;
    if s != "" {
      if s[0] == '`' {
        var run := RunLength(s, '`');
        LineOutTicks(s, ticks);
        UnchangedIffClean(s[run..], NextTicks(s[run..], run, ticks));
        SamePrefix(s[..run], LineOut(s[run..], NextTicks(s[run..], run, ticks)), s, run);
      } else if ticks == 0 && ControlLen(s) > 0 {
        LineOutToken(s);
      } else {
        LineOutChar(s, ticks);
        UnchangedIffClean(s[1..], ticks);
        SamePrefix([s[0]], LineOut(s[1..], ticks), s, 1);
      }
    }
  }

  lemma SamePrefix(a: string, b: string, s: string, n: nat)
    requires n <= |s| && a == s[..n]
    ensures a + b == s <==> b == s[n..]
  {
    assert (a + b)[n..] == b;
    assert s == s[..n] + s[n..];
  }

  lemma {:induction false} ExpandClosing(s: string, m: seq<bool>, n: nat)
    requires Marked(s, m)
    ensures HasClosingRun(Expand(s, m), n) == HasClosingRun(s, n)
    decreases |s|
  {
    hide HasClosingRun, RunLength;
    var e := Expand(s, m);
    if s != "" {
      ClosingRunStep(s, n);
      ClosingRunStep(e, n);
      if s[0] == '`' {
        ExpandRun(s, m, '`');
        var run := RunLength(s, '`');
        ExpandClosing(s[run..], m[run..], n);
      } else {
        ExpandClosing(s[1..], m[1..], n);
        if m[0] {
          SkipEntity(Expand(s[1..], m[1..]), n);
        } else {
          assert e[1..] == Expand(s[1..], m[1..]);
        }
      }
    } else {
      assert e == s;
    }
  }

  lemma SkipEntity(rest: string, n: nat)
    ensures HasClosingRun("&lt;" + rest, n) == HasClosingRun(rest, n)
  {
    var s := "&lt;" + rest;
    assert s[1..][1..][1..][1..] == rest;
    ClosingRunStep(s, n);
    ClosingRunStep(s[1..], n);
    ClosingRunStep(s[1..][1..], n);
    ClosingRunStep(s[1..][1..][1..], n);
  }

  lemma CleanEntity(rest: string, ticks: nat)
    ensures Clean("&lt;" + rest, ticks) == Clean(rest, ticks)
  {
    hide HasClosingRun, RunLength;
    var s := "&lt;" + rest;
    var s1, s2, s3 := "lt;" + rest, "t;" + rest, ";" + rest;
    assert s[1..] == s1 && s1[1..] == s2 && s2[1..] == s3 && s3[1..] == rest;
    assert Clean(s, ticks) == Clean(s1, ticks);
    assert Clean(s1, ticks) == Clean(s2, ticks);
    assert Clean(s2, ticks) == Clean(s3, ticks);
    assert Clean(s3, ticks) == Clean(rest, ticks);
  }

  lemma {:induction false} ExpandClean(s: string, m: seq<bool>, ticks: nat)
    requires Marked(s, m)
    ensures Clean(Expand(s, m), ticks) <==> Covered(s, m, ticks)
    decreases |s|
  {
    hide ControlLen, HasClosingRun, RunLength;
    var e := Expand(s, m);
    if s != "" {
      if s[0] == '`' {
        ExpandRun(s, m, '`');
        var run := RunLength(s, '`');
        ExpandClosing(s[run..], m[run..], run);
        ExpandClean(s[run..], m[run..], NextTicks(s[run..], run, ticks));
      } else {
        ExpandClean(s[1..], m[1..], ticks);
        if m[0] {
          CleanEntity(Expand(s[1..], m[1..]), ticks);
        } else {
          ExpandControl(s, m);
          assert e[1..] == Expand(s[1..], m[1..]);
        }
      }
    } else {
      assert e == s;
    }
  }

  predicate LineStable(line: string) {
    Covered(line, LineMarks(line, 0), 0)
  }

  /** One line: a second pass is the identity exactly when the first pass
      rewrote every control token that lies outside code in the unskipped scan. */
  lemma LineStableIff(line: string)
    ensures LineOut(LineOut(line, 0), 0) == LineOut(line, 0) <==> LineStable(line)
    ensures Clean(LineOut(line, 0), 0) <==> LineStable(line)
  {
    LineMarksAreMarked(line);
    ExpandClean(line, LineMarks(line, 0), 0);
    UnchangedIffClean(LineOut(line, 0), 0);
  }

  // ---- A condition that is easy to check --------------------------------

  /** No rewritten token holds a second '<' or a backtick. */
  predicate SimpleTokens(s: string, ticks: nat) {
    forall i, k | 0 <= i < |s| && LineMarks(s, ticks)[i] && i < k < i + ControlLen(s[i..]) :: s[k] !in "<`"
  }

  lemma {:induction false} CoveredAdvance(s: string, m: seq<bool>, n: nat, ticks: nat)
    requires |m| == |s| && n <= |s| && forall k | 0 <= k < n :: s[k] !in "<`"
    ensures Covered(s, m, ticks) == Covered(s[n..], m[n..], ticks)
  {
    hide HasClosingRun, RunLength;
    if n == 0 {
      assert s[0..] == s && m[0..] == m;
    } else {
      CoveredAdvance(s[1..], m[1..], n - 1, ticks);
      assert s[1..][n - 1..] == s[n..] && m[1..][n - 1..] == m[n..];
    }
  }

  lemma SimpleTokenCovered(s: string)
    requires ControlLen(s) > 0 && SimpleTokens(s, 0)
    requires Covered(s[ControlLen(s)..], LineMarks(s[ControlLen(s)..], 0), 0)
    ensures Covered(s, LineMarks(s, 0), 0)
  {
    hide ControlLen, HasClosingRun, RunLength;
    var n, m := ControlLen(s), LineMarks(s, 0);
    assert s[0..] == s && m[0];
    CoveredAdvance(s[1..], m[1..], n - 1, 0);
    assert s[1..][n - 1..] == s[n..] && m[1..][n - 1..] == m[n..] == LineMarks(s[n..], 0);
  }

  lemma {:induction false} SimpleTokensCovered(s: string, ticks: nat)
    requires SimpleTokens(s, ticks)
    ensures Covered(s, LineMarks(s, ticks), ticks)
    decreases |s|
  {
    hide ControlLen, HasClosingRun, RunLength;
    var m := LineMarks(s, ticks);
    if s != "" {
      if s[0] == '`' {
        var run := RunLength(s, '`');
        SimpleTokensRest(s, ticks, run, NextTicks(s[run..], run, ticks));
        SimpleTokensCovered(s[run..], NextTicks(s[run..], run, ticks));
      } else if ticks == 0 && ControlLen(s) > 0 {
        var n := ControlLen(s);
        SimpleTokensRest(s, 0, n, 0);
        SimpleTokensCovered(s[n..], 0);
        SimpleTokenCovered(s);
      } else {
        SimpleTokensRest(s, ticks, 1, ticks);
        SimpleTokensCovered(s[1..], ticks);
        assert m[1..] == LineMarks(s[1..], ticks);
      }
    }
  }

  lemma SimpleTokensRest(s: string, ticks: nat, n: nat, ticks': nat)
    requires n <= |s| && LineMarks(s, ticks)[n..] == LineMarks(s[n..], ticks') && SimpleTokens(s, ticks)
    ensures SimpleTokens(s[n..], ticks')
  {
    hide ControlLen, LineMarks;
    forall i, k | 0 <= i < |s| - n && LineMarks(s[n..], ticks')[i] && i < k < i + ControlLen(s[n..][i..])
      ensures s[n..][k] !in "<`"
    {
      assert s[n..][i..] == s[n + i..];
      assert LineMarks(s, ticks)[n..][i] == LineMarks(s, ticks)[n + i];
    }
  }

  // ---- Whole texts ------------------------------------------------------

  predicate TextStable(text: string, fence: Fence)
    decreases |text|
  {
    if text == "" then true
    else
      var line := FirstLine(text);
      (Verbatim(line, fence) || LineStable(Body(line))) && TextStable(text[|line|..], NextFence(line, fence))
  }

  lemma ExpandFenceHere(s: string, m: seq<bool>)
    requires Marked(s, m)
    ensures FenceHere(Expand(s, m)) == FenceHere(s)
  {
    hide Expand, RunLength;
    if s != "" {
      ExpandFirst(s, m);
      if s[0] in "`~" {
        ExpandRun(s, m, s[0]);
        var length := RunLength(s, s[0]);
        NoCharInExpand(s[length..], m[length..], '`');
      }
    }
  }

  lemma ExpandFence(s: string, m: seq<bool>)
    requires Marked(s, m)
    ensures ParseFence(Expand(s, m)) == ParseFence(s)
  {
    hide Expand, FenceHere;
    ExpandRun(s, m, ' ');
    var start := SpaceRun(s);
    ExpandFenceHere(s[start..], m[start..]);
  }

  lemma ExpandFirst(s: string, m: seq<bool>)
    requires s != "" && Marked(s, m)
    ensures Expand(s, m)[0] == if m[0] then '&' else s[0]
  {
  }

  lemma ExpandLast(s: string, m: seq<bool>)
    requires s != "" && Marked(s, m)
    ensures Expand(s, m)[|Expand(s, m)| - 1] == if m[|s| - 1] then ';' else s[|s| - 1]
  {
    var n := |s| - 1;
    ExpandAt(s, m, n);
    var last := Expand(s[n..], m[n..]);
    assert last == if m[n] then "&lt;" else [s[n]];
    assert Expand(s, m)[|Expand(s, m)| - 1] == last[|last| - 1];
  }

  lemma BodyHasNoNewline(line: string)
    requires OneLine(line)
    ensures '\n' !in Body(line)
  {
  }

  predicate IsEnding(s: string) {
    s == "\r\n" || s == "\n" || s == ""
  }

  lemma EndingOf(body: string, ending: string)
    requires IsEnding(ending) && '\n' !in body
    requires ending == "\n" && body != "" ==> body[|body| - 1] != '\r'
    ensures Ending(body + ending) == ending && Body(body + ending) == body
  {
    var line := body + ending;
    if ending == "\r\n" {
      assert line[|line| - 2..] == ending;
    } else if body != "" {
      assert body[|body| - 1] in body;
      var end := if |line| >= 2 then line[|line| - 2..] else "";
      assert |line| >= 2 ==> end[1] == line[|line| - 1] && (ending == "\n" ==> end[0] == body[|body| - 1]);
    }
  }

  /** A line break can only be the last character. */
  predicate OneLine(line: string) {
    line != "" && forall k | 0 <= k < |line| - 1 :: line[k] != '\n'
  }

  lemma JoinedLine(body: string, ending: string)
    requires IsEnding(ending) && '\n' !in body && body + ending != ""
    ensures OneLine(body + ending)
    ensures (body + ending)[|body + ending| - 1] == '\n' <==> ending != ""
  {
    var line := body + ending;
    assert forall k | 0 <= k < |body| :: line[k] == body[k] && body[k] in body;
    assert forall k | |body| <= k < |line| :: line[k] == ending[k - |body|];
  }

  lemma EndingShape(line: string)
    requires OneLine(line) && '\n' !in Body(line)
    ensures |Body(line)| + |Ending(line)| > 0
    ensures IsEnding(Ending(line)) && line == Body(line) + Ending(line)
    ensures Ending(line) == "\n" && Body(line) != "" ==> Body(line)[|Body(line)| - 1] != '\r'
    ensures line[|line| - 1] == '\n' <==> Ending(line) != ""
  {
    if Ending(line) == "" {
      assert line[|line| - 1] in Body(line);
    }
  }

  lemma RewrittenBody(body: string)
    requires '\n' !in body
    ensures var e := LineOut(body, 0);
            && '\n' !in e && ParseFence(e) == ParseFence(body)
            && (e != "" && e[|e| - 1] == '\r' ==> body != "" && body[|body| - 1] == '\r')
  {
    hide Expand, ParseFence, LineMarks;
    var m := LineMarks(body, 0);
    LineMarksAreMarked(body);
    NoCharInExpand(body, m, '\n');
    ExpandFence(body, m);
    if body != "" {
      ExpandLast(body, m);
    }
  }

  /** The rewritten line splits into the rewritten body and the same ending. */
  lemma RewrittenLine(line: string)
    requires OneLine(line)
    ensures var out := LineOut(Body(line), 0) + Ending(line);
            && Body(out) == LineOut(Body(line), 0) && Ending(out) == Ending(line)
            && OneLine(out)
            && (out[|out| - 1] == '\n' <==> line[|line| - 1] == '\n')
            && ParseFence(Body(out)) == ParseFence(Body(line))
  {
    hide LineOut, ParseFence, Ending, Body, IsEnding, OneLine;
    var body, ending := Body(line), Ending(line);
    BodyHasNoNewline(line);
    EndingShape(line);
    RewrittenBody(body);
    EndingOf(LineOut(body, 0), ending);
    JoinedLine(LineOut(body, 0), ending);
  }

  lemma FirstLineIs(line: string, rest: string)
    requires OneLine(line)
    requires line[|line| - 1] == '\n' || rest == ""
    ensures FirstLine(line + rest) == line
  {
    var text := line + rest;
    if line[|line| - 1] == '\n' {
      FirstIndexIs(text, '\n', |line| - 1);
      assert text[..|line|] == line;
    } else {
      assert text == line;
      assert forall k | 0 <= k < |line| :: line[k] != '\n';
      assert FirstIndex(line, '\n') == |line|;
    }
  }

  /** The first output line is the first input line, rewritten, and the fence
      state after it is the same. */
  lemma OutputLine(text: string, fence: Fence)
    requires text != ""
    ensures var line, out := FirstLine(text), TextOut(text, fence);
            var line' := OutOfLine(line, fence);
            && out != "" && FirstLine(out) == line'
            && out[|line'|..] == TextOut(text[|line|..], NextFence(line, fence))
            && Verbatim(line', fence) == Verbatim(line, fence)
            && NextFence(line', fence) == NextFence(line, fence)
            && (!Verbatim(line, fence) ==> Body(line') == LineOut(Body(line), 0) && Ending(line') == Ending(line))
  {
    hide LineOut, TextOut, ParseFence, ClosesFence, Ending;
    var line := FirstLine(text);
    var rest := text[|line|..];
    TextOutLine(text, fence);
    LastLine(text);
    RewrittenLine(line);
    FirstLineIs(OutOfLine(line, fence), TextOut(rest, NextFence(line, fence)));
  }

  lemma LastLine(text: string)
    requires text != ""
    ensures var line := FirstLine(text); line[|line| - 1] == '\n' || text[|line|..] == ""
  {
  }

  lemma SplitEqual(a: string, b: string, c: string, d: string)
    requires |a| >= |c| && |b| >= |d|
    ensures a + b == c + d <==> a == c && b == d
  {
    if a + b == c + d {
      assert |a| == |c|;
      assert a == (a + b)[..|a|] == (c + d)[..|c|] == c;
      assert b == (a + b)[|a|..] == (c + d)[|c|..] == d;
    }
  }

  /** Neutralizing twice is neutralizing once, exactly for the texts whose
      unfenced lines are stable. */
  lemma {:induction false} SecondPassIff(text: string, fence: Fence)
    ensures TextOut(TextOut(text, fence), fence) == TextOut(text, fence) <==> TextStable(text, fence)
    decreases |text|
  {
    hide LineOut, TextOut, FirstLine, Ending, LineStable, ParseFence, ClosesFence;
    if text != "" {
      var line, out := FirstLine(text), TextOut(text, fence);
      var rest, line' := text[|line|..], OutOfLine(line, fence);
      OutputLine(text, fence);
      var fence', rest' := NextFence(line, fence), out[|line'|..];
      TextOutLine(text, fence);
      TextOutLine(out, fence);
      SecondPassIff(rest, fence');
      LineStableIff(Body(line));
      SplitEqual(OutOfLine(line', fence), TextOut(rest', fence'), line', rest');
      if !Verbatim(line, fence) {
        SplitEqual(LineOut(Body(line'), 0), Ending(line), Body(line'), Ending(line));
      }
    }
  }

  /** The source's own promise: neutralizing is idempotent when no rewritten
      token holds a second '<' or a backtick. */
  predicate TextSimple(text: string, fence: Fence)
    decreases |text|
  {
    if text == "" then true
    else
      var line := FirstLine(text);
      (Verbatim(line, fence) || SimpleTokens(Body(line), 0)) && TextSimple(text[|line|..], NextFence(line, fence))
  }

  lemma {:induction false} SimpleTextIsStable(text: string, fence: Fence)
    requires TextSimple(text, fence)
    ensures TextStable(text, fence)
    decreases |text|
  {
    hide FirstLine, LineMarks, SimpleTokens, Covered;
    if text != "" {
      var line := FirstLine(text);
      if !Verbatim(line, fence) {
        SimpleTokensCovered(Body(line), 0);
      }
      SimpleTextIsStable(text[|line|..], NextFence(line, fence));
    }
  }

  lemma TokenLen(body: string, rest: string)
    requires ControlBody(body) && '>' !in body
    ensures ControlLen("<" + body + ">" + rest) == |body| + 2
  {
    hide ControlBody;
    var s, n := "<" + body + ">" + rest, |body| + 1;
    assert forall k | 0 < k < n :: s[k] == body[k - 1];
    FirstIndexIs(s, '>', n);
    assert s[1..n] == body;
  }

  /** The beginnings of a token that goes on whatever follows, up to '>': a date,
      and a user, subteam or channel with a label. */
  predicate Swallows(p: string) {
    DATE <= p || Labelled(USER, p) || Labelled(TEAM, p) || Labelled(CHANNEL, p)
  }

  predicate Labelled(kind: string, p: string) {
    kind <= p && var n := UpperRun(p[|kind|..]); n > 0 && |kind| + n < |p| && p[|kind| + n] == '|'
  }

  lemma {:induction false} UpperRunStops(p: string, rest: string)
    ensures UpperRun(p + "<" + rest) == UpperRun(p)
  {
    if p == "" {
      assert p + "<" + rest == "<" + rest;
    } else {
      UpperRunStops(p[1..], rest);
      assert (p + "<" + rest)[1..] == p[1..] + "<" + rest;
    }
  }

  lemma LabelledIff(kind: string, p: string, rest: string)
    requires '<' !in kind && '|' !in kind
    ensures var b := p + "<" + rest;
            kind <= b && Identity(b[|kind|..]) <==> Labelled(kind, p)
  {
    hide UpperRun;
    var b := p + "<" + rest;
    if |p| < |kind| {
      assert b[|p|] == '<' && !(kind <= b);
    } else {
      assert b[..|kind|] == p[..|kind|] && b[|kind|..] == p[|kind|..] + "<" + rest;
      UpperRunStops(p[|kind|..], rest);
    }
  }

  /** Another '<' fits in a token exactly behind such a beginning. */
  lemma SwallowsIff(p: string, rest: string)
    ensures ControlBody(p + "<" + rest) <==> Swallows(p)
  {
    hide Identity, Labelled;
    var b := p + "<" + rest;
    LabelledIff(USER, p, rest);
    LabelledIff(TEAM, p, rest);
    LabelledIff(CHANNEL, p, rest);
    assert b[|p|] == '<';
    if |p| >= |DATE| { assert b[..|DATE|] == p[..|DATE|]; }
  }

  /** A date or a label swallows a second token: the first pass leaves that one
      live and the second pass rewrites it. */
  lemma NestedTokenSurvives(p: string, body: string)
    requires Swallows(p) && '>' !in p && '`' !in p && ControlBody(body) && '>' !in body
    ensures var line := "<" + p + "<" + body + ">";
            LineOut(line, 0) == "&lt;" + line[1..] && !LineStable(line)
  {
    hide ControlBody, LineOut, LineStable, ControlLen, Swallows;
    var line, outer := "<" + p + "<" + body + ">", p + "<" + body;
    SwallowsIff(p, body);
    assert line == "<" + outer + ">" + "";
    TokenLen(outer, "");
    LineOutToken(line);
    assert line[|line|..] == "";
    assert LineOut("", 0) == "";
    NestedUncovered(line, p, body);
  }

  /** Skipping text without a backtick only forgets tokens. */
  lemma {:induction false} CoveredRest(s: string, m: seq<bool>, n: nat)
    requires |m| == |s| && n <= |s| && '`' !in s[..n] && Covered(s, m, 0)
    ensures Covered(s[n..], m[n..], 0)
  {
    hide HasClosingRun, RunLength, ControlLen;
    if n == 0 {
      assert s[0..] == s && m[0..] == m;
    } else {
      assert s[0] == s[..n][0] && s[1..][..n - 1] == s[..n][1..];
      CoveredRest(s[1..], m[1..], n - 1);
      assert s[1..][n - 1..] == s[n..] && m[1..][n - 1..] == m[n..];
    }
  }

  lemma NestedUncovered(line: string, p: string, body: string)
    requires line == "<" + p + "<" + body + ">" && ControlLen(line) == |line|
    requires '`' !in p && ControlBody(body) && '>' !in body
    ensures !LineStable(line)
  {
    hide ControlBody, ControlLen;
    var m, k := LineMarks(line, 0), |p| + 1;
    assert line[k..] == "<" + body + ">" + "";
    TokenLen(body, "");
    assert !m[k..][0];
    assert line[..k] == "<" + p;
    if LineStable(line) { CoveredRest(line, m, k); }
  }

  lemma LabelSwallows()
    ensures Swallows("@U1|") && '>' !in "@U1|" && '`' !in "@U1|"
  {
    var p := "@U1|";
    assert p[2..] == "1|" && p[2..][1..] == "|" && UpperRun("1|") == 1;
    assert USER <= p;
  }

  lemma ChannelBody()
    ensures ControlBody("!channel") && '>' !in "!channel"
  {
  }

  lemma LabelText()
    ensures "<" + "@U1|" + "<" + "!channel" + ">" == "<@U1|<!channel>"
    ensures "<@U1|<!channel>"[1..] == "@U1|<!channel>"
  {
  }

  /** <@U1|<!channel> keeps <!channel> live. */
  lemma LabelSwallowsChannel()
    ensures LineOut("<@U1|<!channel>", 0) == "&lt;@U1|<!channel>" && !LineStable("<@U1|<!channel>")
  {
    hide *;
    LabelSwallows();
    ChannelBody();
    NestedTokenSurvives("@U1|", "!channel");
    LabelText();
  }

  // ---- Escaped mrkdwn ----------------------------------------------------

  /** Some position of s starts a control token. */
  predicate HoldsToken(s: string) {
    s != "" && (ControlLen(s) > 0 || HoldsToken(s[1..]))
  }

  /** Some control token of s that the escape rewrites holds another token. */
  predicate NestsToken(s: string)
    decreases |s|
  {
    if s == "" then false
    else if ControlLen(s) > 0 then HoldsToken(s[1..ControlLen(s)]) || NestsToken(s[ControlLen(s)..])
    else NestsToken(s[1..])
  }

  lemma {:induction false} HoldsTokenSkip(a: string, b: string)
    requires '<' !in a
    ensures HoldsToken(a + b) == HoldsToken(b)
  {
    if a == "" {
      assert a + b == b;
    } else {
      HoldsTokenSkip(a[1..], b);
      assert (a + b)[1..] == a[1..] + b && a[0] in a;
    }
  }

  lemma {:induction false} HoldsTokenClosed(t: string, b: string)
    requires t != "" ==> t[|t| - 1] == '>'
    ensures HoldsToken(t + b) == (HoldsToken(t) || HoldsToken(b))
  {
    hide ControlBody;
    if t == "" {
      assert t + b == b;
    } else {
      HoldsTokenClosed(t[1..], b);
      assert (t + b)[1..] == t[1..] + b;
      var g := FirstIndex(t, '>');
      assert g < |t|;
      FirstIndexIs(t + b, '>', g);
      if g > 0 {
        assert (t + b)[1..g] == t[1..g];
      }
    }
  }

  /** Escaped text holds a live control token exactly when some rewritten token
      nested another one; without neutralizing it never does. */
  lemma {:induction false} MrkdwnHoldsTokenIff(s: string)
    ensures HoldsToken(Mrkdwn(s, true)) <==> NestsToken(s)
    decreases |s|
  {
    hide ControlLen, HoldsToken;
    if s == "" {
      HoldsTokenEmpty();
    } else if ControlLen(s) > 0 {
      var n := ControlLen(s);
      var rest := Mrkdwn(s[n..], true);
      MrkdwnHoldsTokenIff(s[n..]);
      HoldsTokenClosed(s[1..n], rest);
      Regroup("&lt;", s[1..n], rest);
      HoldsTokenSkip("&lt;", s[1..n] + rest);
    } else {
      MrkdwnHoldsTokenIff(s[1..]);
      HoldsTokenSkip(Entity(s[0]), Mrkdwn(s[1..], true));
    }
  }

  lemma HoldsTokenEmpty()
    ensures !HoldsToken("")
  {
  }

  lemma {:induction false} PlainEscapeHoldsNone(s: string)
    ensures !HoldsToken(Mrkdwn(s, false))
  {
    hide HoldsToken;
    if s == "" {
      HoldsTokenEmpty();
    } else {
      PlainEscapeHoldsNone(s[1..]);
      HoldsTokenSkip(Entity(s[0]), Mrkdwn(s[1..], false));
    }
  }

  // ---- Lines, runs and entities on their own -----------------------------

  /** A newline ends a line, unless it is the last, and stands nowhere else in it. */
  predicate IsLine(line: string, last: bool) {
    line != "" && '\n' !in line[..|line| - 1] && (!last ==> line[|line| - 1] == '\n')
  }

  lemma FirstLineEnds(text: string)
    requires text != ""
    ensures IsLine(FirstLine(text), FirstLine(text) == text)
  {
  }

  /** The lines of a text are lines and reassemble to it. */
  lemma {:induction false} LinesReassemble(text: string)
    ensures var lines := SplitLines(text);
            Concat(lines) == text && forall i | 0 <= i < |lines| :: IsLine(lines[i], i == |lines| - 1)
    decreases |text|
  {
    hide FirstLine, IsLine;
    if text != "" {
      var line, lines := FirstLine(text), SplitLines(text);
      var rest := text[|line|..];
      LinesReassemble(rest);
      FirstLineEnds(text);
      assert lines[1..] == SplitLines(rest) && lines[0] == line;
      assert line + rest == text;
      LastOnly(line, text);
    }
  }

  lemma LastOnly(line: string, text: string)
    requires IsLine(line, line == text) && line <= text
    ensures text[|line|..] != "" ==> IsLine(line, false)
    ensures IsLine(line, true)
  {
  }

  /** A maximal run of exactly n backticks starts at i. */
  predicate RunAt(s: string, i: nat, n: nat) {
    i < |s| && s[i] == '`' && (i > 0 ==> s[i - 1] != '`') && RunLength(s[i..], '`') == n
  }

  /** A closing run is found exactly when some maximal run has that length. */
  lemma {:induction false} ClosingRunIff(s: string, n: nat)
    ensures HasClosingRun(s, n) <==> exists i: nat :: RunAt(s, i, n)
    decreases |s|
  {
    if s != "" {
      var k := if s[0] == '`' then RunLength(s, '`') else 1;
      ClosingRunIff(s[k..], n);
      RunsAfter(s, k, n);
    }
  }

  /** The first run or plain character ends at k: runs start there as in the rest. */
  lemma RunShifts(s: string, k: nat, i: nat, n: nat)
    requires s != "" && k == if s[0] == '`' then RunLength(s, '`') else 1
    requires k <= i
    ensures RunAt(s, i, n) <==> RunAt(s[k..], i - k, n)
  {
    if i < |s| {
      assert s[i..] == s[k..][i - k..] && s[k..][i - k] == s[i];
      if i > k { assert s[k..][i - k - 1] == s[i - 1]; }
    }
  }

  lemma NoRunInside(s: string, k: nat, i: nat, n: nat)
    requires s != "" && k == if s[0] == '`' then RunLength(s, '`') else 1
    requires i < k
    ensures RunAt(s, i, n) <==> i == 0 && s[0] == '`' && k == n
  {
    assert s[0..] == s;
    if 0 < i { assert s[i - 1] == '`'; }
  }

  /** The runs of a text are its first run and those behind it. */
  lemma RunsAfter(s: string, k: nat, n: nat)
    requires s != "" && k == if s[0] == '`' then RunLength(s, '`') else 1
    ensures (exists i: nat :: RunAt(s, i, n)) <==> (s[0] == '`' && k == n) || exists i: nat :: RunAt(s[k..], i, n)
  {
    hide RunAt, RunLength;
    NoRunInside(s, k, 0, n);
    if i: nat :| RunAt(s, i, n) {
      if i >= k {
        RunShifts(s, k, i, n);
      } else {
        NoRunInside(s, k, i, n);
      }
    }
    if i: nat :| RunAt(s[k..], i, n) {
      RunShifts(s, k, k + i, n);
    }
  }

  /** Reading the three entities back. */
  function Unescape(s: string): string
    decreases |s|
  {
    if s == "" then ""
    else if "&amp;" <= s then "&" + Unescape(s[5..])
    else if "&lt;" <= s then "<" + Unescape(s[4..])
    else if "&gt;" <= s then ">" + Unescape(s[4..])
    else [s[0]] + Unescape(s[1..])
  }

  lemma UnescapeEntity(c: char, rest: string)
    ensures Unescape(Entity(c) + rest) == [c] + Unescape(rest)
  {
    var s := Entity(c) + rest;
    assert s[|Entity(c)|..] == rest;
    if c == '&' {
      assert s[..5] == "&amp;";
    } else if c == '<' {
      assert s[..4] == "&lt;" && s[1] == 'l';
    } else if c == '>' {
      assert s[..4] == "&gt;" && s[1] == 'g';
      assert !("&lt;" <= s) && !("&amp;" <= s);
    } else {
      assert s[0] == c;
    }
  }

  /** Escaping without neutralizing loses nothing. */
  lemma {:induction false} EscapeRoundTrip(s: string)
    ensures Unescape(Mrkdwn(s, false)) == s
    decreases |s|
  {
    hide Unescape, Entity;
    if s == "" {
      assert Unescape("") == "" by { UnescapeNothing(); }
    } else {
      UnescapeEntity(s[0], Mrkdwn(s[1..], false));
      EscapeRoundTrip(s[1..]);
    }
  }

  lemma UnescapeNothing()
    ensures Unescape("") == ""
  {
  }

  lemma UnescapeRaw(c: char, rest: string)
    requires c != '&'
    ensures Unescape([c] + rest) == [c] + Unescape(rest)
  {
    var s := [c] + rest;
    assert s[0] == c && s[1..] == rest;
    assert !("&amp;" <= s) && !("&lt;" <= s) && !("&gt;" <= s);
  }

  lemma {:induction false} ExpandUndone(s: string, m: seq<bool>)
    requires |s| == |m| && Marked(s, m) && '&' !in s
    ensures Unescape(Expand(s, m)) == s
  {
    hide Unescape;
    if s == "" {
      UnescapeNothing();
    } else {
      MarkedTail(s, m);
      ExpandUndone(s[1..], m[1..]);
      if m[0] {
        UnescapeEntity('<', Expand(s[1..], m[1..]));
      } else {
        UnescapeRaw(s[0], Expand(s[1..], m[1..]));
      }
    }
  }

  lemma MarkedTail(s: string, m: seq<bool>)
    requires |s| == |m| && s != "" && Marked(s, m)
    ensures Marked(s[1..], m[1..]) && (m[0] ==> s[0] == '<')
  {
  }

  lemma {:induction false} UnescapeAll(s: string, rest: string)
    requires '&' !in s
    ensures Unescape(s + rest) == s + Unescape(rest)
  {
    hide Unescape;
    if s == "" {
      assert s + rest == rest && s + Unescape(rest) == Unescape(rest);
    } else {
      UnescapeAll(s[1..], rest);
      UnescapeRaw(s[0], s[1..] + rest);
      assert [s[0]] + (s[1..] + rest) == s + rest;
    }
  }

  lemma {:induction false} MrkdwnUndone(s: string)
    requires '&' !in s
    ensures Unescape(Mrkdwn(s, true)) == s
    decreases |s|
  {
    hide Unescape, Entity, ControlLen;
    assert Entity('<') == "&lt;" by { LessEntity(); }
    if s == "" {
      UnescapeNothing();
    } else {
      var n := ControlLen(s);
      if n > 0 {
        MrkdwnUndone(s[n..]);
        UnescapeAll(s[1..n], Mrkdwn(s[n..], true));
        UnescapeEntity('<', s[1..n] + Mrkdwn(s[n..], true));
        assert "&lt;" + (s[1..n] + Mrkdwn(s[n..], true)) == "&lt;" + s[1..n] + Mrkdwn(s[n..], true);
        assert s == ['<'] + (s[1..n] + s[n..]);
      } else {
        MrkdwnUndone(s[1..]);
        UnescapeEntity(s[0], Mrkdwn(s[1..], true));
      }
    }
  }

  lemma LessEntity()
    ensures Entity('<') == "&lt;"
  {
  }

  /** Neutralizing a text without '&' is undone by reading the entities back: it
      writes one entity for some '<' and changes nothing else. */
  lemma NeutralizeUndone(text: string)
    requires '&' !in text
    ensures Unescape(Neutralize(text)) == text && Unescape(Mrkdwn(text, true)) == text
  {
    hide Unescape, Expand, Marks;
    MarksAreMarked(text, Outside);
    ExpandUndone(text, Marks(text, Outside));
    MrkdwnUndone(text);
  }
}

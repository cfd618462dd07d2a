/** The control tokens as the alternatives of their pattern, and what a text holds
    of them after the escape (internal/blockkit/escape.go). */
module ControlTokens {
  import opened Text
  import opened Escape
  import opened EscapeLaws

  // ---- The pattern as data -----------------------------------------------

  datatype Class = UpperOrDigit | NotClose

  datatype Piece = Exactly(text: string) | OneOrMore(class_: Class) | Any(class_: Class) | Optional(pieces: seq<Piece>)

  predicate In(c: char, class_: Class) {
    match class_
    case UpperOrDigit => 'A' <= c <= 'Z' || '0' <= c <= '9'
    case NotClose => c != '>'
  }

  predicate AllIn(s: string, class_: Class) {
    forall i | 0 <= i < |s| :: In(s[i], class_)
  }

  /** The text is one match of the piece. */
  ghost predicate Fits(piece: Piece, s: string)
    decreases piece
  {
    match piece
    case Exactly(text) => s == text
    case OneOrMore(class_) => s != "" && AllIn(s, class_)
    case Any(class_) => AllIn(s, class_)
    case Optional(pieces) => s == "" || Matches(pieces, s)
  }

  /** The text splits into matches of the pieces, in order. */
  ghost predicate Matches(pieces: seq<Piece>, s: string)
    decreases pieces
  {
    if pieces == [] then s == ""
    else exists k | 0 <= k <= |s| :: Fits(pieces[0], s[..k]) && Matches(pieces[1..], s[k..])
  }

  const CLOSE := Exactly(">")

  const LABEL := Optional([Exactly("|"), Any(NotClose)])

  const PATTERN := [
    [Exactly("<@U"), OneOrMore(UpperOrDigit), LABEL, CLOSE],
    [Exactly("<!subteam^"), OneOrMore(UpperOrDigit), LABEL, CLOSE],
    [Exactly("<!here>")],
    [Exactly("<!channel>")],
    [Exactly("<!everyone>")],
    [Exactly("<#C"), OneOrMore(UpperOrDigit), LABEL, CLOSE],
    [Exactly("<!date^"), OneOrMore(NotClose), LABEL, CLOSE]
  ]

  ghost predicate IsToken(s: string) {
    exists i | 0 <= i < |PATTERN| :: Matches(PATTERN[i], s)
  }

  // ---- Matching, piece by piece ------------------------------------------

  lemma MatchCons(piece: Piece, rest: seq<Piece>, a: string, b: string)
    requires Fits(piece, a) && Matches(rest, b)
    ensures Matches([piece] + rest, a + b)
  {
    var pieces, s := [piece] + rest, a + b;
    assert pieces[0] == piece && pieces[1..] == rest;
    assert s[..|a|] == a && s[|a|..] == b;
  }

  lemma MatchSplit(pieces: seq<Piece>, s: string) returns (a: string, b: string)
    requires pieces != [] && Matches(pieces, s)
    ensures s == a + b && Fits(pieces[0], a) && Matches(pieces[1..], b)
  {
    var k :| 0 <= k <= |s| && Fits(pieces[0], s[..k]) && Matches(pieces[1..], s[k..]);
    a, b := s[..k], s[k..];
  }

  lemma MatchOne(piece: Piece, s: string)
    ensures Matches([piece], s) <==> Fits(piece, s)
  {
    var pieces := [piece];
    assert pieces[1..] == [];
    if Matches(pieces, s) {
      var a, b := MatchSplit(pieces, s);
      assert b == "" && a + b == a;
    }
    if Fits(piece, s) {
      assert s[..|s|] == s && s[|s|..] == "";
    }
  }

  lemma LabelIff(s: string)
    ensures Fits(LABEL, s) <==> s == "" || (s[0] == '|' && AllIn(s[1..], NotClose))
  {
    var pieces := [Exactly("|"), Any(NotClose)];
    assert pieces[1..] == [Any(NotClose)];
    if s != "" && Matches(pieces, s) {
      var a, b := MatchSplit(pieces, s);
      MatchOne(Any(NotClose), b);
      assert s[1..] == b;
    }
    if s != "" && s[0] == '|' && AllIn(s[1..], NotClose) {
      MatchOne(Any(NotClose), s[1..]);
      assert s[..1] == "|";
    }
  }

  // ---- One kind of mention ------------------------------------------------

  /** A name and a label. */
  ghost predicate Named(b: string, class_: Class) {
    exists name, tag :: b == name + tag && name != "" && AllIn(name, class_) && Fits(LABEL, tag)
  }

  lemma CloseLabel(s: string)
    ensures Matches([LABEL, CLOSE], s) <==> exists tag :: s == tag + ">" && Fits(LABEL, tag)
  {
    hide Matches, LABEL;
    var pieces := [LABEL, CLOSE];
    assert pieces[1..] == [CLOSE];
    if Matches(pieces, s) {
      var a, b := MatchSplit(pieces, s);
      MatchOne(CLOSE, b);
    }
    if tag :| s == tag + ">" && Fits(LABEL, tag) {
      MatchOne(CLOSE, ">");
      MatchCons(LABEL, [CLOSE], tag, ">");
      assert [LABEL] + [CLOSE] == pieces;
    }
  }

  lemma CloseNamed(class_: Class, s: string)
    ensures Matches([OneOrMore(class_), LABEL, CLOSE], s) <==> exists b :: s == b + ">" && Named(b, class_)
  {
    hide Matches, LABEL, CLOSE, AllIn;
    var pieces, rest := [OneOrMore(class_), LABEL, CLOSE], [LABEL, CLOSE];
    assert pieces[1..] == rest && [OneOrMore(class_)] + rest == pieces;
    if Matches(pieces, s) {
      var name, c := MatchSplit(pieces, s);
      CloseLabel(c);
      var tag :| c == tag + ">" && Fits(LABEL, tag);
      assert s == name + tag + ">" && Named(name + tag, class_);
    }
    if b :| s == b + ">" && Named(b, class_) {
      var name, tag :| b == name + tag && name != "" && AllIn(name, class_) && Fits(LABEL, tag);
      CloseLabel(tag + ">");
      MatchCons(OneOrMore(class_), rest, name, tag + ">");
      assert name + (tag + ">") == s;
    }
  }

  lemma MentionIff(start: string, class_: Class, s: string)
    ensures Matches([Exactly(start), OneOrMore(class_), LABEL, CLOSE], s) <==>
            exists b :: s == start + b + ">" && Named(b, class_)
  {
    hide Matches, LABEL, CLOSE, AllIn, Named;
    var pieces, rest := [Exactly(start), OneOrMore(class_), LABEL, CLOSE], [OneOrMore(class_), LABEL, CLOSE];
    assert pieces[1..] == rest && [Exactly(start)] + rest == pieces;
    if Matches(pieces, s) {
      var a, c := MatchSplit(pieces, s);
      CloseNamed(class_, c);
      var b :| c == b + ">" && Named(b, class_);
      assert s == start + b + ">";
    }
    if b :| s == start + b + ">" && Named(b, class_) {
      CloseNamed(class_, b + ">");
      MatchCons(Exactly(start), rest, start, b + ">");
      assert start + (b + ">") == s;
    }
  }

  // ---- Bodies ------------------------------------------------------------

  lemma {:induction false} UpperRunIs(name: string, rest: string)
    requires AllIn(name, UpperOrDigit) && (rest == "" || !In(rest[0], UpperOrDigit))
    ensures UpperRun(name + rest) == |name|
  {
    if name == "" {
      assert name + rest == rest;
    } else {
      UpperRunIs(name[1..], rest);
      assert (name + rest)[1..] == name[1..] + rest;
    }
  }

  lemma {:induction false} UpperRunAll(b: string)
    ensures AllIn(b[..UpperRun(b)], UpperOrDigit)
  {
    if UpperRun(b) > 0 {
      UpperRunAll(b[1..]);
      assert b[..UpperRun(b)] == [b[0]] + b[1..][..UpperRun(b[1..])];
    }
  }

  lemma IdentityIff(b: string)
    requires AllIn(b, NotClose)
    ensures Identity(b) <==> Named(b, UpperOrDigit)
  {
    hide Fits, LABEL;
    var n := UpperRun(b);
    if Identity(b) {
      UpperRunAll(b);
      LabelIff(b[n..]);
      assert b == b[..n] + b[n..];
      assert n < |b| ==> b[n..][0] == b[n] && b[n..][1..] == b[n + 1..];
    }
    if Named(b, UpperOrDigit) {
      var name, tag :| b == name + tag && name != "" && AllIn(name, UpperOrDigit) && Fits(LABEL, tag);
      LabelIff(tag);
      UpperRunIs(name, tag);
    }
  }

  lemma DateIff(b: string)
    requires AllIn(b, NotClose)
    ensures b != "" <==> Named(b, NotClose)
  {
    hide Fits, LABEL;
    if b != "" {
      LabelIff("");
      assert b == b + "";
    }
  }

  /** Between the brackets: start, name, label. */
  lemma MentionBody(start: string, class_: Class, b: string)
    ensures Matches([Exactly("<" + start), OneOrMore(class_), LABEL, CLOSE], "<" + b + ">") <==>
            start <= b && Named(b[|start|..], class_)
  {
    hide LABEL, CLOSE, Matches, AllIn, Named;
    var s := "<" + b + ">";
    MentionIff("<" + start, class_, s);
    if c :| s == "<" + start + c + ">" && Named(c, class_) {
      assert b == s[1..|s| - 1] == start + c;
      assert b[|start|..] == c && b[..|start|] == start;
    }
    if start <= b && Named(b[|start|..], class_) {
      assert b == start + b[|start|..];
      assert s == "<" + start + b[|start|..] + ">";
    }
  }

  lemma WordBody(word: string, b: string)
    ensures Matches([Exactly("<" + word + ">")], "<" + b + ">") <==> b == word
  {
    MatchOne(Exactly("<" + word + ">"), "<" + b + ">");
    if "<" + b + ">" == "<" + word + ">" {
      assert b == ("<" + b + ">")[1..|b| + 1] == ("<" + word + ">")[1..|b| + 1];
      assert |b| == |word|;
    }
  }

  // ---- Tokens ------------------------------------------------------------

  /** What stands between the brackets of a token, alternative by alternative. */
  lemma TokenBody(b: string)
    requires AllIn(b, NotClose)
    ensures IsToken("<" + b + ">") <==> ControlBody(b)
  {
    hide Matches, LABEL, CLOSE, AllIn, Named, Identity;
    var s := "<" + b + ">";
    MentionBody(USER, UpperOrDigit, b);
    MentionBody(TEAM, UpperOrDigit, b);
    MentionBody(CHANNEL, UpperOrDigit, b);
    MentionBody(DATE, NotClose, b);
    WordBody("!here", b);
    WordBody("!channel", b);
    WordBody("!everyone", b);
    TailIn(b, USER);
    TailIn(b, TEAM);
    TailIn(b, CHANNEL);
    TailIn(b, DATE);
    PatternIs();
    assert IsToken(s) <==>
           Matches(PATTERN[0], s) || Matches(PATTERN[1], s) || Matches(PATTERN[2], s) || Matches(PATTERN[3], s)
           || Matches(PATTERN[4], s) || Matches(PATTERN[5], s) || Matches(PATTERN[6], s);
  }

  lemma TailIn(b: string, start: string)
    requires AllIn(b, NotClose)
    ensures start <= b ==> (Identity(b[|start|..]) <==> Named(b[|start|..], UpperOrDigit))
    ensures start <= b ==> (b[|start|..] != "" <==> Named(b[|start|..], NotClose))
  {
    hide Named, Identity;
    if start <= b {
      IdentityIff(b[|start|..]);
      DateIff(b[|start|..]);
    }
  }

  lemma PatternIs()
    ensures |PATTERN| == 7
    ensures PATTERN[0] == [Exactly("<" + USER), OneOrMore(UpperOrDigit), LABEL, CLOSE]
    ensures PATTERN[1] == [Exactly("<" + TEAM), OneOrMore(UpperOrDigit), LABEL, CLOSE]
    ensures PATTERN[2] == [Exactly("<" + "!here" + ">")] && PATTERN[3] == [Exactly("<" + "!channel" + ">")]
    ensures PATTERN[4] == [Exactly("<" + "!everyone" + ">")]
    ensures PATTERN[5] == [Exactly("<" + CHANNEL), OneOrMore(UpperOrDigit), LABEL, CLOSE]
    ensures PATTERN[6] == [Exactly("<" + DATE), OneOrMore(NotClose), LABEL, CLOSE]
  {
    hide LABEL, CLOSE;
    assert "<" + USER == "<@U" && "<" + TEAM == "<!subteam^" && "<" + CHANNEL == "<#C" && "<" + DATE == "<!date^";
    assert "<" + "!here" + ">" == "<!here>" && "<" + "!channel" + ">" == "<!channel>";
    assert "<" + "!everyone" + ">" == "<!everyone>";
  }

  predicate Bracketed(s: string) {
    |s| >= 2 && s[0] == '<' && s[|s| - 1] == '>' && AllIn(s[1..|s| - 1], NotClose)
  }

  lemma OpenJoin(a: string, b: string)
    ensures AllIn(a + b, NotClose) <==> AllIn(a, NotClose) && AllIn(b, NotClose)
  {
    assert forall i | 0 <= i < |a| :: (a + b)[i] == a[i];
    assert forall i | 0 <= i < |b| :: (a + b)[|a| + i] == b[i];
  }

  lemma NamedIsOpen(b: string, class_: Class)
    requires Named(b, class_)
    ensures AllIn(b, NotClose)
  {
    hide LABEL, Fits;
    var name, tag :| b == name + tag && name != "" && AllIn(name, class_) && Fits(LABEL, tag);
    LabelIff(tag);
    assert tag != "" ==> tag == [tag[0]] + tag[1..];
    OpenJoin(name, tag);
  }

  lemma MentionShape(start: string, class_: Class, s: string)
    requires AllIn(start, NotClose) && Matches([Exactly("<" + start), OneOrMore(class_), LABEL, CLOSE], s)
    ensures Bracketed(s)
  {
    hide Matches, LABEL, CLOSE, AllIn, Named;
    MentionIff("<" + start, class_, s);
    var b :| s == "<" + start + b + ">" && Named(b, class_);
    NamedIsOpen(b, class_);
    OpenJoin(start, b);
    assert s[1..|s| - 1] == start + b;
  }

  lemma WordShape(word: string, s: string)
    requires AllIn(word, NotClose) && Matches([Exactly("<" + word + ">")], s)
    ensures Bracketed(s)
  {
    MatchOne(Exactly("<" + word + ">"), s);
    assert s[1..|s| - 1] == word;
  }

  /** A token is one bracket, a body without '>', and the closing bracket. */
  lemma TokenShape(s: string)
    requires IsToken(s)
    ensures Bracketed(s)
  {
    hide Matches, LABEL, CLOSE, Bracketed;
    PatternIs();
    var i :| 0 <= i < |PATTERN| && Matches(PATTERN[i], s);
    if i == 0 { MentionShape(USER, UpperOrDigit, s); }
    else if i == 1 { MentionShape(TEAM, UpperOrDigit, s); }
    else if i == 2 { WordShape("!here", s); }
    else if i == 3 { WordShape("!channel", s); }
    else if i == 4 { WordShape("!everyone", s); }
    else if i == 5 { MentionShape(CHANNEL, UpperOrDigit, s); }
    else { MentionShape(DATE, NotClose, s); }
  }

  /** The scanner finds a token of length n exactly where the pattern matches n
      characters. */
  lemma ControlLenIff(s: string, n: nat)
    requires n > 0
    ensures ControlLen(s) == n <==> n <= |s| && IsToken(s[..n])
  {
    hide ControlBody, IsToken;
    if ControlLen(s) == n {
      assert s[..n] == "<" + s[1..n - 1] + ">";
      TokenBody(s[1..n - 1]);
    }
    if n <= |s| && IsToken(s[..n]) {
      var t := s[..n];
      TokenShape(t);
      assert t == "<" + t[1..n - 1] + ">" && t[1..n - 1] == s[1..n - 1];
      TokenBody(t[1..n - 1]);
      assert forall k | 1 <= k < n - 1 :: s[k] == t[1..n - 1][k - 1];
      FirstIndexIs(s, '>', n - 1);
    }
  }

  lemma ControlLenNone(s: string)
    ensures ControlLen(s) == 0 <==> forall n | 0 <= n <= |s| :: !IsToken(s[..n])
  {
    hide ControlLen, IsToken;
    forall n | 0 < n <= |s|
      ensures ControlLen(s) == n <==> IsToken(s[..n])
    {
      ControlLenIff(s, n);
    }
    if IsToken(s[..0]) { TokenShape(s[..0]); }
    if ControlLen(s) > 0 { ControlLenIff(s, ControlLen(s)); }
  }

  // ---- What is left of them in a text ------------------------------------

  /** Between two opening brackets of s there is a closing one. */
  predicate Unnested(s: string) {
    forall i, j | 0 <= i < j < |s| && s[i] == '<' && s[j] == '<' :: exists k | i < k < j :: s[k] == '>'
  }

  lemma UnnestedSlice(s: string, a: nat, b: nat)
    requires Unnested(s) && a <= b <= |s|
    ensures Unnested(s[a..b])
  {
    var t := s[a..b];
    forall i, j | 0 <= i < j < |t| && t[i] == '<' && t[j] == '<'
      ensures exists k | i < k < j :: t[k] == '>'
    {
      var k :| a + i < k < a + j && s[k] == '>';
      assert t[k - a] == '>';
    }
  }

  /** No character between the brackets of a rewritten token opens another. */
  lemma UnnestedIsSimple(s: string)
    requires Unnested(s) && '`' !in s
    ensures SimpleTokens(s, 0)
  {
    hide ControlBody, LineMarks;
    forall i, k | 0 <= i < |s| && LineMarks(s, 0)[i] && i < k < i + ControlLen(s[i..])
      ensures s[k] !in "<`"
    {
      LineMarksAreTokens(s, 0, i);
      var t := s[i..];
      assert forall j | 0 <= j < ControlLen(t) - 1 :: t[j] == s[i + j] != '>';
      assert t[0] == s[i] && t[k - i] == s[k] && t[ControlLen(t) - 1] == '>';
    }
  }

  /** Without backticks a scan that meets no token leaves no token anywhere. */
  lemma {:induction false} CleanHoldsNone(s: string, k: nat)
    requires '`' !in s && Clean(s, 0) && k <= |s|
    ensures ControlLen(s[k..]) == 0
  {
    hide ControlBody, HasClosingRun, RunLength;
    if s != "" {
      if k == 0 {
        assert s[0..] == s;
      } else {
        CleanHoldsNone(s[1..], k - 1);
        assert s[1..][k - 1..] == s[k..];
      }
    }
  }

  lemma NotFenced(line: string)
    requires '`' !in line && '~' !in line
    ensures ParseFence(line) == Outside
  {
    var start := SpaceRun(line);
    if start < |line| { assert line[start..][0] == line[start]; }
  }

  lemma NoneAdded(s: string, c: char)
    requires c !in s && c !in "<&lt;"
    ensures c !in LineOut(s, 0)
  {
    hide LineMarks, Expand;
    LineMarksAreMarked(s);
    NoCharInExpand(s, LineMarks(s, 0), c);
  }

  /** A line without backticks and nesting keeps no token. */
  lemma LineHoldsNone(s: string, k: nat)
    requires '`' !in s && Unnested(s) && k <= |LineOut(s, 0)|
    ensures ControlLen(LineOut(s, 0)[k..]) == 0
  {
    hide ControlLen, LineOut, Clean, Covered, Unnested;
    UnnestedIsSimple(s);
    SimpleTokensCovered(s, 0);
    LineStableIff(s);
    NoneAdded(s, '`');
    CleanHoldsNone(LineOut(s, 0), k);
  }

  /** Nothing in the line, before its ending, matches. */
  lemma NoTokenInBody(body: string, out: string, i: nat, j: nat)
    requires '`' !in body && Unnested(body) && i <= j <= |LineOut(body, 0)| <= |out|
    requires out[..|LineOut(body, 0)|] == LineOut(body, 0)
    ensures !IsToken(out[i..j])
  {
    hide IsToken, LineOut, ControlLen, Unnested;
    var x := LineOut(body, 0);
    PrefixSlice(x, out, i, j);
    if IsToken(out[i..j]) {
      TokenShape(out[i..j]);
      LineHoldsNone(body, i);
      ControlLenIff(x[i..], j - i);
    }
  }

  lemma PrefixSlice(x: string, out: string, i: nat, j: nat)
    requires i <= j <= |x| <= |out| && out[..|x|] == x
    ensures out[i..j] == x[i..][..j - i]
  {
    assert forall k | 0 <= k < |x| :: x[k] == out[..|x|][k] == out[k];
  }

  lemma InSlice(s: string, i: nat, j: nat, c: char)
    requires i <= j <= |s|
    ensures c in s[i..j] <==> exists k | i <= k < j :: s[k] == c
  {
    var t := s[i..j];
    if c in t {
      var k :| 0 <= k < |t| && t[k] == c;
      assert s[i + k] == c;
    }
    if k :| i <= k < j && s[k] == c { assert t[k - i] == c; }
  }

  /** A token cannot reach into the ending of a line. */
  lemma TokenEnds(body: string, ending: string, out: string, i: nat, j: nat)
    requires IsEnding(ending) && body + ending <= out && (ending == "" ==> out == body)
    requires i < |body| + |ending| && i <= j <= |out| && '\n' !in out[i..j] && Bracketed(out[i..j])
    ensures j <= |body|
  {
    var n := |body| + |ending|;
    assert out[j - 1] == out[i..j][j - i - 1] == '>';
    InSlice(out, i, j, '\n');
    assert out[..n] == body + ending;
    assert ending != "" ==> out[..n][n - 1] == ending[|ending| - 1] == '\n';
    assert |ending| == 2 ==> out[..n][n - 2] == ending[0] == '\r';
  }

  /** A text without backticks, tildes and nested brackets keeps no control token:
      nothing in it matches the pattern after the escape. */
  lemma {:induction false} NoTokenLeft(text: string, i: nat, j: nat)
    requires '`' !in text && '~' !in text && Unnested(text)
    requires i <= j <= |TextOut(text, Outside)| && '\n' !in TextOut(text, Outside)[i..j]
    ensures !IsToken(TextOut(text, Outside)[i..j])
    decreases |text|
  {
    hide IsToken, TextOut, LineOut, FirstLine, Ending, ParseFence, ControlLen, Unnested, IsEnding, NextFence;
    var out := TextOut(text, Outside);
    if IsToken(out[i..j]) {
      TokenShape(out[i..j]);
      assert text != "";
      var line := FirstLine(text);
      var body, rest, x := Body(line), text[|line|..], LineOut(Body(line), 0);
      FirstOut(text);
      assert body == text[0..|body|] && rest == text[|line|..|text|];
      UnnestedSlice(text, 0, |body|);
      UnnestedSlice(text, |line|, |text|);
      if i >= |x| + |Ending(line)| {
        var n := |x| + |Ending(line)|;
        assert out[n..] == TextOut(rest, Outside) && out[i..j] == out[n..][i - n..j - n];
        NoTokenLeft(rest, i - n, j - n);
      } else {
        TokenEnds(x, Ending(line), out, i, j);
        NoTokenInBody(body, out, i, j);
      }
    }
  }

  /** The first line of an unfenced text: rewritten, with its ending. */
  lemma FirstOut(text: string)
    requires text != "" && '`' !in text && '~' !in text
    ensures var line := FirstLine(text);
            var x, ending, rest := LineOut(Body(line), 0), Ending(line), TextOut(text[|line|..], Outside);
            && TextOut(text, Outside) == x + ending + rest && IsEnding(ending)
            && (ending == "" ==> rest == "")
  {
    hide LineOut, FirstLine, Ending, ParseFence, IsEnding;
    var line := FirstLine(text);
    assert forall c | c in line :: c in text;
    NotFenced(Body(line));
    TextOutLine(text, Outside);
    LastLine(text);
    BodyHasNoNewline(line);
    EndingShape(line);
    if Ending(line) == "" { EmptyOut(); }
  }

  lemma EmptyOut()
    ensures TextOut("", Outside) == ""
  {
  }

  /** The three broadcasts, written out. */
  lemma NoBroadcastLeft(text: string, broadcast: string)
    requires '`' !in text && '~' !in text && Unnested(text)
    requires broadcast == "<!here>" || broadcast == "<!channel>" || broadcast == "<!everyone>"
    ensures !Contains(Neutralize(text), broadcast)
  {
    hide IsToken, TextOut, Unnested;
    var out := Neutralize(text);
    IndexOfIsFirst(out, broadcast);
    var k := IndexOf(out, broadcast);
    if k >= 0 {
      assert out[k..][..|broadcast|] == broadcast == out[k..k + |broadcast|];
      BroadcastIsToken(broadcast);
      NoTokenLeft(text, k, k + |broadcast|);
    }
  }

  lemma BroadcastIsToken(s: string)
    requires s == "<!here>" || s == "<!channel>" || s == "<!everyone>"
    ensures IsToken(s) && '\n' !in s
  {
    hide Matches;
    PatternIs();
    MatchOne(Exactly(s), s);
    assert Matches(PATTERN[if s == "<!here>" then 2 else if s == "<!channel>" then 3 else 4], s);
  }

  /** A token that is the whole text is rewritten. */
  lemma TokenAlone(rest: string)
    requires IsToken("<" + rest) && '\n' !in rest
    ensures Neutralize("<" + rest) == "&lt;" + rest && Mrkdwn("<" + rest, true) == "&lt;" + rest
  {
    hide IsToken, LineOut, TextOut, Mrkdwn, ControlLen, Bracketed;
    var t := "<" + rest;
    assert t[..|t|] == t && t[1..] == rest && t[0] == '<';
    ControlLenIff(t, |t|);
    OneLine(t);
    WholeToken(t);
  }

  /** A text of one line that opens no fence. */
  lemma OneLine(t: string)
    requires t != "" && t[0] == '<' && '\n' !in t
    ensures TextOut(t, Outside) == LineOut(t, 0)
  {
    hide LineOut, TextOut, FirstIndex, ParseFence;
    NoNewline(t);
    RunIsNone(t);
    TextOutLine(t, Outside);
    EmptyOut();
    assert LineOut(t, 0) + "" + "" == LineOut(t, 0);
  }

  lemma NoNewline(t: string)
    requires t != "" && '\n' !in t
    ensures FirstLine(t) == t && Ending(t) == "" && Body(t) == t && t[|t|..] == ""
  {
    hide FirstIndex;
    assert t[|t| - 1] != '\n';
    if |t| >= 2 { assert t[|t| - 2..][1] == t[|t| - 1]; }
  }

  lemma RunIsNone(t: string)
    requires t != "" && t[0] == '<'
    ensures ParseFence(t) == Outside
  {
    assert t[0..] == t;
  }

  lemma EmptyLine()
    ensures LineOut("", 0) == "" && Mrkdwn("", true) == ""
  {
  }

  lemma WholeToken(t: string)
    requires t != "" && ControlLen(t) == |t|
    ensures Mrkdwn(t, true) == "&lt;" + t[1..] && LineOut(t, 0) == "&lt;" + t[1..]
  {
    hide ControlBody, LineOut;
    EmptyLine();
    LineOutToken(t);
    assert t[|t|..] == "" && t[1..|t|] == t[1..];
    assert "&lt;" + t[1..|t|] + "" == "&lt;" + t[1..];
  }
}

/** Placeholder syntax: {{name:modifier}} tokens inside template strings
    (internal/blockkit/placeholder.go). */
module Placeholder {
  import opened Basics
  import opened Contract
  import opened Text

  datatype Token = Token(name: string, modifier: string, part: string)

  const OPEN := "{{"
  const CLOSE := "}}"
  const ITEM := "item"

  predicate KnownModifier(m: string) {
    m == "code" || m == "bold" || m == "hhmm" || m == "rfc3339" || m == "upper" || m == "lower"
  }

  function ParseName(name: string, modifier: string): Option<Token> {
    if name == ITEM then Some(Token(ITEM, modifier, ""))
    else if "item." <= name then
      var part := name[5..];
      if part == "label" || part == "value" then Some(Token(ITEM, modifier, part)) else None
    else if ValidName(name) then Some(Token(name, modifier, ""))
    else None
  }

  function ParseBody(body: string): Option<Token> {
    var colon := FirstIndex(body, ':');
    var name := body[..colon];
    if name == "" then None
    else if colon == |body| then ParseName(name, "")
    else
      var modifier := body[colon + 1..];
      if ':' in modifier || !KnownModifier(modifier) then None else ParseName(name, modifier)
  }

  predicate Blocked(host: Host, value: string) {
    var lower := host.lower(value);
    || Contains(value, "${") || Contains(value, "<%")
    || Contains(lower, "javascript:") || Contains(lower, "<script")
    || Contains(lower, "function(") || Contains(lower, "eval(")
    || Contains(value, "=>")
  }

  /** The scan from one position, as the loop of parsePlaceholders runs it. */
  function ParseFrom(s: string): Option<seq<Token>>
    decreases |s|
  {
    var open := IndexOf(s, OPEN);
    var stray := IndexOf(s, CLOSE);
    if open < 0 then
      if stray >= 0 then None else Some([])
    else if 0 <= stray < open then None
    else
      var close := IndexOf(s[open + 2..], CLOSE);
      if close < 0 then None
      else
        var body := s[open + 2..open + 2 + close];
        if Contains(body, OPEN) || Contains(body, CLOSE) || ParseBody(body).None? then None
        else Prepend([ParseBody(body).value], ParseFrom(s[open + close + 4..]))
  }

  function Parse(host: Host, value: string): Option<seq<Token>> {
    if Blocked(host, value) then None
    else if Count(value, OPEN) != Count(value, CLOSE) then None
    else ParseFrom(value)
  }

  method ParsePlaceholders(host: Host, value: string) returns (tokens: Option<seq<Token>>)
    ensures tokens == Parse(host, value)
  {
    hide IndexOf, Blocked, Count, ParseBody, ParseFrom, Contains, Prepend;
    if Blocked(host, value) || Count(value, OPEN) != Count(value, CLOSE) { return None; }
    var result: seq<Token> := [];
    var start := 0;
    assert value[0..] == value;
    PrependNone(result, ParseFrom(value));
    while start < |value|
      invariant start <= |value|
      invariant ParseFrom(value) == Prepend(result, ParseFrom(value[start..]))
    {
      ParseStepAt(value, start);
      PrependNone(result, None);
      var open := IndexOf(value[start..], OPEN);
      var stray := IndexOf(value[start..], CLOSE);
      if open < 0 {
        if stray >= 0 { return None; }
        return Some(result);
      }
      if 0 <= stray < open { return None; }
      open := open + start;
      var close := IndexOf(value[open + 2..], CLOSE);
      if close < 0 { return None; }
      close := close + open + 2;
      var body := value[open + 2..close];
      if Contains(body, OPEN) || Contains(body, CLOSE) { return None; }
      var token := ParseBody(body);
      if token.None? { return None; }
      PrependTwice(result, [token.value], ParseFrom(value[close + 2..]));
      result := result + [token.value];
      start := close + 2;
    }
    assert value[|value|..] == "";
    ParseStep("");
    PrependNone(result, None);
    return Some(result);
  }

  /** One loop step in the positions of the whole string. */
  lemma ParseStepAt(value: string, start: nat)
    requires start <= |value|
    ensures ParseFrom(value[start..]) ==
      var open := IndexOf(value[start..], OPEN);
      var stray := IndexOf(value[start..], CLOSE);
      if open < 0 then if stray >= 0 then None else Some([])
      else if 0 <= stray < open then None
      else
        var close := IndexOf(value[open + start + 2..], CLOSE);
        if close < 0 then None
        else
          var body := value[open + start + 2..close + open + start + 2];
          if Contains(body, OPEN) || Contains(body, CLOSE) || ParseBody(body).None? then None
          else Prepend([ParseBody(body).value], ParseFrom(value[close + open + start + 4..]))
  {
    hide IndexOf, Contains, ParseBody, ParseFrom, Prepend;
    var s := value[start..];
    ParseStep(s);
    var open := IndexOf(s, OPEN);
    if open >= 0 {
      SliceOf(value, start, open + 2);
      var close := IndexOf(s[open + 2..], CLOSE);
      if close >= 0 {
        SliceOf(value, start, open + close + 4);
        assert s[open + 2..open + 2 + close] == value[open + start + 2..close + open + start + 2];
      }
    }
  }

  lemma SliceOf(s: string, i: nat, n: nat)
    requires i + n <= |s|
    ensures s[i..][n..] == s[i + n..]
  {
  }

  lemma ParseStep(s: string)
    ensures ParseFrom(s) ==
      var open := IndexOf(s, OPEN);
      var stray := IndexOf(s, CLOSE);
      if open < 0 then if stray >= 0 then None else Some([])
      else if 0 <= stray < open then None
      else
        var close := IndexOf(s[open + 2..], CLOSE);
        if close < 0 then None
        else
          var body := s[open + 2..open + 2 + close];
          if Contains(body, OPEN) || Contains(body, CLOSE) || ParseBody(body).None? then None
          else Prepend([ParseBody(body).value], ParseFrom(s[open + close + 4..]))
  {
    hide IndexOf, Contains, ParseBody, Prepend;
  }

  // ---- The decomposition -------------------------------------------------

  /** A template string as literals around placeholder bodies. */
  datatype Pieces =
    | Tail(lit: string)
    | Hole(lit: string, body: string, rest: Pieces)

  function Flatten(p: Pieces): string {
    match p
    case Tail(lit) => lit
    case Hole(lit, body, rest) => lit + OPEN + body + CLOSE + Flatten(rest)
  }

  predicate Braceless(s: string) {
    !Contains(s, OPEN) && !Contains(s, CLOSE)
  }

  /** The grammar of accepted strings, apart from blocked fragments. */
  predicate WellFormed(p: Pieces) {
    match p
    case Tail(lit) => Braceless(lit)
    case Hole(lit, body, rest) =>
      && Braceless(lit) && (lit != "" ==> lit[|lit| - 1] != '{')
      && ParseBody(body).Some? && WellFormed(rest)
  }

  function Tokens(p: Pieces): seq<Token>
    requires WellFormed(p)
  {
    match p
    case Tail(_) => []
    case Hole(_, body, rest) => [ParseBody(body).value] + Tokens(rest)
  }

  function Split(s: string): Pieces
    decreases |s|
  {
    var open := IndexOf(s, OPEN);
    if open < 0 then Tail(s)
    else
      var close := IndexOf(s[open + 2..], CLOSE);
      if close < 0 then Tail(s)
      else Hole(s[..open], s[open + 2..open + 2 + close], Split(s[open + close + 4..]))
  }

  // ---- Scanning facts ----------------------------------------------------

  /** A two-character prefix test at one position. */
  lemma DoubleAt(s: string, c: char, k: nat)
    requires k <= |s|
    ensures [c, c] <= s[k..] <==> k + 1 < |s| && s[k] == c && s[k + 1] == c
  {
  }

  /** Where the first double character lies, read off the characters. */
  predicate FirstDouble(s: string, c: char, n: int) {
    && (n == -1 || 0 <= n < |s| - 1)
    && (n >= 0 ==> s[n] == c && s[n + 1] == c)
    && forall k {:trigger s[k]} | 0 <= k < |s| - 1 && (n < 0 || k < n) :: s[k] != c || s[k + 1] != c
  }

  lemma IndexIsFirst(s: string, c: char)
    ensures FirstDouble(s, c, IndexOf(s, [c, c]))
  {
    hide IndexOf;
    var i := IndexOf(s, [c, c]);
    IndexOfIsFirst(s, [c, c]);
    if i >= 0 {
      DoubleAt(s, c, i);
    }
    forall k | 0 <= k < |s| - 1 && (i < 0 || k < i)
      ensures s[k] != c || s[k + 1] != c
    {
      DoubleAt(s, c, k);
    }
  }

  lemma IndexIsDouble(s: string, c: char, n: int)
    requires FirstDouble(s, c, n)
    ensures IndexOf(s, [c, c]) == n
  {
    hide IndexOf;
    IndexIsFirst(s, c);
  }

  // ---- The grammar, both directions, and uniqueness ----------------------

  predicate NoBrace(s: string) {
    forall i | 0 <= i < |s| :: s[i] != '{' && s[i] != '}'
  }

  lemma NameHasNoBrace(name: string, modifier: string)
    requires ParseName(name, modifier).Some?
    ensures NoBrace(name)
  {
    if name != ITEM && "item." <= name {
      var part := name[5..];
      assert NoBrace(part);
      assert forall i | 5 <= i < |name| :: name[i] == part[i - 5];
    }
  }

  lemma BodyHasNoBrace(body: string)
    requires ParseBody(body).Some?
    ensures NoBrace(body)
  {
    hide ParseName, FirstIndex, KnownModifier;
    var colon := FirstIndex(body, ':');
    var name := body[..colon];
    if colon == |body| {
      assert name == body;
      NameHasNoBrace(name, "");
    } else {
      var modifier := body[colon + 1..];
      NameHasNoBrace(name, modifier);
      ModifierHasNoBrace(modifier);
      forall i | 0 <= i < |body|
        ensures body[i] != '{' && body[i] != '}'
      {
        assert i < colon ==> body[i] == name[i];
        assert i > colon ==> body[i] == modifier[i - colon - 1];
      }
    }
  }

  lemma ModifierHasNoBrace(modifier: string)
    requires KnownModifier(modifier)
    ensures NoBrace(modifier)
  {
  }

  lemma BracelessIs(s: string)
    ensures Braceless(s) <==>
      forall k {:trigger s[k]} | 0 <= k < |s| - 1 :: !(s[k] == '{' && s[k + 1] == '{')
        && !(s[k] == '}' && s[k + 1] == '}')
  {
    hide IndexOf;
    IndexIsFirst(s, '{');
    IndexIsFirst(s, '}');
  }

  lemma HoleChars(lit: string, body: string, rest: string)
    ensures var s := lit + OPEN + body + CLOSE + rest;
            && |s| == |lit| + |body| + |rest| + 4
            && (forall k {:trigger s[k]} | 0 <= k < |lit| + |body| + 4 ::
                  s[k] == if k < |lit| then lit[k] else if k < |lit| + 2 then '{'
                          else if k < |lit| + 2 + |body| then body[k - |lit| - 2] else '}')
  {
  }

  lemma HoleSlices(lit: string, body: string, rest: string)
    ensures var s := lit + OPEN + body + CLOSE + rest;
            && s[..|lit|] == lit && s[|lit| + 2..] == body + CLOSE + rest
            && s[|lit| + 2..|lit| + 2 + |body|] == body
            && s[|lit| + |body| + 4..] == rest
  {
  }

  /** The front of a flattened hole: the first open marker is the hole's, no
      close marker precedes it, and the first close marker after it ends the body. */
  lemma HoleScan(lit: string, body: string, rest: string)
    requires Braceless(lit) && (lit != "" ==> lit[|lit| - 1] != '{') && NoBrace(body)
    ensures var s := lit + OPEN + body + CLOSE + rest;
            && IndexOf(s, OPEN) == |lit|
            && IndexOf(s, CLOSE) == |lit| + 2 + |body|
            && IndexOf(body + CLOSE + rest, CLOSE) == |body|
  {
    hide IndexOf;
    var s, t := lit + OPEN + body + CLOSE + rest, "" + OPEN + body + CLOSE + rest;
    BracelessIs(lit);
    HoleChars(lit, body, rest);
    IndexIsDouble(s, '{', |lit|);
    IndexIsDouble(s, '}', |lit| + 2 + |body|);
    BodyScan(body, rest);
  }

  lemma BodyScan(body: string, rest: string)
    requires NoBrace(body)
    ensures IndexOf(body + CLOSE + rest, CLOSE) == |body|
  {
    hide IndexOf;
    var t := body + CLOSE + rest;
    assert forall k {:trigger t[k]} | 0 <= k < |body| + 2 :: t[k] == if k < |body| then body[k] else '}';
    IndexIsDouble(t, '}', |body|);
  }

  lemma NoBraceIsBraceless(s: string)
    requires NoBrace(s)
    ensures Braceless(s)
  {
    BracelessIs(s);
  }

  lemma HoleStep(lit: string, body: string, f: string)
    requires Braceless(lit) && (lit != "" ==> lit[|lit| - 1] != '{') && ParseBody(body).Some?
    ensures var s := lit + OPEN + body + CLOSE + f;
            ParseFrom(s) == Prepend([ParseBody(body).value], ParseFrom(f)) && Split(s) == Hole(lit, body, Split(f))
  {
    hide IndexOf, ParseBody, ParseFrom, Prepend;
    var s := lit + OPEN + body + CLOSE + f;
    ParseStep(s);
    BodyHasNoBrace(body);
    NoBraceIsBraceless(body);
    HoleScan(lit, body, f);
    HoleSlices(lit, body, f);
  }

  /** Accepted strings parse to the tokens of their decomposition, and the
      scanner finds exactly that decomposition. */
  lemma {:induction false} FlattenParses(p: Pieces)
    requires WellFormed(p)
    ensures ParseFrom(Flatten(p)) == Some(Tokens(p)) && Split(Flatten(p)) == p
  {
    hide IndexOf, ParseBody, ParseFrom, Split;
    match p
    case Tail(lit) => TailStep(lit);
    case Hole(lit, body, rest) =>
      FlattenParses(rest);
      HoleStep(lit, body, Flatten(rest));
  }

  lemma TailStep(lit: string)
    requires Braceless(lit)
    ensures ParseFrom(lit) == Some([]) && Split(lit) == Tail(lit)
  {
  }

  lemma ParsedStep(s: string) returns (open: nat, close: nat)
    requires ParseFrom(s).Some? && IndexOf(s, OPEN) >= 0
    ensures open + close + 4 <= |s|
    ensures IndexOf(s, OPEN) == open && IndexOf(s[open + 2..], CLOSE) == close && !(0 <= IndexOf(s, CLOSE) < open)
    ensures ParseBody(s[open + 2..open + 2 + close]).Some? && ParseFrom(s[open + close + 4..]).Some?
    ensures ParseFrom(s).value == [ParseBody(s[open + 2..open + 2 + close]).value] +
            ParseFrom(s[open + close + 4..]).value
    ensures Split(s) == Hole(s[..open], s[open + 2..open + 2 + close], Split(s[open + close + 4..]))
  {
    hide IndexOf, ParseBody, ParseFrom;
    ParseStep(s);
    open := IndexOf(s, OPEN);
    close := IndexOf(s[open + 2..], CLOSE);
  }

  lemma {:induction false} ParsedIsFlatten(s: string)
    requires ParseFrom(s).Some?
    ensures WellFormed(Split(s)) && Flatten(Split(s)) == s && Tokens(Split(s)) == ParseFrom(s).value
    decreases |s|
  {
    hide IndexOf, ParseBody, ParseFrom, Split;
    if IndexOf(s, OPEN) >= 0 {
      var open, close := ParsedStep(s);
      ParsedIsFlatten(s[open + close + 4..]);
      LiteralBeforeOpen(s);
      IndexOfIsFirst(s, OPEN);
      IndexOfIsFirst(s[open + 2..], CLOSE);
      Reassemble(s, open, close);
    } else {
      ParseStep(s);
      TailStep(s);
    }
  }

  lemma Reassemble(s: string, open: nat, close: nat)
    requires open + 2 <= |s| && OPEN <= s[open..]
    requires open + close + 4 <= |s| && CLOSE <= s[open + 2..][close..]
    ensures s == s[..open] + OPEN + s[open + 2..open + 2 + close] + CLOSE + s[open + close + 4..]
  {
    assert s[open..open + 2] == OPEN;
    assert s[open + 2..][close..] == s[open + 2 + close..];
    assert s[open + 2 + close..open + close + 4] == CLOSE;
  }

  lemma LiteralBeforeOpen(s: string)
    requires var open, stray := IndexOf(s, OPEN), IndexOf(s, CLOSE);
             open >= 0 && !(0 <= stray < open)
    ensures var lit := s[..IndexOf(s, OPEN)];
            Braceless(lit) && (lit != "" ==> lit[|lit| - 1] != '{')
  {
    hide IndexOf;
    IndexIsFirst(s, '{');
    IndexIsFirst(s, '}');
    var lit := s[..IndexOf(s, OPEN)];
    assert forall k | 0 <= k < |lit| :: lit[k] == s[k];
    BracelessIs(lit);
  }

  // ---- The brace count never adds a rejection ----------------------------

  lemma CountStep(s: string, sub: string, n: nat)
    requires sub != "" && IndexOf(s, sub) == n
    ensures Count(s, sub) == 1 + Count(s[n + |sub|..], sub)
  {
  }

  /** A prefix without the marker's character is transparent to counting. */
  lemma CountSkip(a: string, rest: string, c: char)
    requires c !in a
    ensures Count(a + rest, [c, c]) == Count(rest, [c, c])
  {
    hide IndexOf;
    var s := a + rest;
    var n := IndexOf(rest, [c, c]);
    IndexIsFirst(rest, c);
    forall k | 0 <= k < |s|
      ensures s[k] == if k < |a| then a[k] else rest[k - |a|]
    {
    }
    assert forall k | 0 <= k < |a| :: a[k] in a;
    IndexIsDouble(s, c, if n < 0 then -1 else |a| + n);
    if n >= 0 {
      assert s[|a| + n + 2..] == rest[n + 2..];
    }
  }

  lemma {:induction false} CountsAgree(p: Pieces)
    requires WellFormed(p)
    ensures Count(Flatten(p), OPEN) == |Tokens(p)| == Count(Flatten(p), CLOSE)
  {
    hide IndexOf, ParseBody;
    match p
    case Tail(lit) =>
      NoCount(lit, OPEN);
      NoCount(lit, CLOSE);
    case Hole(lit, body, rest) =>
      CountsAgree(rest);
      BodyHasNoBrace(body);
      var f := Flatten(rest);
      var s := lit + OPEN + body + CLOSE + f;
      HoleScan(lit, body, f);
      HoleSlices(lit, body, f);
      CountStep(s, OPEN, |lit|);
      CountSkip(body + CLOSE, f, '{');
      CountStep(s, CLOSE, |lit| + 2 + |body|);
  }

  lemma NoCount(s: string, sub: string)
    requires sub != "" && !Contains(s, sub)
    ensures Count(s, sub) == 0
  {
  }

  /** A string is accepted exactly when it holds no blocked fragment and has a
      decomposition; parsing returns that decomposition's tokens in order. */
  lemma ParseIff(host: Host, value: string)
    ensures Parse(host, value).Some? <==>
            !Blocked(host, value) && exists p :: WellFormed(p) && Flatten(p) == value
    ensures Parse(host, value).Some? ==>
            var p := Split(value);
            WellFormed(p) && Flatten(p) == value && Parse(host, value).value == Tokens(p)
  {
    hide Blocked, ParseFrom, Count;
    if ParseFrom(value).Some? {
      ParsedIsFlatten(value);
      CountsAgree(Split(value));
    }
    if p :| WellFormed(p) && Flatten(p) == value {
      FlattenParses(p);
      CountsAgree(p);
    }
  }

  /** Decompositions are unique. */
  lemma SplitUnique(p: Pieces, q: Pieces)
    requires WellFormed(p) && WellFormed(q) && Flatten(p) == Flatten(q)
    ensures p == q
  {
    FlattenParses(p);
    FlattenParses(q);
  }
}

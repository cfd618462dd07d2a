/** What a template string says: which strings are accepted, and which text stands
    in the place of each token (internal/blockkit/placeholder.go, escape.go). */
module Printed {
  import opened Basics
  import opened Contract
  import opened Text
  import opened Placeholder
  import opened Render
  import ControlTokens
  import Escape
  import EscapeLaws

  // ---- Tokens as they are written ----------------------------------------

  /** What a token names: the item of the enclosing region, a half of its pair,
      or an input. */
  datatype Source = TheItem | TheLabel | TheValue | TheInput(name: string)

  function Words(source: Source): string {
    match source
    case TheItem => "item"
    case TheLabel => "item.label"
    case TheValue => "item.value"
    case TheInput(name) => name
  }

  function Spelled(source: Source, modifier: string): string {
    if modifier == "" then Words(source) else Words(source) + ":" + modifier
  }

  predicate Proper(source: Source, modifier: string) {
    && modifier in {"", "code", "bold", "hhmm", "rfc3339", "upper", "lower"}
    && (source.TheInput? ==>
          source.name !in {"", "item"} && forall c | c in source.name :: 'a' <= c <= 'z' || '0' <= c <= '9' || c == '_')
  }

  function Meant(source: Source, modifier: string): Token {
    match source
    case TheItem => Token("item", modifier, "")
    case TheLabel => Token("item", modifier, "label")
    case TheValue => Token("item", modifier, "value")
    case TheInput(name) => Token(name, modifier, "")
  }

  lemma FirstAt(s: string, c: char, n: nat)
    requires n <= |s| && c !in s[..n] && (n < |s| ==> s[n] == c)
    ensures FirstIndex(s, c) == n
  {
    hide FirstIndex;
    assert forall k | 0 <= k < n :: s[k] == s[..n][k];
  }

  lemma WordsMean(source: Source, modifier: string)
    requires Proper(source, modifier)
    ensures ':' !in Words(source) && Words(source) != ""
    ensures ParseName(Words(source), modifier) == Some(Meant(source, modifier))
  {
    match source
    case TheItem =>
    case TheLabel => assert "item.label"[5..] == "label";
    case TheValue => assert "item.value"[5..] == "value";
    case TheInput(name) =>
      assert forall i | 0 <= i < |name| :: name[i] in name;
      assert |name| > 4 ==> name[4] != '.';
  }

  lemma KnownIs(modifier: string)
    ensures modifier in {"", "code", "bold", "hhmm", "rfc3339", "upper", "lower"} <==>
            modifier == "" || KnownModifier(modifier)
    ensures KnownModifier(modifier) ==> ':' !in modifier && modifier != ""
  {
  }

  lemma SplitAt(name: string, modifier: string)
    ensures var body := name + ":" + modifier;
            body[..|name|] == name && body[|name|] == ':' && body[|name| + 1..] == modifier
  {
  }

  lemma SpelledMeans(source: Source, modifier: string)
    requires Proper(source, modifier)
    ensures ParseBody(Spelled(source, modifier)) == Some(Meant(source, modifier))
  {
    hide ParseName, FirstIndex;
    WordsMean(source, modifier);
    var body, name := Spelled(source, modifier), Words(source);
    hide Meant, Proper, KnownModifier, Words;
    KnownIs(modifier);
    SplitAt(name, modifier);
    if modifier == "" { assert name[..|name|] == name; }
    FirstAt(body, ':', |name|);
  }

  lemma NameIs(name: string, modifier: string) returns (source: Source)
    requires ParseName(name, modifier).Some? && name != ""
    ensures Words(source) == name
    ensures source.TheInput? ==>
              name != "item" && forall c | c in name :: 'a' <= c <= 'z' || '0' <= c <= '9' || c == '_'
  {
    if name == "item" {
      source := TheItem;
    } else if "item." <= name {
      assert name == "item." + name[5..];
      source := if name[5..] == "label" then TheLabel else TheValue;
    } else {
      source := TheInput(name);
    }
  }

  lemma BodyIs(body: string) returns (source: Source, modifier: string)
    requires ParseBody(body).Some?
    ensures Proper(source, modifier) && body == Spelled(source, modifier)
  {
    hide ParseName, FirstIndex;
    var colon := FirstIndex(body, ':');
    var name := body[..colon];
    modifier := if colon == |body| then "" else body[colon + 1..];
    source := NameIs(name, modifier);
    assert body == if colon == |body| then name else name + ":" + modifier;
  }

  // ---- Lines as they are written -----------------------------------------

  /** A text with tokens in it. */
  datatype Line = End(lit: string) | Shows(lit: string, source: Source, modifier: string, rest: Line)

  function Spell(line: Line): string {
    match line
    case End(lit) => lit
    case Shows(lit, source, modifier, rest) => lit + "{{" + Spelled(source, modifier) + "}}" + Spell(rest)
  }

  /** No literal holds a double brace, or ends where one would begin. */
  predicate Good(line: Line) {
    match line
    case End(lit) => Braceless(lit)
    case Shows(lit, source, modifier, rest) =>
      Braceless(lit) && (lit != "" ==> lit[|lit| - 1] != '{') && Proper(source, modifier) && Good(rest)
  }

  function PiecesOf(line: Line): Pieces {
    match line
    case End(lit) => Tail(lit)
    case Shows(lit, source, modifier, rest) => Hole(lit, Spelled(source, modifier), PiecesOf(rest))
  }

  lemma {:induction false} GoodIsWellFormed(line: Line)
    requires Good(line)
    ensures WellFormed(PiecesOf(line)) && Flatten(PiecesOf(line)) == Spell(line)
  {
    hide ParseBody, Spelled, Proper;
    match line
    case End(_) =>
    case Shows(_, source, modifier, rest) =>
      SpelledMeans(source, modifier);
      GoodIsWellFormed(rest);
  }

  lemma {:induction false} LineOf(p: Pieces) returns (line: Line)
    requires WellFormed(p)
    ensures Good(line) && PiecesOf(line) == p
  {
    hide ParseBody, Spelled, Proper;
    match p
    case Tail(lit) => line := End(lit);
    case Hole(lit, body, rest) =>
      var source, modifier := BodyIs(body);
      var tail := LineOf(rest);
      line := Shows(lit, source, modifier, tail);
  }

  /** The fragments no template string may hold, as written and after lowering. */
  const FRAGMENTS := ["${", "<%", "=>"]
  const LOWERED := ["javascript:", "<script", "function(", "eval("]

  predicate Holds(s: string, fragment: string) {
    exists i {:trigger s[i..]} | 0 <= i <= |s| :: fragment <= s[i..]
  }

  lemma HoldsIff(s: string, fragment: string)
    ensures Contains(s, fragment) <==> Holds(s, fragment)
  {
    hide IndexOf;
    IndexOfIsFirst(s, fragment);
  }

  lemma BlockedIff(host: Host, s: string)
    ensures Blocked(host, s) <==>
            (exists f | f in FRAGMENTS :: Holds(s, f)) || (exists f | f in LOWERED :: Holds(host.lower(s), f))
  {
    hide Contains, Holds;
    forall f ensures Contains(s, f) == Holds(s, f) && Contains(host.lower(s), f) == Holds(host.lower(s), f) {
      HoldsIff(s, f);
      HoldsIff(host.lower(s), f);
    }
    assert forall f :: f in FRAGMENTS <==> f == FRAGMENTS[0] || f == FRAGMENTS[1] || f == FRAGMENTS[2];
    assert forall f :: f in LOWERED <==> f == LOWERED[0] || f == LOWERED[1] || f == LOWERED[2] || f == LOWERED[3];
  }

  /** A string is accepted exactly when it is a line as written above and holds no
      blocked fragment; its tokens are those of the line. */
  lemma AcceptedIff(host: Host, s: string)
    ensures Parse(host, s).Some? <==>
            && (forall f | f in FRAGMENTS :: !Holds(s, f)) && (forall f | f in LOWERED :: !Holds(host.lower(s), f))
            && exists line :: Good(line) && Spell(line) == s
  {
    hide Blocked, Parse, Holds, FRAGMENTS, LOWERED;
    BlockedIff(host, s);
    if Parse(host, s).Some? {
      ParseIff(host, s);
      var line := LineOf(Split(s));
      GoodIsWellFormed(line);
      assert Spell(line) == s;
    }
    if line :| !Blocked(host, s) && Good(line) && Spell(line) == s { LineParses(host, line); }
  }

  lemma LineParses(host: Host, line: Line)
    requires Good(line) && !Blocked(host, Spell(line))
    ensures Parse(host, Spell(line)).Some? && Split(Spell(line)) == PiecesOf(line)
  {
    hide Blocked, ParseFrom, Count;
    GoodIsWellFormed(line);
    FlattenParses(PiecesOf(line));
    CountsAgree(PiecesOf(line));
  }

  // ---- What stands in the place of a token -------------------------------

  /** The value a token names and the type it is rendered as. */
  function Named(source: Source, values: Values, ctx: Context): Option<(Value, InputType)> {
    match source
    case TheInput(name) => if name in values then Some((values[name].value, values[name].input.kind)) else None
    case TheItem => if ctx.Item? then Some((ctx.item, ctx.kind)) else None
    case TheLabel =>
      if ctx.Item? && ctx.item.OnePair? then Some((Contract.Text(ctx.item.pair.labelText), TextInput)) else None
    case TheValue =>
      if ctx.Item? && ctx.item.OnePair? then Some((Contract.Text(ctx.item.pair.valueText), TextInput)) else None
  }

  /** The fallback knows neither slots nor the two mrkdwn modifiers. */
  function Shown(host: Host, r: Renderer, source: Source, modifier: string, values: Values, ctx: Context,
                 slot: TextSlot): Option<string> {
    var named := Named(source, values, ctx);
    if named.None? then None
    else
      var (v, kind) := named.value;
      if r.Compiled? then RenderTyped(host, v, kind, modifier, slot)
      else RenderTyped(host, v, kind, if modifier in {"code", "bold"} then "" else modifier, PlainText)
  }

  lemma TokenShown(host: Host, r: Renderer, source: Source, modifier: string, values: Values, ctx: Context,
                   slot: TextSlot)
    requires Proper(source, modifier)
    ensures RenderToken(host, r, Meant(source, modifier), values, ctx, slot) ==
            Shown(host, r, source, modifier, values, ctx, slot)
  {
    hide RenderTyped;
  }

  function Print(host: Host, r: Renderer, line: Line, values: Values, ctx: Context, slot: TextSlot): Option<string> {
    match line
    case End(lit) => Some(Literal(host, r, lit))
    case Shows(lit, source, modifier, rest) =>
      var shown := Shown(host, r, source, modifier, values, ctx, slot);
      var tail := Print(host, r, rest, values, ctx, slot);
      if shown.None? || tail.None? then None else Some(Literal(host, r, lit) + shown.value + tail.value)
  }

  /** A line prints its literals and, for each token, the value it names. */
  lemma LinePrints(host: Host, r: Renderer, line: Line, values: Values, ctx: Context, slot: TextSlot)
    requires Good(line) && !Blocked(host, Spell(line))
    ensures RenderText(host, r, Spell(line), values, ctx, slot) == Print(host, r, line, values, ctx, slot)
  {
    hide Parse, Split, Blocked, Print, RenderPieces;
    LineParses(host, line);
    PiecesPrint(host, r, line, values, ctx, slot);
  }

  lemma {:induction false} PiecesPrint(host: Host, r: Renderer, line: Line, values: Values, ctx: Context,
                                       slot: TextSlot)
    requires Good(line)
    ensures RenderPieces(host, r, PiecesOf(line), values, ctx, slot) == Print(host, r, line, values, ctx, slot)
  {
    hide ParseBody, RenderToken, Shown, Literal, Spelled, Proper;
    match line
    case End(_) =>
    case Shows(_, source, modifier, rest) =>
      SpelledMeans(source, modifier);
      TokenShown(host, r, source, modifier, values, ctx, slot);
      PiecesPrint(host, r, rest, values, ctx, slot);
  }

  /** A literal is printed as it is; in the fallback without Slack markup and with
      its control tokens neutralized. */
  lemma LiteralsPrint(host: Host, lit: string, values: Values, ctx: Context, slot: TextSlot)
    requires Braceless(lit) && !Blocked(host, lit)
    ensures RenderText(host, Compiled, lit, values, ctx, slot) == Some(lit)
    ensures RenderText(host, Fallback, lit, values, ctx, slot) == Some(Escape.Neutralize(host.strip(lit)))
  {
    hide Blocked, RenderText;
    PlainTextRenders(host, Compiled, lit, values, ctx, slot);
    PlainTextRenders(host, Fallback, lit, values, ctx, slot);
  }

  // ---- Modifiers, slots and types ----------------------------------------

  /** Text of the five text types, without a modifier. */
  lemma TextShown(host: Host, t: string, kind: InputType)
    requires IsStringType(kind)
    ensures var v := Contract.Text(t);
            && RenderTyped(host, v, kind, "", PlainText) ==
               Some(if kind.EnumInput? then t else Escape.Neutralize(t))
            && (kind.TextInput? || kind.LongTextInput? ==>
                  RenderTyped(host, v, kind, "", Markdown) == Some(Escape.Mrkdwn(t, true)))
            && (kind.IdInput? ==> RenderTyped(host, v, kind, "", Markdown) == Some(Escape.Mrkdwn(t, false)))
            && (kind.EnumInput? ==> RenderTyped(host, v, kind, "", Markdown) == Some(t))
            && (kind.CodeInput? ==>
                  RenderTyped(host, v, kind, "", Markdown) == Some("```" + Escape.Neutralize(t) + "```"))
  {
  }

  /** Times and numbers, in either slot: two layouts for a time, of which the long
      one is the default. */
  lemma TimeShown(host: Host, at: int, slot: TextSlot)
    ensures RenderTyped(host, Stamp(at), TimestampInput, "hhmm", slot) == Some(host.formatTime(at, "15:04"))
    ensures forall m | m in {"", "rfc3339"} ::
              RenderTyped(host, Stamp(at), TimestampInput, m, slot) ==
              Some(host.formatTime(at, "2006-01-02T15:04:05Z07:00"))
    ensures forall n :: RenderTyped(host, n, NumberInput, "", slot) == Some(if n.Nil? then "" else host.sprint(n))
  {
  }

  /** The other modifiers enclose, choose the layout of a time, or do nothing; nil
      prints nothing. */
  lemma ModifiersShow(host: Host, v: Value, kind: InputType, slot: TextSlot)
    requires RenderTyped(host, v, kind, "", slot).Some?
    ensures v.Nil? ==> forall m :: RenderTyped(host, v, kind, m, slot) == Some("")
    ensures !v.Nil? ==>
              var plain := RenderTyped(host, v, kind, "", slot).value;
              && RenderTyped(host, v, kind, "code", slot) == Some("`" + plain + "`")
              && RenderTyped(host, v, kind, "bold", slot) == Some("*" + plain + "*")
              && RenderTyped(host, v, kind, "rfc3339", slot) == Some(plain)
              && (!v.Stamp? ==> RenderTyped(host, v, kind, "hhmm", slot) == Some(plain))
  {
    hide Escape.Neutralize, Escape.Mrkdwn;
  }

  /** The two case modifiers come before the escaping. */
  lemma CaseShown(host: Host, v: Value, kind: InputType, slot: TextSlot)
    requires RenderTyped(host, v, kind, "", slot).Some?
    ensures v.Text? && !kind.NumberInput? ==>
              && RenderTyped(host, v, kind, "upper", slot) ==
                 RenderTyped(host, Contract.Text(host.upper(v.text)), kind, "", slot)
              && RenderTyped(host, v, kind, "lower", slot) ==
                 RenderTyped(host, Contract.Text(host.lower(v.text)), kind, "", slot)
    ensures !v.Nil? && (kind.TimestampInput? || kind.NumberInput?) ==>
              var plain := RenderTyped(host, v, kind, "", slot).value;
              && RenderTyped(host, v, kind, "upper", slot) == Some(host.upper(plain))
              && RenderTyped(host, v, kind, "lower", slot) == Some(host.lower(plain))
  {
    hide Escape.Neutralize, Escape.Mrkdwn;
  }

  // ---- Texts that print themselves ---------------------------------------

  /** No stretch of the text is a control token. */
  ghost predicate TokenFree(s: string) {
    forall i, j | 0 <= i <= j <= |s| :: !ControlTokens.IsToken(s[i..j])
  }

  lemma TokenFreeUnchanged(s: string)
    requires TokenFree(s)
    ensures Escape.Neutralize(s) == s
  {
    hide ControlTokens.IsToken, Escape.Marks, Escape.ControlLen, Escape.Expand;
    var m := Escape.Marks(s, Escape.Outside);
    forall i | 0 <= i < |s|
      ensures !m[i]
    {
      forall n | 0 <= n <= |s[i..]| ensures !ControlTokens.IsToken(s[i..][..n]) {
        assert s[i..][..n] == s[i..i + n];
      }
      ControlTokens.ControlLenNone(s[i..]);
      if m[i] { EscapeLaws.MarksAreTokens(s, Escape.Outside, i); }
    }
    assert m == Escape.Plain(|s|);
    Escape.ExpandPlain(s);
  }

  /** The text a token stands for. */
  function Said(source: Source, values: Values, ctx: Context): Option<string> {
    match source
    case TheLabel => if ctx.Item? && ctx.item.OnePair? then Some(ctx.item.pair.labelText) else None
    case TheValue => if ctx.Item? && ctx.item.OnePair? then Some(ctx.item.pair.valueText) else None
    case TheItem => if ctx.Item? && ctx.item.Text? && IsStringType(ctx.kind) then Some(ctx.item.text) else None
    case TheInput(name) =>
      if name in values && values[name].value.Text? && IsStringType(values[name].input.kind) then
        Some(values[name].value.text)
      else None
  }

  /** Every token stands for a text without control tokens. */
  ghost predicate SaysPlainly(line: Line, values: Values, ctx: Context) {
    match line
    case End(_) => true
    case Shows(_, source, modifier, rest) =>
      && modifier == "" && Said(source, values, ctx).Some? && TokenFree(Said(source, values, ctx).value)
      && SaysPlainly(rest, values, ctx)
  }

  function Substituted(line: Line, values: Values, ctx: Context): string {
    match line
    case End(lit) => lit
    case Shows(lit, source, modifier, rest) =>
      lit + (if Said(source, values, ctx).Some? then Said(source, values, ctx).value else "") +
      Substituted(rest, values, ctx)
  }

  /** In plain text such a line prints itself with each token replaced by the text
      it stands for. */
  lemma PrintsItself(host: Host, line: Line, values: Values, ctx: Context)
    requires Good(line) && !Blocked(host, Spell(line)) && SaysPlainly(line, values, ctx)
    ensures RenderText(host, Compiled, Spell(line), values, ctx, PlainText) == Some(Substituted(line, values, ctx))
  {
    hide RenderText, Blocked;
    LinePrints(host, Compiled, line, values, ctx, PlainText);
    PrintSubstitutes(host, line, values, ctx);
  }

  lemma {:induction false} PrintSubstitutes(host: Host, line: Line, values: Values, ctx: Context)
    requires SaysPlainly(line, values, ctx)
    ensures Print(host, Compiled, line, values, ctx, PlainText) == Some(Substituted(line, values, ctx))
  {
    hide Said, Shown, TokenFree;
    match line
    case End(_) =>
    case Shows(lit, source, _, rest) =>
      SaidShown(host, source, values, ctx);
      PrintSubstitutes(host, rest, values, ctx);
  }

  lemma SaidShown(host: Host, source: Source, values: Values, ctx: Context)
    requires Said(source, values, ctx).Some? && TokenFree(Said(source, values, ctx).value)
    ensures Shown(host, Compiled, source, "", values, ctx, PlainText) == Said(source, values, ctx)
  {
    hide RenderTyped, TokenFree;
    var text := Said(source, values, ctx).value;
    TokenFreeUnchanged(text);
    TextShown(host, text, Named(source, values, ctx).value.1);
  }

  /** The text that shows one pair of a confirmation
      (internal/adapter/slack/views/templates/confirmation/prompt.json). */
  const PAIR_LINE := Shows("", TheLabel, "", Shows(": ", TheValue, "", End("")))

  lemma PairLineGood()
    ensures Good(PAIR_LINE)
  {
    hide Contains, Braceless;
    BracelessIs("");
    BracelessIs(": ");
  }

  lemma SpellTwo(a: string, first: Source, b: string, second: Source, c: string)
    ensures Spell(Shows(a, first, "", Shows(b, second, "", End(c)))) ==
            a + ("{{" + Words(first) + "}}") + (b + ("{{" + Words(second) + "}}") + c)
  {
    hide Words;
    var rest := Spell(Shows(b, second, "", End(c)));
    assert Spell(End(c)) == c;
    assert rest == b + "{{" + Words(second) + "}}" + c;
    assert rest == b + ("{{" + Words(second) + "}}") + c;
  }

  lemma PairLineSpells()
    ensures Spell(PAIR_LINE) == "{{item.label}}: {{item.value}}"
  {
    hide Spell;
    SpellTwo("", TheLabel, ": ", TheValue, "");
    assert "{{" + "item.label" + "}}" == "{{item.label}}";
    assert "{{" + "item.value" + "}}" == "{{item.value}}";
    assert "" + "{{item.label}}" + (": " + "{{item.value}}" + "") == "{{item.label}}: {{item.value}}";
  }

  lemma PairLineSays(values: Values, pair: Pair)
    requires TokenFree(pair.labelText) && TokenFree(pair.valueText)
    ensures var ctx := Item(OnePair(pair), PairsInput);
            SaysPlainly(PAIR_LINE, values, ctx) &&
            Substituted(PAIR_LINE, values, ctx) == pair.labelText + ": " + pair.valueText
  {
    hide TokenFree;
    var ctx := Item(OnePair(pair), PairsInput);
    assert Substituted(PAIR_LINE.rest, values, ctx) == ": " + pair.valueText;
    assert SaysPlainly(PAIR_LINE.rest, values, ctx);
  }

  /** It prints the label, a colon and the value. */
  lemma PairPrints(host: Host, values: Values, pair: Pair)
    requires TokenFree(pair.labelText) && TokenFree(pair.valueText)
    requires !Blocked(host, "{{item.label}}: {{item.value}}")
    ensures RenderText(host, Compiled, "{{item.label}}: {{item.value}}", values, Item(OnePair(pair), PairsInput),
                       PlainText) == Some(pair.labelText + ": " + pair.valueText)
  {
    hide RenderText, Blocked, TokenFree, Spell, Good, SaysPlainly, Substituted, PAIR_LINE;
    PairLineGood();
    PairLineSpells();
    PairLineSays(values, pair);
    PrintsItself(host, PAIR_LINE, values, Item(OnePair(pair), PairsInput));
  }

  // ---- Halves of a pair --------------------------------------------------

  /** No token of the line is one of these. */
  predicate Without(line: Line, sources: set<Source>) {
    match line
    case End(_) => true
    case Shows(_, source, _, rest) => source !in sources && Without(rest, sources)
  }

  /** A line without {{item.value}} does not depend on the value of the pair, and
      one without {{item.label}} not on its label. */
  lemma HalvesAreIndependent(host: Host, r: Renderer, line: Line, values: Values, p: Pair, q: Pair, kind: InputType,
                             slot: TextSlot)
    requires Good(line) && Without(line, {TheItem})
    requires p.labelText == q.labelText || Without(line, {TheLabel})
    requires p.valueText == q.valueText || Without(line, {TheValue})
    ensures RenderText(host, r, Spell(line), values, Item(OnePair(p), kind), slot) ==
            RenderText(host, r, Spell(line), values, Item(OnePair(q), kind), slot)
  {
    hide RenderPieces, Blocked;
    if !Blocked(host, Spell(line)) {
      LinePrints(host, r, line, values, Item(OnePair(p), kind), slot);
      LinePrints(host, r, line, values, Item(OnePair(q), kind), slot);
      HalvesPrint(host, r, line, values, p, q, kind, slot);
    }
  }

  lemma {:induction false} HalvesPrint(host: Host, r: Renderer, line: Line, values: Values, p: Pair, q: Pair,
                                       kind: InputType, slot: TextSlot)
    requires Without(line, {TheItem})
    requires p.labelText == q.labelText || Without(line, {TheLabel})
    requires p.valueText == q.valueText || Without(line, {TheValue})
    ensures Print(host, r, line, values, Item(OnePair(p), kind), slot) ==
            Print(host, r, line, values, Item(OnePair(q), kind), slot)
  {
    hide RenderTyped, Literal;
    match line
    case End(_) =>
    case Shows(_, _, _, rest) => HalvesPrint(host, r, rest, values, p, q, kind, slot);
  }
}

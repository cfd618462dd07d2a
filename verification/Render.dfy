/** Rendering template strings: the compiled renderer and the fallback renderer
    over one decomposition (placeholder.go and emit_slack.go). */
module Render {
  import opened Basics
  import opened Contract
  import opened Text
  import opened Placeholder
  import Escape

  /** The region item in scope; kind is the type of the repeated input. */
  datatype Context = NoItem | Item(item: Value, kind: InputType)

  datatype TextSlot = PlainText | Markdown

  datatype Renderer = Compiled | Fallback

  const RFC3339 := "2006-01-02T15:04:05Z07:00"
  const HHMM := "15:04"
  const CODE_FENCE := "```"

  // ---- One value ---------------------------------------------------------

  function EscapeSlot(value: string, kind: InputType, slot: TextSlot, modifier: string): string {
    var escaped :=
      if slot.Markdown? then
        match kind
        case TextInput | LongTextInput => Escape.Mrkdwn(value, true)
        case CodeInput => CODE_FENCE + Escape.Neutralize(value) + CODE_FENCE
        case EnumInput | NumberInput | TimestampInput => value
        case _ => Escape.Mrkdwn(value, false)
      else
        match kind
        case TextInput | IdInput | CodeInput | LongTextInput => Escape.Neutralize(value)
        case _ => value;
    if modifier == "code" then "`" + escaped + "`"
    else if modifier == "bold" then "*" + escaped + "*"
    else escaped
  }

  /** The text of a value before escaping; None is an error or a failed type
      assertion. */
  function TypedText(host: Host, v: Value, kind: InputType, modifier: string): Option<string>
    requires !v.Nil?
  {
    match kind
    case TextInput | IdInput | CodeInput | LongTextInput | EnumInput =>
      if v.Text? then Some(v.text) else None
    case TimestampInput =>
      if v.Stamp? then Some(host.formatTime(v.at, if modifier == "hhmm" then HHMM else RFC3339)) else None
    case NumberInput => Some(host.sprint(v))
    case BoolInput | PairsInput | UnsupportedInput(_) => None
  }

  function Recase(host: Host, text: string, modifier: string): string {
    if modifier == "upper" then host.upper(text)
    else if modifier == "lower" then host.lower(text)
    else text
  }

  function RenderTyped(host: Host, v: Value, kind: InputType, modifier: string, slot: TextSlot): Option<string> {
    if v.Nil? then Some("")
    else
      var text := TypedText(host, v, kind, modifier);
      if text.None? then None
      else Some(EscapeSlot(Recase(host, text.value, modifier), kind, slot, modifier))
  }

  // ---- One token ---------------------------------------------------------

  function RenderPlaceholder(host: Host, token: Token, values: Values, ctx: Context, slot: TextSlot): Option<string> {
    if token.name == ITEM then
      if ctx.NoItem? then None
      else if token.part == "" then RenderTyped(host, ctx.item, ctx.kind, token.modifier, slot)
      else if !ctx.item.OnePair? then None
      else
        var pair := ctx.item.pair;
        RenderTyped(host, Text(if token.part == "label" then pair.labelText else pair.valueText),
                    TextInput, token.modifier, slot)
    else if token.name !in values then None
    else
      var bound := values[token.name];
      RenderTyped(host, bound.value, bound.input.kind, token.modifier, slot)
  }

  /** The fallback renderer drops the two mrkdwn modifiers and the slot. */
  function RenderToken(host: Host, r: Renderer, token: Token, values: Values, ctx: Context,
                       slot: TextSlot): Option<string> {
    match r
    case Compiled => RenderPlaceholder(host, token, values, ctx, slot)
    case Fallback =>
      var plain := if token.modifier == "code" || token.modifier == "bold" then token.(modifier := "") else token;
      RenderPlaceholder(host, plain, values, ctx, PlainText)
  }

  function Literal(host: Host, r: Renderer, lit: string): string {
    match r
    case Compiled => lit
    case Fallback => Escape.Neutralize(host.strip(lit))
  }

  // ---- One string --------------------------------------------------------

  function Join(front: string, rest: Option<string>): Option<string> {
    if rest.None? then None else Some(front + rest.value)
  }

  function RenderPieces(host: Host, r: Renderer, p: Pieces, values: Values, ctx: Context,
                        slot: TextSlot): Option<string> {
    match p
    case Tail(lit) => Some(Literal(host, r, lit))
    case Hole(lit, body, rest) =>
      var token := ParseBody(body);
      if token.None? then None
      else
        var out := RenderToken(host, r, token.value, values, ctx, slot);
        if out.None? then None
        else Join(Literal(host, r, lit) + out.value, RenderPieces(host, r, rest, values, ctx, slot))
  }

  function RenderText(host: Host, r: Renderer, value: string, values: Values, ctx: Context,
                      slot: TextSlot): Option<string> {
    if Parse(host, value).None? then None
    else RenderPieces(host, r, Split(value), values, ctx, slot)
  }

  /** renderString: rescans the text for each parsed token. */
  method RenderString(host: Host, value: string, values: Values, ctx: Context, slot: TextSlot)
    returns (out: Option<string>)
    ensures out == RenderText(host, Compiled, value, values, ctx, slot)
  {
    out := RenderWith(host, Compiled, value, values, ctx, slot);
  }

  /** renderFallbackString: the same scan over cleaned literals. */
  method RenderFallbackString(host: Host, value: string, values: Values, ctx: Context) returns (out: Option<string>)
    ensures out == RenderText(host, Fallback, value, values, ctx, PlainText)
  {
    out := RenderWith(host, Fallback, value, values, ctx, PlainText);
  }

  method RenderWith(host: Host, r: Renderer, value: string, values: Values, ctx: Context, slot: TextSlot)
    returns (out: Option<string>)
    ensures out == RenderText(host, r, value, values, ctx, slot)
  {
    hide Literal, RenderToken, ParseBody, ParseFrom, Split, IndexOf, RenderPieces, Join, Blocked, Count;
    var tokens := ParsePlaceholders(host, value);
    if tokens.None? { return None; }
    if |tokens.value| == 0 {
      PiecesEnd(host, r, value, values, ctx, slot);
      return Some(Literal(host, r, value));
    }
    var result := "";
    var position := 0;
    assert value[0..] == value;
    JoinEmpty(RenderPieces(host, r, Split(value), values, ctx, slot));
    for i := 0 to |tokens.value|
      invariant 0 <= position <= |value|
      invariant ParseFrom(value[position..]) == Some(tokens.value[i..])
      invariant RenderText(host, r, value, values, ctx, slot) ==
                Join(result, RenderPieces(host, r, Split(value[position..]), values, ctx, slot))
    {
      ghost var open', close' := PiecesStep(host, r, value, position, tokens.value[i..], values, ctx, slot);
      var open := IndexOf(value[position..], OPEN) + position;
      var close := IndexOf(value[open + 2..], CLOSE) + open + 2;
      var replacement := RenderToken(host, r, tokens.value[i], values, ctx, slot);
      if replacement.None? {
        JoinTwice(result, "", None);
        return None;
      }
      var literal := Literal(host, r, value[position..open]);
      JoinTwice(result, literal + replacement.value,
        RenderPieces(host, r, Split(value[close + 2..]), values, ctx, slot));
      assert result + (literal + replacement.value) == result + literal + replacement.value;
      result := result + literal;
      result := result + replacement.value;
      position := close + 2;
    }
    PiecesEnd(host, r, value[position..], values, ctx, slot);
    JoinTwice(result, "", Some(Literal(host, r, value[position..])));
    return Some(result + Literal(host, r, value[position..]));
  }

  lemma JoinEmpty(rest: Option<string>)
    ensures Join("", rest) == rest
  {
    if rest.Some? {
      assert "" + rest.value == rest.value;
    }
  }

  lemma JoinTwice(a: string, b: string, rest: Option<string>)
    ensures Join(a, Join(b, rest)) == Join(a + b, rest)
    ensures rest.Some? ==> Join(a, rest) == Some(a + rest.value)
    ensures Join(a, None) == None
  {
    if rest.Some? {
      assert a + (b + rest.value) == a + b + rest.value;
    }
  }

  lemma PiecesEnd(host: Host, r: Renderer, s: string, values: Values, ctx: Context, slot: TextSlot)
    requires ParseFrom(s) == Some([])
    ensures RenderPieces(host, r, Split(s), values, ctx, slot) == Some(Literal(host, r, s))
  {
    hide IndexOf, ParseBody, ParseFrom, Contains, Literal;
    ParseStep(s);
  }

  /** One hole of the scan, in the positions of the whole string. The marker
      searches never fail. */
  lemma PiecesStep(host: Host, r: Renderer, value: string, position: nat, tokens: seq<Token>,
                   values: Values, ctx: Context, slot: TextSlot) returns (open: nat, close: nat)
    requires position <= |value| && ParseFrom(value[position..]) == Some(tokens) && tokens != []
    ensures position <= open && open + 2 <= close && close + 2 <= |value|
    ensures IndexOf(value[position..], OPEN) + position == open
    ensures IndexOf(value[open + 2..], CLOSE) + open + 2 == close
    ensures ParseFrom(value[close + 2..]) == Some(tokens[1..])
    ensures RenderPieces(host, r, Split(value[position..]), values, ctx, slot) ==
            var out := RenderToken(host, r, tokens[0], values, ctx, slot);
            if out.None? then None
            else Join(Literal(host, r, value[position..open]) + out.value,
                      RenderPieces(host, r, Split(value[close + 2..]), values, ctx, slot))
  {
    hide IndexOf, ParseBody, ParseFrom, Contains, Literal, RenderToken, Split;
    var s := value[position..];
    ParseStep(s);
    var o, c := ParsedStep(s);
    open, close := o + position, o + c + 2 + position;
    SliceOf(value, position, o + 2);
    SliceOf(value, position, o + c + 4);
    assert s[..o] == value[position..open];
  }

  // ---- When a string renders ---------------------------------------------

  /** Kinds that can stand in text. */
  predicate InText(kind: InputType) {
    IsStringType(kind) || kind.TimestampInput? || kind.NumberInput?
  }

  predicate ValueRenders(v: Value, kind: InputType) {
    v.Nil? || (InText(kind) && (kind.NumberInput? || HasType(v, kind)))
  }

  predicate TokenRenders(token: Token, values: Values, ctx: Context) {
    if token.name == ITEM then
      ctx.Item? && if token.part == "" then ValueRenders(ctx.item, ctx.kind) else ctx.item.OnePair?
    else token.name in values && ValueRenders(values[token.name].value, values[token.name].input.kind)
  }

  lemma TokenRendersIff(host: Host, r: Renderer, token: Token, values: Values, ctx: Context, slot: TextSlot)
    ensures RenderToken(host, r, token, values, ctx, slot).Some? <==> TokenRenders(token, values, ctx)
  {
  }

  /** A string renders exactly when it parses and every token has a renderable
      value. The renderer and the slot do not matter. */
  lemma TextRendersIff(host: Host, r: Renderer, value: string, values: Values, ctx: Context, slot: TextSlot)
    ensures RenderText(host, r, value, values, ctx, slot).Some? <==>
            Parse(host, value).Some? &&
            forall t | t in Parse(host, value).value :: TokenRenders(t, values, ctx)
  {
    hide RenderPieces, Tokens, Blocked;
    ParseIff(host, value);
    if Parse(host, value).Some? {
      PiecesRenderIff(host, r, Split(value), values, ctx, slot);
    }
  }

  lemma {:induction false} PiecesRenderIff(host: Host, r: Renderer, p: Pieces, values: Values, ctx: Context,
                                           slot: TextSlot)
    requires WellFormed(p)
    ensures RenderPieces(host, r, p, values, ctx, slot).Some? <==>
            forall t | t in Tokens(p) :: TokenRenders(t, values, ctx)
  {
    hide ParseBody, RenderToken, TokenRenders, Literal;
    match p
    case Tail(_) =>
    case Hole(_, body, rest) =>
      PiecesRenderIff(host, r, rest, values, ctx, slot);
      TokenRendersIff(host, r, ParseBody(body).value, values, ctx, slot);
      var head := ParseBody(body).value;
      assert forall t :: t in Tokens(p) <==> t == head || t in Tokens(rest);
  }

  /** Values of names a string does not mention cannot change its rendering. */
  lemma TextDependsOnTokens(host: Host, r: Renderer, value: string, v1: Values, v2: Values, ctx: Context,
                            slot: TextSlot)
    requires Parse(host, value).Some? ==> forall t | t in Parse(host, value).value && t.name != ITEM ::
               t.name in v1 && t.name in v2 && v1[t.name] == v2[t.name]
    ensures RenderText(host, r, value, v1, ctx, slot) == RenderText(host, r, value, v2, ctx, slot)
  {
    hide RenderPieces, Tokens, Blocked;
    ParseIff(host, value);
    if Parse(host, value).Some? {
      PiecesDependOnTokens(host, r, Split(value), v1, v2, ctx, slot);
    }
  }

  lemma {:induction false} PiecesDependOnTokens(host: Host, r: Renderer, p: Pieces, v1: Values, v2: Values,
                                                ctx: Context, slot: TextSlot)
    requires WellFormed(p)
    requires forall t | t in Tokens(p) && t.name != ITEM :: t.name in v1 && t.name in v2 && v1[t.name] == v2[t.name]
    ensures RenderPieces(host, r, p, v1, ctx, slot) == RenderPieces(host, r, p, v2, ctx, slot)
  {
    hide ParseBody, Literal, RenderToken;
    match p
    case Tail(_) =>
    case Hole(_, body, rest) =>
      var head := ParseBody(body).value;
      assert head in Tokens(p);
      TokenDepends(host, r, head, v1, v2, ctx, slot);
      assert forall t | t in Tokens(rest) :: t in Tokens(p);
      PiecesDependOnTokens(host, r, rest, v1, v2, ctx, slot);
  }

  lemma TokenDepends(host: Host, r: Renderer, t: Token, v1: Values, v2: Values, ctx: Context, slot: TextSlot)
    requires t.name != ITEM ==> t.name in v1 && t.name in v2 && v1[t.name] == v2[t.name]
    ensures RenderToken(host, r, t, v1, ctx, slot) == RenderToken(host, r, t, v2, ctx, slot)
  {
    hide RenderTyped;
  }

  /** Text with no marker and no blocked fragment renders to itself. */
  lemma PlainTextRenders(host: Host, r: Renderer, value: string, values: Values, ctx: Context, slot: TextSlot)
    requires Braceless(value) && !Blocked(host, value)
    ensures Parse(host, value) == Some([])
    ensures RenderText(host, r, value, values, ctx, slot) == Some(Literal(host, r, value))
  {
    hide Blocked, Literal;
    TailStep(value);
    NoCount(value, OPEN);
    NoCount(value, CLOSE);
  }
}

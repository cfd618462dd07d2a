/** What New checks before it trusts a template, and what that buys at run time
    (internal/blockkit/contract.go, registry.go). */
module Startup {
  import opened Basics
  import opened Contract
  import opened Text
  import opened Placeholder
  import opened Render
  import opened Layout
  import opened Blocks
  import opened LayoutLaws

  const MAX_ACTION_TEXT := 75
  const SAMPLE_TIME := 1893596645

  // ---- Declared inputs and actions ---------------------------------------

  /** validateInput. */
  predicate InputValid(host: Host, input: Input) {
    && (input.required ==> input.default == "")
    && !input.kind.UnsupportedInput?
    && input.max >= 0 && input.chunk >= 0
    && (input.chunk != 0 ==> input.kind.LongTextInput?)
    && (input.oneOf != [] <==> input.kind.EnumInput?)
    && (forall i | 0 <= i < |input.oneOf| :: input.oneOf[i] != "" && (input.max > 0 ==> |input.oneOf[i]| <= input.max))
    && Distinct(input.oneOf)
    && (input.default != "" ==>
          && (IsStringType(input.kind) || host.parseDefault(input.kind, input.default).Some?)
          && !input.kind.PairsInput?
          && (input.kind.EnumInput? ==> input.default in input.oneOf)
          && (input.max > 0 ==> |input.default| <= input.max))
  }

  predicate ActionValid(doc: Document, action: Action) {
    && action.text != "" && |action.text| <= MAX_ACTION_TEXT && IdentifierValid(action.id)
    && (action.style == "" || action.style == "primary" || action.style == "danger")
    && (action.carries != "" ==> action.carries in doc.inputs)
  }

  predicate DocumentValid(host: Host, doc: Document) {
    && (forall name | name in doc.inputs :: ValidName(name) && InputValid(host, doc.inputs[name]))
    && (forall name | name in doc.actions :: ValidName(name) && ActionValid(doc, doc.actions[name]))
    && (doc.fallback.Some? ==> InspectString(host, doc, doc.fallback.value, None, PlainText).Some?)
  }

  // ---- Representative values ---------------------------------------------

  function Truncate(s: string, limit: int): string {
    if limit <= 0 || |s| <= limit then s else s[..limit]
  }

  function Sample(input: Input): Option<Value> {
    match input.kind
    case TextInput => Some(Text("representative text"))
    case IdInput => Some(Text("id-1"))
    case CodeInput => Some(Text("code-1"))
    case LongTextInput =>
      if input.chunk > 0 then
        var length := if 0 < input.max < input.chunk + 1 then input.max else input.chunk + 1;
        Some(Text(seq(length, i => 'x')))
      else Some(Text("representative long text"))
    case TimestampInput => Some(Stamp(SAMPLE_TIME))
    case NumberInput => Some(Number(42))
    case EnumInput => if input.oneOf == [] then None else Some(Text(input.oneOf[0]))
    case BoolInput => Some(Flag(true))
    case PairsInput => Some(Pairs([Pair("label", "value")]))
    case UnsupportedInput(_) => None
  }

  /** representativeValue; None is an error or an index out of range. */
  function Representative(input: Input): Option<Value> {
    var sample := Sample(input);
    if sample.Some? && sample.value.Text? then Some(Text(Truncate(sample.value.text, input.max))) else sample
  }

  predicate Omitted(input: Input, includeOptional: bool) {
    !includeOptional && !input.required && input.default == ""
  }

  function RepresentativeValues(inputs: Inputs, includeOptional: bool): Option<Values> {
    if exists name | name in inputs ::
        !Omitted(inputs[name], includeOptional) && Representative(inputs[name]).None? then None
    else Some(map name | name in inputs ::
                Slot(inputs[name], if Omitted(inputs[name], includeOptional) then Nil
                  else Representative(inputs[name]).value))
  }

  /** One entry of validateInputValues; a failed type assertion rejects too. */
  predicate SlotValid(host: Host, bound: Slot) {
    var input, v := bound.input, bound.value;
    if v.Nil? then !input.required
    else
      && (input.max > 0 && !input.kind.PairsInput? ==>
            RawText(host, v, input.kind).Some? && |RawText(host, v, input.kind).value| <= input.max)
      && (IsStringType(input.kind) ==>
            && v.Text? && (input.required ==> v.text != "")
            && (input.max > 0 ==> |v.text| <= input.max)
            && (input.kind.EnumInput? ==> v.text in input.oneOf))
  }

  predicate ValuesValid(host: Host, values: Values) {
    forall name | name in values :: SlotValid(host, values[name])
  }

  // ---- Compiling one template --------------------------------------------

  function EnvOf(host: Host, doc: Document, r: Renderer, values: Values): Env {
    Env(host, r, doc, values)
  }

  predicate RendersArray(e: Env, layout: Json) {
    RenderNode(e, layout, NoItem).Some? && RenderNode(e, layout, NoItem).value.Arr?
  }

  /** renderCompiled up to the decoding of Slack blocks: the layout renders to an
      array, and the fallback renders from its own text or from the layout. */
  predicate Compiles(host: Host, doc: Document, values: Values) {
    && RendersArray(EnvOf(host, doc, Compiled, values), doc.layout)
    && if doc.fallback.Some? then RenderText(host, Compiled, doc.fallback.value, values, NoItem, PlainText).Some?
       else RendersArray(EnvOf(host, doc, Fallback, values), doc.layout)
  }

  /** A view passes when it compiles and its top-level blocks have valid types and
      IDs, no two the same ID, within the limit of the surface. */
  predicate Passes(host: Host, doc: Document, values: Values) {
    Compiles(host, doc, values)
    && Verified(doc, Heads(RenderNode(EnvOf(host, doc, Compiled, values), doc.layout, NoItem).value.items))
  }

  predicate VariantAccepted(host: Host, doc: Document, includeOptional: bool) {
    var values := RepresentativeValues(doc.inputs, includeOptional);
    values.Some? && ValuesValid(host, values.value) && Passes(host, doc, values.value)
  }

  /** New accepts the template: static checks, then the minimal and the maximal
      representative render. */
  predicate Accepted(host: Host, doc: Document) {
    DocumentValid(host, doc) && LayoutAccepted(host, doc) && VariantAccepted(host, doc, false)
      && VariantAccepted(host, doc, true)
  }

  // ---- The maximal variant is a witness ----------------------------------

  lemma RepresentativePresent(host: Host, input: Input)
    requires InputValid(host, input)
    ensures Representative(input).Some? && HasType(Representative(input).value, input.kind)
    ensures IsPresent(Representative(input).value)
  {
    if input.kind.EnumInput? {
      assert input.oneOf[0] != "";
    }
  }

  lemma MaximalIsWitness(host: Host, doc: Document, values: Values)
    requires DocumentValid(host, doc) && WellTyped(doc.inputs, values)
    ensures RepresentativeValues(doc.inputs, true).Some?
    ensures forall r, r' :: Witnesses(EnvOf(host, doc, r, RepresentativeValues(doc.inputs, true).value),
            EnvOf(host, doc, r', values))
  {
    hide InputValid, Representative, HasType, IsPresent, InspectString;
    forall name | name in doc.inputs
      ensures Representative(doc.inputs[name]).Some?
      ensures HasType(Representative(doc.inputs[name]).value, doc.inputs[name].kind)
      ensures IsPresent(Representative(doc.inputs[name]).value)
    {
      RepresentativePresent(host, doc.inputs[name]);
    }
    var w := RepresentativeValues(doc.inputs, true).value;
    assert w.Keys == doc.inputs.Keys;
    NilHasNoType();
  }

  lemma NilHasNoType()
    ensures forall kind :: !HasType(Nil, kind)
  {
  }

  lemma FallbackTextRenders(host: Host, doc: Document, values: Values)
    requires DocumentValid(host, doc) && WellTyped(doc.inputs, values) && doc.fallback.Some?
    ensures RenderText(host, Compiled, doc.fallback.value, values, NoItem, PlainText).Some?
  {
    hide RenderText, InspectString, InputValid, WellTyped;
    var e := EnvOf(host, doc, Compiled, values);
    InspectedTextReady(e, doc.fallback.value, NoItem, PlainText);
    TextReadyIff(e, doc.fallback.value, NoItem, PlainText);
  }

  /** The run-time readiness condition does not depend on the renderer. */
  lemma {:induction false} ReadyForBoth(host: Host, doc: Document, values: Values, node: Json, ctx: Context)
    ensures ActionsReady(EnvOf(host, doc, Compiled, values), node, ctx, false)
            <==> ActionsReady(EnvOf(host, doc, Fallback, values), node, ctx, false)
    decreases node
  {
    hide TextReady, RawText, IsPresent;
    match node
    case Arr(items) =>
      forall i | 0 <= i < |items|
        ensures ActionsReady(EnvOf(host, doc, Compiled, values), items[i], ctx, false)
                <==> ActionsReady(EnvOf(host, doc, Fallback, values), items[i], ctx, false)
      {
        ReadyForBoth(host, doc, values, items[i], ctx);
      }
    case Obj(fields) =>
      forall key, c | key in fields
        ensures ActionsReady(EnvOf(host, doc, Compiled, values), fields[key], c, false)
                <==> ActionsReady(EnvOf(host, doc, Fallback, values), fields[key], c, false)
      {
        ReadyForBoth(host, doc, values, fields[key], c);
      }
      if REGION in fields {
        RegionReadyForBoth(host, doc, values, fields, ctx);
      } else if ACTIONS in fields {
        NamesReadyForBoth(host, doc, values, fields[ACTIONS], ctx);
      }
    case _ =>
  }

  lemma NamesReadyForBoth(host: Host, doc: Document, values: Values, names: Json, ctx: Context)
    ensures NamesReady(EnvOf(host, doc, Compiled, values), names, ctx, false)
            <==> NamesReady(EnvOf(host, doc, Fallback, values), names, ctx, false)
  {
    hide RawText, TokenRenders, Parse;
    var a, b := EnvOf(host, doc, Compiled, values), EnvOf(host, doc, Fallback, values);
    assert forall action: Action :: CarryReady(a, action, ctx) <==> CarryReady(b, action, ctx);
  }

  lemma RegionReadyForBoth(host: Host, doc: Document, values: Values, fields: Object, ctx: Context)
    requires REGION in fields
    requires forall key, c | key in fields ::
               ActionsReady(EnvOf(host, doc, Compiled, values), fields[key], c, false)
               <==> ActionsReady(EnvOf(host, doc, Fallback, values), fields[key], c, false)
    ensures RegionReady(EnvOf(host, doc, Compiled, values), fields, ctx, false)
            <==> RegionReady(EnvOf(host, doc, Fallback, values), fields, ctx, false)
  {
    hide ActionsReady, RegionItems, IsPresent;
    var a, b := EnvOf(host, doc, Compiled, values), EnvOf(host, doc, Fallback, values);
    assert Entered(a, fields) <==> Entered(b, fields);
  }

  // ---- The theorems ------------------------------------------------------

  lemma ArrayedIff(e: Env, layout: Json)
    ensures RendersArray(e, layout) <==> RenderNode(e, layout, NoItem).Some? && Arrayed(layout)
  {
    hide RenderNode, Arrayed, LayoutTops;
    if RenderNode(e, layout, NoItem).Some? { LayoutHeads(e, layout, NoItem); }
  }

  lemma AcceptedIsArrayed(host: Host, doc: Document, includeOptional: bool)
    requires VariantAccepted(host, doc, includeOptional)
    ensures Arrayed(doc.layout)
    ensures var values := RepresentativeValues(doc.inputs, includeOptional).value;
            Verified(doc, LayoutTops(EnvOf(host, doc, Compiled, values), doc.layout))
  {
    hide RenderNode, RenderText, Arrayed, LayoutTops, Verified, RepresentativeValues, Heads;
    var e := EnvOf(host, doc, Compiled, RepresentativeValues(doc.inputs, includeOptional).value);
    LayoutHeads(e, doc.layout, NoItem);
  }

  /** What startup accepts compiles for a well-typed view exactly when the text
      carried by the actions of the entered regions survives rendering. */
  lemma AcceptedCompilesIff(host: Host, doc: Document, values: Values)
    requires Accepted(host, doc) && WellTyped(doc.inputs, values)
    ensures Compiles(host, doc, values) <==>
            ActionsReady(EnvOf(host, doc, Compiled, values), doc.layout, NoItem, false)
  {
    hide RenderNode, RenderText, ActionsReady, DocumentValid, LayoutAccepted, Witnesses, WellTyped, Verified, Arrayed,
      RendersArray;
    MaximalIsWitness(host, doc, values);
    var w := RepresentativeValues(doc.inputs, true).value;
    var cw, e, f := EnvOf(host, doc, Compiled, w), EnvOf(host, doc, Compiled, values),
      EnvOf(host, doc, Fallback, values);
    AcceptedIsArrayed(host, doc, true);
    ArrayedIff(cw, doc.layout);
    ArrayedIff(e, doc.layout);
    ArrayedIff(f, doc.layout);
    WitnessRendersIff(cw, e, doc.layout, NoItem, NoItem);
    WitnessRendersIff(cw, f, doc.layout, NoItem, NoItem);
    ReadyForBoth(host, doc, values, doc.layout, NoItem);
    if doc.fallback.Some? {
      FallbackTextRenders(host, doc, values);
    }
  }

  /** A template without action blocks always compiles once startup accepted it. */
  lemma AcceptedWithoutActionsCompiles(host: Host, doc: Document, values: Values)
    requires Accepted(host, doc) && WellTyped(doc.inputs, values) && !HasActions(doc.layout)
    ensures Compiles(host, doc, values)
  {
    hide Accepted, Compiles, WellTyped;
    AcceptedCompilesIff(host, doc, values);
    NoActionsIsReady(EnvOf(host, doc, Compiled, values), doc.layout, NoItem, false);
  }

  /** So does a view whose carried texts hold no marker and no blocked fragment. */
  lemma AcceptedPlainCarriesCompiles(host: Host, doc: Document, values: Values)
    requires Accepted(host, doc) && WellTyped(doc.inputs, values)
    requires CarriesPlain(EnvOf(host, doc, Compiled, values))
    ensures Compiles(host, doc, values)
  {
    hide Accepted, Compiles, WellTyped, CarriesPlain;
    AcceptedCompilesIff(host, doc, values);
    PlainCarriesReady(EnvOf(host, doc, Compiled, values), doc.layout, NoItem);
  }

  /** The blocks stay within the surface's limit and repeat no ID: what startup
      cannot decide, as lists may be longer than their representative. */
  predicate BlocksFit(host: Host, doc: Document, values: Values) {
    var tops := LayoutTops(EnvOf(host, doc, Compiled, values), doc.layout);
    |tops| <= Limit(doc) && DistinctIDs(tops)
  }

  lemma AcceptedVerifiedIff(host: Host, doc: Document, values: Values)
    requires Accepted(host, doc) && WellTyped(doc.inputs, values) && Compiles(host, doc, values)
    ensures Passes(host, doc, values) <==> BlocksFit(host, doc, values)
  {
    hide RenderNode, RenderText, DocumentValid, LayoutAccepted, Witnesses, WellTyped, LayoutTops, HeadValid,
      DistinctIDs, Heads, RepresentativeValues, AllValid;
    var e := EnvOf(host, doc, Compiled, values);
    var w := EnvOf(host, doc, Compiled, RepresentativeValues(doc.inputs, true).value);
    MaximalIsWitness(host, doc, values);
    AcceptedIsArrayed(host, doc, true);
    LayoutValid(w, e, doc.layout);
    LayoutHeads(e, doc.layout, NoItem);
  }

  /** An accepted template passes for a well-typed view exactly when the carried
      texts survive, the blocks of the entered regions stay within the limit, and
      no block ID repeats among them. */
  lemma AcceptedPassesIff(host: Host, doc: Document, values: Values)
    requires Accepted(host, doc) && WellTyped(doc.inputs, values)
    ensures Passes(host, doc, values) <==>
            ActionsReady(EnvOf(host, doc, Compiled, values), doc.layout, NoItem, false) && BlocksFit(host, doc, values)
  {
    hide Accepted, Compiles, WellTyped, BlocksFit, ActionsReady, Verified, Heads;
    AcceptedCompilesIff(host, doc, values);
    if Compiles(host, doc, values) { AcceptedVerifiedIff(host, doc, values); }
  }

  /** Without action blocks only the number and the IDs of the blocks decide. */
  lemma AcceptedWithoutActionsPassesIff(host: Host, doc: Document, values: Values)
    requires Accepted(host, doc) && WellTyped(doc.inputs, values) && !HasActions(doc.layout)
    ensures Passes(host, doc, values) <==> BlocksFit(host, doc, values)
  {
    hide Accepted, Compiles, WellTyped, BlocksFit;
    AcceptedWithoutActionsCompiles(host, doc, values);
    AcceptedVerifiedIff(host, doc, values);
  }

  // ---- The minimal variant -----------------------------------------------

  lemma MinimalCompiles(host: Host, doc: Document)
    requires DocumentValid(host, doc) && VariantAccepted(host, doc, true)
    ensures RepresentativeValues(doc.inputs, false).Some?
    ensures Compiles(host, doc, RepresentativeValues(doc.inputs, false).value)
  {
    hide RenderNode, RenderText, ActionsReady, DocumentValid, Witnesses, Representative, Verified, Arrayed,
      RendersArray;
    MinimalTyped(host, doc);
    var v, w := RepresentativeValues(doc.inputs, false).value, RepresentativeValues(doc.inputs, true).value;
    MaximalIsWitness(host, doc, v);
    var cw, e, f := EnvOf(host, doc, Compiled, w), EnvOf(host, doc, Compiled, v), EnvOf(host, doc, Fallback, v);
    assert Thins(cw, e) && Thins(cw, f);
    AcceptedIsArrayed(host, doc, true);
    ArrayedIff(cw, doc.layout);
    ArrayedIff(e, doc.layout);
    ArrayedIff(f, doc.layout);
    WitnessRendersIff(cw, e, doc.layout, NoItem, NoItem);
    WitnessRendersIff(cw, f, doc.layout, NoItem, NoItem);
    if doc.fallback.Some? {
      FallbackTextRenders(host, doc, v);
    }
  }

  lemma MinimalVerified(host: Host, doc: Document)
    requires DocumentValid(host, doc) && VariantAccepted(host, doc, true)
    ensures RepresentativeValues(doc.inputs, false).Some?
    ensures Verified(doc, LayoutTops(EnvOf(host, doc, Compiled, RepresentativeValues(doc.inputs, false).value),
            doc.layout))
  {
    hide RenderNode, RenderText, DocumentValid, Witnesses, Representative, Verified, Passes, LayoutTops, ValuesValid;
    MinimalTyped(host, doc);
    var v, w := RepresentativeValues(doc.inputs, false).value, RepresentativeValues(doc.inputs, true).value;
    MaximalIsWitness(host, doc, v);
    var cw, e := EnvOf(host, doc, Compiled, w), EnvOf(host, doc, Compiled, v);
    assert Thins(cw, e);
    AcceptedIsArrayed(host, doc, true);
    ThinLayout(cw, e, doc.layout);
  }

  lemma MinimalValuesValid(host: Host, doc: Document)
    requires VariantAccepted(host, doc, true) && RepresentativeValues(doc.inputs, false).Some?
    ensures ValuesValid(host, RepresentativeValues(doc.inputs, false).value)
  {
    hide Representative, Passes, RawText;
    var v, w := RepresentativeValues(doc.inputs, false).value, RepresentativeValues(doc.inputs, true).value;
    forall name | name in v
      ensures SlotValid(host, v[name])
    {
      assert SlotValid(host, w[name]);
    }
  }

  /** The minimal variant passes whenever the maximal one does. */
  lemma MinimalIsImplied(host: Host, doc: Document)
    requires DocumentValid(host, doc) && VariantAccepted(host, doc, true)
    ensures VariantAccepted(host, doc, false)
  {
    hide RenderNode, RenderText, DocumentValid, Verified, LayoutTops, ValuesValid, RepresentativeValues, Heads, Arrayed;
    MinimalCompiles(host, doc);
    MinimalVerified(host, doc);
    MinimalValuesValid(host, doc);
    LayoutHeads(EnvOf(host, doc, Compiled, RepresentativeValues(doc.inputs, false).value), doc.layout, NoItem);
  }

  lemma MinimalTyped(host: Host, doc: Document)
    requires DocumentValid(host, doc)
    ensures RepresentativeValues(doc.inputs, false).Some?
    ensures WellTyped(doc.inputs, RepresentativeValues(doc.inputs, false).value)
  {
    hide InputValid, Representative, HasType, InspectString;
    forall name | name in doc.inputs
      ensures Representative(doc.inputs[name]).Some?
      ensures HasType(Representative(doc.inputs[name]).value, doc.inputs[name].kind)
    {
      RepresentativePresent(host, doc.inputs[name]);
    }
  }
}

/** What startup acceptance buys: accepted layouts render for every well-typed
    view, except for the one thing startup cannot see, the text an action
    carries at run time. */
module LayoutLaws {
  import opened Basics
  import opened Contract
  import opened Text
  import opened Placeholder
  import opened Render
  import opened Layout

  /** The item in scope is what an each region over its type binds. */
  predicate ContextTyped(ctx: Context) {
    ctx.Item? ==> (ctx.kind.LongTextInput? && ctx.item.Text?) || (ctx.kind.PairsInput? && ctx.item.OnePair?)
  }

  function ScopeOf(ctx: Context): Option<InputType> {
    if ctx.Item? then Some(ctx.kind) else None
  }

  // ---- Text an action adds at run time -----------------------------------

  /** The string parses and every token in it has a renderable value here. */
  predicate TextReady(e: Env, s: string, ctx: Context) {
    Parse(e.host, s).Some? && forall t | t in Parse(e.host, s).value :: TokenRenders(t, e.values, ctx)
  }

  /** The action carries nothing, or text that survives being rendered again. */
  predicate CarryReady(e: Env, action: Action, ctx: Context) {
    action.carries in e.values && action.carries != "" && !e.values[action.carries].value.Nil? ==>
      var bound := e.values[action.carries];
      var raw := RawText(e.host, bound.value, bound.input.kind);
      raw.Some? ==> TextReady(e, raw.value, ctx)
  }

  /** The action's input has a type that can be carried. */
  predicate CarryTyped(e: Env, action: Action) {
    action.carries in e.values && action.carries != "" && !e.values[action.carries].value.Nil? ==>
      RawText(e.host, e.values[action.carries].value, e.values[action.carries].input.kind).Some?
  }

  predicate ActionReady(e: Env, action: Action, ctx: Context) {
    CarryTyped(e, action) && CarryReady(e, action, ctx) && TextReady(e, action.text, ctx)
    && (action.style != "" ==> TextReady(e, action.style, ctx))
  }

  /** A condition on every action of every entered region, with the item in
      scope there. whole asks for the declared text too, not only the carried. */
  predicate ActionsReady(e: Env, node: Json, ctx: Context, whole: bool)
    decreases node, 1
  {
    match node
    case Arr(items) => forall i | 0 <= i < |items| :: ActionsReady(e, items[i], ctx, whole)
    case Obj(fields) =>
      if REGION in fields then RegionReady(e, fields, ctx, whole)
      else if ACTIONS in fields then NamesReady(e, fields[ACTIONS], ctx, whole)
      else forall key | key in fields && !FixedKey(key) :: ActionsReady(e, fields[key], ctx, whole)
    case _ => true
  }

  predicate NamesReady(e: Env, names: Json, ctx: Context, whole: bool) {
    names.Arr? ==>
      forall i | 0 <= i < |names.items| && ActionOf(e, names.items[i]).Some? ::
        var action := ActionOf(e, names.items[i]).value;
        if whole then ActionReady(e, action, ctx) else CarryReady(e, action, ctx)
  }

  predicate Entered(e: Env, fields: Object) {
    && StringAt(fields, REGION) in e.values
    && (WHEN in fields && fields[WHEN].Str? ==>
          fields[WHEN].s in e.values && IsPresent(e.values[fields[WHEN].s].value))
    && IsPresent(e.values[StringAt(fields, REGION)].value)
  }

  predicate RegionReady(e: Env, fields: Object, ctx: Context, whole: bool)
    decreases Obj(fields), 0
  {
    Entered(e, fields) ==>
      if EACH in fields then
        var bound := e.values[StringAt(fields, REGION)];
        var items := RegionItems(bound);
        items.Some? ==> forall i | 0 <= i < |items.value| ::
          ActionsReady(e, fields[EACH], Item(items.value[i], bound.input.kind), whole)
      else BLOCK in fields ==> ActionsReady(e, fields[BLOCK], ctx, whole)
  }

  lemma {:induction false} NoActionsIsReady(e: Env, node: Json, ctx: Context, whole: bool)
    requires !HasActions(node)
    ensures ActionsReady(e, node, ctx, whole)
    decreases node
  {
    match node
    case Arr(items) =>
      forall i | 0 <= i < |items|
        ensures ActionsReady(e, items[i], ctx, whole)
      {
        NoActionsIsReady(e, items[i], ctx, whole);
      }
    case Obj(fields) =>
      forall key, c | key in fields
        ensures ActionsReady(e, fields[key], c, whole)
      {
        NoActionsIsReady(e, fields[key], c, whole);
      }
    case _ =>
  }

  // ---- Sequences of rendered children ------------------------------------

  lemma {:induction false} ItemsRenderIff(e: Env, items: seq<Json>, ctx: Context)
    ensures RenderItems(e, items, ctx).Some? <==> forall i | 0 <= i < |items| :: RenderNode(e, items[i], ctx).Some?
  {
    hide RenderNode;
    if items != [] {
      ItemsRenderIff(e, items[1..], ctx);
      assert forall i | 0 < i < |items| :: items[i] == items[1..][i - 1];
      assert (forall i | 0 <= i < |items[1..]| :: RenderNode(e, items[1..][i], ctx).Some?) <==>
             (forall i | 0 < i < |items| :: RenderNode(e, items[i], ctx).Some?) by {
        assert forall i | 0 <= i < |items[1..]| :: items[1..][i] == items[i + 1];
      }
    }
  }

  lemma {:induction false} EachRendersIff(e: Env, each: Json, items: seq<Value>, kind: InputType)
    ensures RenderEach(e, each, items, kind).Some? <==>
            forall i | 0 <= i < |items| :: RenderNode(e, each, Item(items[i], kind)).Some?
  {
    hide RenderNode;
    if items != [] {
      EachRendersIff(e, each, items[1..], kind);
      assert forall i | 0 < i < |items| :: items[i] == items[1..][i - 1];
      assert forall i | 0 <= i < |items[1..]| :: items[1..][i] == items[i + 1];
    }
  }

  lemma InspectItemsAll(host: Host, doc: Document, items: seq<Json>, scope: Option<InputType>)
    requires InspectItems(host, doc, items, scope).Some?
    ensures forall i | 0 <= i < |items| :: Inspect(host, doc, items[i], scope).Some?
  {
    hide Inspect;
    if items != [] {
      InspectItemsAll(host, doc, items[1..], scope);
      assert forall i | 0 < i < |items| :: items[i] == items[1..][i - 1];
    }
  }

  // ---- The generated actions block ---------------------------------------

  lemma TextReadyIff(e: Env, s: string, ctx: Context, slot: TextSlot)
    ensures RenderText(e.host, e.renderer, s, e.values, ctx, slot).Some? <==> TextReady(e, s, ctx)
  {
    hide RenderText, Parse;
    TextRendersIff(e.host, e.renderer, s, e.values, ctx, slot);
  }

  lemma PlainField(e: Env, key: string, s: string, slot: TextSlot, ctx: Context)
    ensures RenderField(e, key, Str(s), slot, ctx).Some? <==> FixedKey(key) || TextReady(e, s, ctx)
  {
    hide RenderText, TextReady;
    TextReadyIff(e, s, ctx, if key == "text" then slot else PlainText);
  }

  lemma FieldsRenderIff(e: Env, fields: Object, ctx: Context)
    requires REGION !in fields && ACTIONS !in fields
    ensures RenderNode(e, Obj(fields), ctx).Some? <==>
            forall key | key in fields :: RenderField(e, key, fields[key], SlotOf(fields), ctx).Some?
  {
    hide RenderField, HasActions;
  }

  lemma ButtonTextIff(e: Env, s: string, ctx: Context)
    ensures RenderNode(e, Obj(map["type" := Str("plain_text"), "text" := Str(s)]), ctx).Some? <==> TextReady(e, s, ctx)
  {
    hide TextReady, RenderNode, RenderText, HasActions;
    var text := map["type" := Str("plain_text"), "text" := Str(s)];
    FieldsRenderIff(e, text, ctx);
    PlainField(e, "text", s, SlotOf(text), ctx);
    PlainField(e, "type", "plain_text", SlotOf(text), ctx);
    assert text["text"] == Str(s) && text["type"] == Str("plain_text");
  }

  lemma ButtonFields(action: Action, carried: Option<string>)
    ensures var fields := Button(action, carried);
            && REGION !in fields && ACTIONS !in fields
            && "type" in fields && fields["type"] == Str("button")
            && "action_id" in fields && fields["action_id"] == Str(action.id)
            && "text" in fields && fields["text"] == Obj(map["type" := Str("plain_text"), "text" := Str(action.text)])
            && ("style" in fields <==> action.style != "")
              && ("style" in fields ==> fields["style"] == Str(action.style))
            && ("value" in fields <==> carried.Some?) && ("value" in fields ==> fields["value"] == Str(carried.value))
            && forall key | key in fields ::
                key == "type" || key == "action_id" || key == "text" || key == "style" || key == "value"
  {
  }

  lemma ButtonRendersIff(e: Env, action: Action, carried: Option<string>, ctx: Context)
    ensures RenderNode(e, Obj(Button(action, carried)), ctx).Some? <==>
            TextReady(e, action.text, ctx) && (action.style != "" ==> TextReady(e, action.style, ctx))
            && (carried.Some? ==> TextReady(e, carried.value, ctx))
  {
    hide TextReady, RenderNode, RenderText, HasActions, Button;
    var fields := Button(action, carried);
    var slot := SlotOf(fields);
    ButtonFields(action, carried);
    FieldsRenderIff(e, fields, ctx);
    ButtonTextIff(e, action.text, ctx);
    PlainField(e, "style", action.style, slot, ctx);
    if carried.Some? {
      PlainField(e, "value", carried.value, slot, ctx);
    }
    assert RenderField(e, "type", fields["type"], slot, ctx).Some?;
    assert RenderField(e, "action_id", fields["action_id"], slot, ctx).Some?;
    assert RenderField(e, "text", fields["text"], slot, ctx) == RenderNode(e, fields["text"], ctx);
  }

  /** The i-th name declares an action whose button renders here. */
  predicate NameReady(e: Env, name: Json, ctx: Context) {
    ActionOf(e, name).Some? && ActionReady(e, ActionOf(e, name).value, ctx)
  }

  lemma {:induction false} ButtonsRenderIff(e: Env, names: seq<Json>, ctx: Context)
    ensures (Buttons(e, names).Some? && RenderItems(e, Buttons(e, names).value, ctx).Some?) <==>
            forall i | 0 <= i < |names| :: NameReady(e, names[i], ctx)
  {
    hide RenderNode, TextReady, Button, CarryReady, RawText, HasActions;
    if names != [] {
      ButtonsRenderIff(e, names[1..], ctx);
      assert forall i | 0 < i < |names| :: names[i] == names[1..][i - 1];
      assert (forall i | 0 <= i < |names[1..]| :: NameReady(e, names[1..][i], ctx)) <==>
             (forall i | 0 < i < |names| :: NameReady(e, names[i], ctx)) by {
        assert forall i | 0 <= i < |names[1..]| :: names[1..][i] == names[i + 1];
      }
      FirstButton(e, names, ctx);
    }
  }

  lemma FirstButton(e: Env, names: seq<Json>, ctx: Context)
    requires names != []
    ensures (Buttons(e, names).Some? && RenderItems(e, Buttons(e, names).value, ctx).Some?) <==>
            NameReady(e, names[0], ctx) && Buttons(e, names[1..]).Some?
            && RenderItems(e, Buttons(e, names[1..]).value, ctx).Some?
  {
    hide RenderNode, TextReady, Button, RawText, HasActions;
    var found := ActionOf(e, names[0]);
    if found.Some? {
      var action := found.value;
      var carried := Carried(e, action);
      if carried.Some? && Buttons(e, names[1..]).Some? {
        ButtonRendersIff(e, action, carried.value, ctx);
        var head, rest := Obj(Button(action, carried.value)), Buttons(e, names[1..]).value;
        assert Buttons(e, names).value == [head] + rest;
        assert ([head] + rest)[1..] == rest;
      }
    }
  }

  lemma ActionsNodeIff(e: Env, fields: Object, ctx: Context)
    requires REGION !in fields && ACTIONS in fields && forall key | key in fields :: key == ACTIONS
    ensures RenderNode(e, Obj(fields), ctx).Some? <==>
            fields[ACTIONS].Arr? && forall i | 0 <= i < |fields[ACTIONS].items| ::
              NameReady(e, fields[ACTIONS].items[i], ctx)
  {
    hide NameReady, RenderItems, Buttons, HasActions;
    var names := fields[ACTIONS];
    if names.Arr? {
      ButtonsRenderIff(e, names.items, ctx);
      if Buttons(e, names.items).Some? {
        var block := ActionsBlock(e, names).value;
        BlockRendersIff(e, Buttons(e, names.items).value, block, ctx);
        assert RenderNode(e, Obj(fields), ctx) == RenderNode(e, block, ctx);
      }
    }
  }

  lemma BlockRendersIff(e: Env, buttons: seq<Json>, block: Json, ctx: Context)
    requires block == Obj(map["type" := Str("actions"), "block_id" := Str(e.doc.name + ".actions"),
             "elements" := Arr(buttons)])
    ensures RenderNode(e, block, ctx).Some? <==> RenderItems(e, buttons, ctx).Some?
  {
    hide RenderItems, RenderText, HasActions;
    var fields := block.fields;
    var slot := SlotOf(fields);
    FieldsRenderIff(e, fields, ctx);
    assert RenderField(e, "type", fields["type"], slot, ctx).Some?;
    assert RenderField(e, "block_id", fields["block_id"], slot, ctx).Some?;
    assert RenderField(e, "elements", fields["elements"], slot, ctx) == RenderNode(e, Arr(buttons), ctx);
  }

  // ---- Checker soundness -------------------------------------------------

  lemma UseRenders(e: Env, t: Token, ctx: Context, slot: TextSlot)
    requires WellTyped(e.doc.inputs, e.values) && ContextTyped(ctx)
    requires UseAllowed(t, e.doc, ScopeOf(ctx), slot)
    ensures TokenRenders(t, e.values, ctx)
  {
  }

  lemma InspectedTextReady(e: Env, s: string, ctx: Context, slot: TextSlot)
    requires WellTyped(e.doc.inputs, e.values) && ContextTyped(ctx)
    requires InspectString(e.host, e.doc, s, ScopeOf(ctx), slot).Some?
    ensures TextReady(e, s, ctx)
  {
    hide Parse, UseAllowed, TokenRenders;
    forall t | t in Parse(e.host, s).value
      ensures TokenRenders(t, e.values, ctx)
    {
      UseRenders(e, t, ctx, slot);
    }
  }

  lemma ItemsTyped(bound: Slot)
    requires RegionItems(bound).Some?
    ensures forall i | 0 <= i < |RegionItems(bound).value| ::
              ContextTyped(Item(RegionItems(bound).value[i], bound.input.kind))
    ensures IsPresent(bound.value) && (HasType(bound.value, bound.input.kind)) ==> RegionItems(bound).value != []
  {
    hide SplitLong;
  }

  /** An accepted node renders for every well-typed assignment exactly when the
      actions of its entered regions are ready. */
  lemma {:induction false} CheckedRendersIff(e: Env, node: Json, ctx: Context)
    requires WellTyped(e.doc.inputs, e.values) && ContextTyped(ctx)
    requires Inspect(e.host, e.doc, node, ScopeOf(ctx)).Some?
    ensures RenderNode(e, node, ctx).Some? <==> ActionsReady(e, node, ctx, true)
    decreases node, 1
  {
    hide TextReady, RenderText, InspectString, HasActions, WellTyped;
    match node
    case Null | Bool(_) | Num(_) =>
    case Str(s) =>
      InspectedTextReady(e, s, ctx, PlainText);
      TextReadyIff(e, s, ctx, PlainText);
    case Arr(items) =>
      InspectItemsAll(e.host, e.doc, items, ScopeOf(ctx));
      ItemsRenderIff(e, items, ctx);
      forall i | 0 <= i < |items|
        ensures RenderNode(e, items[i], ctx).Some? <==> ActionsReady(e, items[i], ctx, true)
      {
        CheckedRendersIff(e, items[i], ctx);
      }
    case Obj(fields) =>
      if REGION in fields {
        CheckedRegionIff(e, fields, ctx);
      } else if ACTIONS in fields {
        CheckedActionsIff(e, fields, ctx);
      } else {
        CheckedFieldsIff(e, fields, ctx);
      }
  }

  lemma CheckedActionsIff(e: Env, fields: Object, ctx: Context)
    requires REGION !in fields && ACTIONS in fields
    requires Inspect(e.host, e.doc, Obj(fields), ScopeOf(ctx)).Some?
    ensures RenderNode(e, Obj(fields), ctx).Some? <==> ActionsReady(e, Obj(fields), ctx, true)
  {
    hide RenderNode, ActionReady;
    ActionsNodeIff(e, fields, ctx);
  }

  lemma {:induction false} CheckedFieldsIff(e: Env, fields: Object, ctx: Context)
    requires WellTyped(e.doc.inputs, e.values) && ContextTyped(ctx)
    requires REGION !in fields && ACTIONS !in fields
    requires Inspect(e.host, e.doc, Obj(fields), ScopeOf(ctx)).Some?
    ensures RenderNode(e, Obj(fields), ctx).Some? <==> ActionsReady(e, Obj(fields), ctx, true)
    decreases Obj(fields), 0
  {
    hide RenderNode, TextReady, RenderText, InspectString, HasActions, WellTyped;
    FieldsRenderIff(e, fields, ctx);
    var slot := SlotOf(fields);
    forall key | key in fields
      ensures RenderField(e, key, fields[key], slot, ctx).Some? <==>
                FixedKey(key) || ActionsReady(e, fields[key], ctx, true)
    {
      var child := fields[key];
      assert InspectField(e.host, e.doc, key, child, slot, ScopeOf(ctx)).Some?;
      if !FixedKey(key) {
        if child.Str? {
          InspectedTextReady(e, child.s, ctx, slot);
          PlainField(e, key, child.s, slot, ctx);
        } else {
          CheckedRendersIff(e, child, ctx);
        }
      }
    }
  }

  lemma {:induction false} CheckedRegionIff(e: Env, fields: Object, ctx: Context)
    requires WellTyped(e.doc.inputs, e.values) && ContextTyped(ctx)
    requires REGION in fields && Inspect(e.host, e.doc, Obj(fields), ScopeOf(ctx)).Some?
    ensures RenderNode(e, Obj(fields), ctx).Some? <==> ActionsReady(e, Obj(fields), ctx, true)
    decreases Obj(fields), 0
  {
    hide RenderNode, TextReady, HasActions, ValidName, RegionItems;
    assert InspectRegion(e.host, e.doc, fields, ScopeOf(ctx)).Some?;
    RegionNode(e, fields, ctx);
    var name := StringAt(fields, REGION);
    var bound := e.values[name];
    if Entered(e, fields) {
      if EACH in fields {
        ListsHaveItems(bound);
        var items := RegionItems(bound).value;
        ItemsTyped(bound);
        EachRendersIff(e, fields[EACH], items, bound.input.kind);
        forall i | 0 <= i < |items|
          ensures RenderNode(e, fields[EACH], Item(items[i], bound.input.kind)).Some? <==>
                  ActionsReady(e, fields[EACH], Item(items[i], bound.input.kind), true)
        {
          CheckedRendersIff(e, fields[EACH], Item(items[i], bound.input.kind));
        }
      } else {
        CheckedRendersIff(e, fields[BLOCK], ctx);
      }
    }
  }

  lemma ListsHaveItems(bound: Slot)
    ensures RegionItems(bound).Some? <==> bound.input.kind.LongTextInput? || bound.input.kind.PairsInput?
  {
  }

  lemma RegionNode(e: Env, fields: Object, ctx: Context)
    requires REGION in fields
    ensures RenderNode(e, Obj(fields), ctx).Some? <==> RenderRegion(e, fields, ctx).Some?
    ensures StringAt(fields, REGION) in e.values && !Entered(e, fields) ==> RenderRegion(e, fields, ctx) == Some([])
  {
    hide HasActions;
  }

  /** Checker soundness: an accepted layout with no actions block cannot fail at
      run time, under either string renderer. */
  lemma CheckerSound(e: Env, node: Json, ctx: Context)
    requires WellTyped(e.doc.inputs, e.values) && ContextTyped(ctx)
    requires Inspect(e.host, e.doc, node, ScopeOf(ctx)).Some? && !HasActions(node)
    ensures RenderNode(e, node, ctx).Some?
  {
    CheckedRendersIff(e, node, ctx);
    NoActionsIsReady(e, node, ctx, true);
  }

  // ---- One maximal render is a complete witness --------------------------

  /** Every input has a present value, so every region is entered. */
  predicate AllPresent(values: Values) {
    forall name | name in values :: IsPresent(values[name].value)
  }

  /** w renders the same document under a fully present assignment. */
  ghost predicate Witnesses(w: Env, e: Env) {
    && w.doc == e.doc && w.host == e.host
    && WellTyped(e.doc.inputs, w.values) && AllPresent(w.values) && WellTyped(e.doc.inputs, e.values)
  }

  /** e supplies, for each input, either nothing or what the witness supplied. */
  predicate Thins(w: Env, e: Env) {
    forall name | name in e.values && name in w.values ::
      e.values[name].value.Nil? || e.values[name].value == w.values[name].value
  }

  predicate SameScope(a: Context, b: Context) {
    ContextTyped(a) && ContextTyped(b) && ScopeOf(a) == ScopeOf(b)
  }

  lemma TokenTransfers(w: Env, e: Env, t: Token, cw: Context, ctx: Context)
    requires Witnesses(w, e) && SameScope(cw, ctx) && TokenRenders(t, w.values, cw)
    ensures TokenRenders(t, e.values, ctx)
  {
  }

  lemma TextTransfers(w: Env, e: Env, s: string, cw: Context, ctx: Context)
    requires Witnesses(w, e) && SameScope(cw, ctx) && TextReady(w, s, cw)
    ensures TextReady(e, s, ctx)
  {
    hide Parse, TokenRenders, Witnesses, SameScope;
    WitnessHost(w, e);
    forall t | t in Parse(e.host, s).value
      ensures TokenRenders(t, e.values, ctx)
    {
      TokenTransfers(w, e, t, cw, ctx);
    }
  }

  lemma WitnessHost(w: Env, e: Env)
    requires Witnesses(w, e)
    ensures w.host == e.host && w.doc == e.doc && w.values.Keys == e.values.Keys == e.doc.inputs.Keys
  {
  }

  lemma CarryTransfers(w: Env, e: Env, action: Action)
    requires Witnesses(w, e) && CarryTyped(w, action)
    ensures CarryTyped(e, action)
  {
  }

  lemma ThinCarryReady(w: Env, e: Env, action: Action, cw: Context, ctx: Context)
    requires Witnesses(w, e) && SameScope(cw, ctx) && Thins(w, e) && CarryReady(w, action, cw)
    ensures CarryReady(e, action, ctx)
  {
    hide SameScope, TextReady;
    WitnessHost(w, e);
    if action.carries in e.values && !e.values[action.carries].value.Nil? {
      var raw := RawText(e.host, e.values[action.carries].value, e.values[action.carries].input.kind);
      if raw.Some? && action.carries != "" {
        TextTransfers(w, e, raw.value, cw, ctx);
      }
    }
  }

  lemma NameTransfers(w: Env, e: Env, name: Json, cw: Context, ctx: Context)
    requires Witnesses(w, e) && SameScope(cw, ctx) && NameReady(w, name, cw)
    ensures ActionOf(e, name).Some?
    ensures NameReady(e, name, ctx) <==> CarryReady(e, ActionOf(e, name).value, ctx)
    ensures Thins(w, e) ==> CarryReady(e, ActionOf(e, name).value, ctx)
  {
    hide Witnesses, SameScope, TextReady, CarryTyped, CarryReady, Thins;
    WitnessHost(w, e);
    if Thins(w, e) {
      ThinCarryReady(w, e, ActionOf(e, name).value, cw, ctx);
    }
    var action := ActionOf(e, name).value;
    CarryTransfers(w, e, action);
    TextTransfers(w, e, action.text, cw, ctx);
    if action.style != "" {
      TextTransfers(w, e, action.style, cw, ctx);
    }
  }

  /** If one fully present render succeeds, every well-typed render succeeds
      exactly when the text its actions carry survives being rendered again. */
  lemma {:induction false} WitnessRendersIff(w: Env, e: Env, node: Json, cw: Context, ctx: Context)
    requires Witnesses(w, e) && SameScope(cw, ctx) && RenderNode(w, node, cw).Some?
    ensures RenderNode(e, node, ctx).Some? <==> ActionsReady(e, node, ctx, false)
    ensures Thins(w, e) ==> ActionsReady(e, node, ctx, false)
    decreases node, 1
  {
    hide TextReady, RenderText, HasActions, Witnesses, SameScope, Thins;
    match node
    case Null | Bool(_) | Num(_) =>
    case Str(s) =>
      TextReadyIff(w, s, cw, PlainText);
      TextReadyIff(e, s, ctx, PlainText);
      TextTransfers(w, e, s, cw, ctx);
    case Arr(items) =>
      ItemsRenderIff(w, items, cw);
      ItemsRenderIff(e, items, ctx);
      forall i | 0 <= i < |items|
        ensures RenderNode(e, items[i], ctx).Some? <==> ActionsReady(e, items[i], ctx, false)
        ensures Thins(w, e) ==> ActionsReady(e, items[i], ctx, false)
      {
        WitnessRendersIff(w, e, items[i], cw, ctx);
      }
    case Obj(fields) =>
      if REGION in fields {
        WitnessRegionIff(w, e, fields, cw, ctx);
      } else if ACTIONS in fields {
        WitnessActionsIff(w, e, fields, cw, ctx);
      } else {
        WitnessFieldsIff(w, e, fields, cw, ctx);
      }
  }

  lemma WitnessActionsIff(w: Env, e: Env, fields: Object, cw: Context, ctx: Context)
    requires Witnesses(w, e) && SameScope(cw, ctx) && REGION !in fields && ACTIONS in fields
    requires RenderNode(w, Obj(fields), cw).Some?
    ensures RenderNode(e, Obj(fields), ctx).Some? <==> ActionsReady(e, Obj(fields), ctx, false)
    ensures Thins(w, e) ==> ActionsReady(e, Obj(fields), ctx, false)
  {
    hide NameReady, CarryReady, Witnesses, SameScope, Thins;
    assert forall key | key in fields :: key == ACTIONS;
    ActionsNodeIff(w, fields, cw);
    ActionsNodeIff(e, fields, ctx);
    var names := fields[ACTIONS].items;
    forall i | 0 <= i < |names|
      ensures ActionOf(e, names[i]).Some?
      ensures NameReady(e, names[i], ctx) <==> CarryReady(e, ActionOf(e, names[i]).value, ctx)
      ensures Thins(w, e) ==> CarryReady(e, ActionOf(e, names[i]).value, ctx)
    {
      NameTransfers(w, e, names[i], cw, ctx);
    }
  }

  lemma {:induction false} WitnessFieldsIff(w: Env, e: Env, fields: Object, cw: Context, ctx: Context)
    requires Witnesses(w, e) && SameScope(cw, ctx) && REGION !in fields && ACTIONS !in fields
    requires RenderNode(w, Obj(fields), cw).Some?
    ensures RenderNode(e, Obj(fields), ctx).Some? <==> ActionsReady(e, Obj(fields), ctx, false)
    ensures Thins(w, e) ==> ActionsReady(e, Obj(fields), ctx, false)
    decreases Obj(fields), 0
  {
    hide RenderNode, TextReady, RenderText, HasActions, Witnesses, SameScope, Thins;
    FieldsRenderIff(w, fields, cw);
    FieldsRenderIff(e, fields, ctx);
    var slot := SlotOf(fields);
    forall key | key in fields
      ensures RenderField(e, key, fields[key], slot, ctx).Some? <==>
                FixedKey(key) || ActionsReady(e, fields[key], ctx, false)
      ensures Thins(w, e) ==> FixedKey(key) || ActionsReady(e, fields[key], ctx, false)
    {
      var child := fields[key];
      assert RenderField(w, key, child, slot, cw).Some?;
      if !FixedKey(key) {
        if child.Str? {
          PlainField(w, key, child.s, slot, cw);
          PlainField(e, key, child.s, slot, ctx);
          TextTransfers(w, e, child.s, cw, ctx);
        } else {
          WitnessRendersIff(w, e, child, cw, ctx);
        }
      }
    }
  }

  lemma WitnessBound(w: Env, e: Env, fields: Object)
    requires Witnesses(w, e) && Entered(e, fields)
    ensures Entered(w, fields)
    ensures var name := StringAt(fields, REGION);
            && name in w.values && w.values[name].input == e.values[name].input
            && IsPresent(w.values[name].value) && HasType(w.values[name].value, w.values[name].input.kind)
  {
  }

  lemma {:induction false} WitnessRegionIff(w: Env, e: Env, fields: Object, cw: Context, ctx: Context)
    requires Witnesses(w, e) && SameScope(cw, ctx) && REGION in fields
    requires RenderNode(w, Obj(fields), cw).Some?
    ensures RenderNode(e, Obj(fields), ctx).Some? <==> ActionsReady(e, Obj(fields), ctx, false)
    ensures Thins(w, e) ==> ActionsReady(e, Obj(fields), ctx, false)
    decreases Obj(fields), 0
  {
    hide RenderNode, TextReady, HasActions, RegionItems, Witnesses, Thins;
    RegionNode(w, fields, cw);
    RegionNode(e, fields, ctx);
    WitnessHost(w, e);
    assert StringAt(fields, REGION) in w.values;
    if Entered(e, fields) {
      WitnessBound(w, e, fields);
      if EACH in fields {
        var each := fields[EACH];
        var bw, be := w.values[StringAt(fields, REGION)], e.values[StringAt(fields, REGION)];
        ListsHaveItems(bw);
        ListsHaveItems(be);
        ItemsTyped(bw);
        ItemsTyped(be);
        var iw, ie := RegionItems(bw).value, RegionItems(be).value;
        EachRendersIff(w, each, iw, bw.input.kind);
        EachRendersIff(e, each, ie, be.input.kind);
        forall i | 0 <= i < |ie|
          ensures RenderNode(e, each, Item(ie[i], be.input.kind)).Some? <==>
                  ActionsReady(e, each, Item(ie[i], be.input.kind), false)
          ensures Thins(w, e) ==> ActionsReady(e, each, Item(ie[i], be.input.kind), false)
        {
          WitnessRendersIff(w, e, each, Item(iw[0], bw.input.kind), Item(ie[i], be.input.kind));
        }
      } else if BLOCK in fields {
        WitnessRendersIff(w, e, fields[BLOCK], cw, ctx);
      }
    }
  }

  // ---- Sufficient conditions ---------------------------------------------

  /** No carried string of this view holds a marker or a blocked fragment. */
  predicate CarriesPlain(e: Env) {
    forall name | name in e.doc.actions && e.doc.actions[name].carries in e.values ::
      var bound := e.values[e.doc.actions[name].carries];
      !bound.value.Nil? && RawText(e.host, bound.value, bound.input.kind).Some? ==>
        var raw := RawText(e.host, bound.value, bound.input.kind).value;
        Braceless(raw) && !Blocked(e.host, raw)
  }

  lemma {:induction false} PlainCarriesReady(e: Env, node: Json, ctx: Context)
    requires CarriesPlain(e)
    ensures ActionsReady(e, node, ctx, false)
    decreases node
  {
    hide CarriesPlain, CarryReady;
    match node
    case Arr(items) =>
      forall i | 0 <= i < |items|
        ensures ActionsReady(e, items[i], ctx, false)
      {
        PlainCarriesReady(e, items[i], ctx);
      }
    case Obj(fields) =>
      forall key, c | key in fields
        ensures ActionsReady(e, fields[key], c, false)
      {
        PlainCarriesReady(e, fields[key], c);
      }
      if REGION in fields {
        assert RegionReady(e, fields, ctx, false);
      } else if ACTIONS in fields {
        PlainNamesReady(e, fields[ACTIONS], ctx);
      }
    case _ =>
  }

  lemma PlainNamesReady(e: Env, names: Json, ctx: Context)
    requires CarriesPlain(e)
    ensures NamesReady(e, names, ctx, false)
  {
    hide CarriesPlain, CarryReady;
    if names.Arr? {
      forall i | 0 <= i < |names.items| && ActionOf(e, names.items[i]).Some?
        ensures CarryReady(e, ActionOf(e, names.items[i]).value, ctx)
      {
        PlainCarryReady(e, names.items[i], ctx);
      }
    }
  }

  lemma PlainCarryReady(e: Env, name: Json, ctx: Context)
    requires CarriesPlain(e) && ActionOf(e, name).Some?
    ensures CarryReady(e, ActionOf(e, name).value, ctx)
  {
    hide Parse, Blocked, Braceless;
    var action := ActionOf(e, name).value;
    if action.carries in e.values && !e.values[action.carries].value.Nil? {
      var bound := e.values[action.carries];
      var raw := RawText(e.host, bound.value, bound.input.kind);
      if raw.Some? {
        PlainTextRenders(e.host, Compiled, raw.value, e.values, ctx, PlainText);
      }
    }
  }

  // ---- The declared inputs a layout reads --------------------------------

  /** Two views that agree on the inputs the checker marked as used render an
      accepted layout without actions to the same blocks. */
  lemma {:induction false} RenderReadsOnlyUsed(e: Env, e': Env, node: Json, ctx: Context)
    requires e' == e.(values := e'.values) && !HasActions(node)
    requires e.values.Keys == e'.values.Keys == e.doc.inputs.Keys
    requires Inspect(e.host, e.doc, node, ScopeOf(ctx)).Some?
    requires forall n | n in Inspect(e.host, e.doc, node, ScopeOf(ctx)).value && n in e.values ::
             e.values[n] == e'.values[n]
    requires forall n | n in e.values :: e.values[n].input == e'.values[n].input == e.doc.inputs[n]
    ensures RenderNode(e, node, ctx) == RenderNode(e', node, ctx)
    decreases node, 1
  {
    hide RenderText, InspectString;
    var scope := ScopeOf(ctx);
    match node
    case Null | Bool(_) | Num(_) =>
    case Str(s) => StringReadsOnlyUsed(e, e', s, ctx, PlainText, PlainText);
    case Arr(items) => ItemsReadOnlyUsed(e, e', items, ctx);
    case Obj(fields) =>
      if REGION in fields {
        RegionReadsOnlyUsed(e, e', fields, ctx);
      } else {
        FieldsReadOnlyUsed(e, e', fields, ctx);
      }
  }

  lemma {:induction false} FieldsReadOnlyUsed(e: Env, e': Env, fields: Object, ctx: Context)
    requires e' == e.(values := e'.values) && REGION !in fields && !HasActions(Obj(fields))
    requires e.values.Keys == e'.values.Keys == e.doc.inputs.Keys
    requires Inspect(e.host, e.doc, Obj(fields), ScopeOf(ctx)).Some?
    requires forall n | n in Inspect(e.host, e.doc, Obj(fields), ScopeOf(ctx)).value && n in e.values ::
             e.values[n] == e'.values[n]
    requires forall n | n in e.values :: e.values[n].input == e'.values[n].input == e.doc.inputs[n]
    ensures RenderNode(e, Obj(fields), ctx) == RenderNode(e', Obj(fields), ctx)
    decreases Obj(fields), 0
  {
    hide RenderText, InspectString, RenderNode;
    var scope, slot := ScopeOf(ctx), SlotOf(fields);
    forall key | key in fields
      ensures RenderField(e, key, fields[key], slot, ctx) == RenderField(e', key, fields[key], slot, ctx)
    {
      var child := fields[key];
      assert InspectField(e.host, e.doc, key, child, slot, scope).Some?;
      assert forall n | n in InspectField(e.host, e.doc, key, child, slot, scope).value ::
          n in Inspect(e.host, e.doc, Obj(fields), scope).value;
      if !FixedKey(key) {
        if child.Str? {
          StringReadsOnlyUsed(e, e', child.s, ctx, slot, if key == "text" then slot else PlainText);
        } else {
          RenderReadsOnlyUsed(e, e', child, ctx);
        }
      }
    }
    SameFields(e, e', fields, ctx);
  }

  lemma SameFields(e: Env, e': Env, fields: Object, ctx: Context)
    requires REGION !in fields && ACTIONS !in fields
    requires forall key | key in fields ::
               RenderField(e, key, fields[key], SlotOf(fields), ctx) ==
                 RenderField(e', key, fields[key], SlotOf(fields), ctx)
    ensures RenderNode(e, Obj(fields), ctx) == RenderNode(e', Obj(fields), ctx)
  {
    hide RenderField, HasActions;
    FieldsRenderIff(e, fields, ctx);
    FieldsRenderIff(e', fields, ctx);
    if RenderNode(e, Obj(fields), ctx).Some? {
      var a, b := RenderNode(e, Obj(fields), ctx).value.fields, RenderNode(e', Obj(fields), ctx).value.fields;
      assert a.Keys == fields.Keys == b.Keys;
      assert forall key | key in fields :: a[key] == b[key];
      assert a == b;
    }
  }

  lemma StringReadsOnlyUsed(e: Env, e': Env, s: string, ctx: Context, checked: TextSlot, slot: TextSlot)
    requires e' == e.(values := e'.values)
    requires e.values.Keys == e'.values.Keys == e.doc.inputs.Keys
    requires InspectString(e.host, e.doc, s, ScopeOf(ctx), checked).Some?
    requires forall n | n in InspectString(e.host, e.doc, s, ScopeOf(ctx), checked).value && n in e.values ::
             e.values[n] == e'.values[n]
    ensures RenderText(e.host, e.renderer, s, e.values, ctx, slot) ==
            RenderText(e.host, e.renderer, s, e'.values, ctx, slot)
  {
    hide RenderText, Parse;
    TextDependsOnTokens(e.host, e.renderer, s, e.values, e'.values, ctx, slot);
  }

  lemma {:induction false} ItemsReadOnlyUsed(e: Env, e': Env, items: seq<Json>, ctx: Context)
    requires e' == e.(values := e'.values) && forall i | 0 <= i < |items| :: !HasActions(items[i])
    requires e.values.Keys == e'.values.Keys == e.doc.inputs.Keys
    requires InspectItems(e.host, e.doc, items, ScopeOf(ctx)).Some?
    requires forall n | n in InspectItems(e.host, e.doc, items, ScopeOf(ctx)).value && n in e.values ::
             e.values[n] == e'.values[n]
    requires forall n | n in e.values :: e.values[n].input == e'.values[n].input == e.doc.inputs[n]
    ensures RenderItems(e, items, ctx) == RenderItems(e', items, ctx)
    decreases items, 0
  {
    hide RenderNode, Inspect;
    if items != [] {
      RenderReadsOnlyUsed(e, e', items[0], ctx);
      assert forall i | 0 <= i < |items[1..]| :: items[1..][i] == items[i + 1];
      ItemsReadOnlyUsed(e, e', items[1..], ctx);
    }
  }

  lemma {:induction false} RegionReadsOnlyUsed(e: Env, e': Env, fields: Object, ctx: Context)
    requires e' == e.(values := e'.values) && REGION in fields && !HasActions(Obj(fields))
    requires e.values.Keys == e'.values.Keys == e.doc.inputs.Keys
    requires Inspect(e.host, e.doc, Obj(fields), ScopeOf(ctx)).Some?
    requires forall n | n in Inspect(e.host, e.doc, Obj(fields), ScopeOf(ctx)).value && n in e.values ::
             e.values[n] == e'.values[n]
    requires forall n | n in e.values :: e.values[n].input == e'.values[n].input == e.doc.inputs[n]
    ensures RenderRegion(e, fields, ctx) == RenderRegion(e', fields, ctx)
    decreases Obj(fields), 0
  {
    hide RenderNode, ValidName, RegionItems;
    var name := StringAt(fields, REGION);
    assert InspectRegion(e.host, e.doc, fields, ScopeOf(ctx)).Some?;
    assert e.values[name] == e'.values[name];
    if EACH in fields {
      ListsHaveItems(e.values[name]);
      var kind := e.values[name].input.kind;
      var items := RegionItems(e.values[name]).value;
      forall item
        ensures RenderNode(e, fields[EACH], Item(item, kind)) == RenderNode(e', fields[EACH], Item(item, kind))
      {
        RenderReadsOnlyUsed(e, e', fields[EACH], Item(item, kind));
      }
      SameEach(e, e', fields[EACH], items, kind);
    } else {
      RenderReadsOnlyUsed(e, e', fields[BLOCK], ctx);
    }
  }

  lemma {:induction false} SameEach(e: Env, e': Env, each: Json, items: seq<Value>, kind: InputType)
    requires forall item :: RenderNode(e, each, Item(item, kind)) == RenderNode(e', each, Item(item, kind))
    ensures RenderEach(e, each, items, kind) == RenderEach(e', each, items, kind)
  {
    hide RenderNode;
    if items != [] {
      SameEach(e, e', each, items[1..], kind);
    }
  }

  // ---- Splitting long text -----------------------------------------------

  /** The chunks reassemble to the text; all but the last are full. */
  lemma {:induction false} ChunksReassemble(value: string, chunk: int)
    requires chunk > 0 && value != ""
    ensures var parts := Chunks(value, chunk);
            && Concat(parts) == value && 0 < |parts[|parts| - 1]| <= chunk
            && forall i | 0 <= i < |parts| - 1 :: |parts[i]| == chunk
    decreases |value|
  {
    if |value| <= chunk {
      assert Concat([value]) == value + Concat([]) == value;
    } else {
      var rest := Chunks(value[chunk..], chunk);
      ChunksReassemble(value[chunk..], chunk);
      assert Chunks(value, chunk) == [value[..chunk]] + rest;
      assert ([value[..chunk]] + rest)[1..] == rest;
      assert value[..chunk] + value[chunk..] == value;
    }
  }

  /** splitLongText: the parts of any text, empty ones and unlimited chunks
      included, reassemble to it and keep to the limit. */
  lemma SplitReassembles(value: string, chunk: int)
    ensures var parts := SplitLong(value, chunk);
            && Concat(parts) == value && (chunk <= 0 ==> |parts| == 1)
            && (chunk > 0 ==> |parts[|parts| - 1]| <= chunk && forall i | 0 <= i < |parts| - 1 :: |parts[i]| == chunk)
  {
    if chunk <= 0 || value == "" {
      assert Concat([value]) == value + Concat([]) == value;
    } else {
      ChunksReassemble(value, chunk);
    }
  }
}

/** What a rendered layout holds, entry by entry: objects, arrays, regions and
    buttons (internal/blockkit/region.go). */
module Views {
  import opened Basics
  import opened Contract
  import opened Text
  import opened Placeholder
  import opened Render
  import opened Layout
  import opened LayoutLaws

  // ---- Objects and arrays ------------------------------------------------

  /** The rendering of one entry of an object. */
  predicate EntryShows(e: Env, fields: Object, key: string, ctx: Context, shown: Json)
    requires key in fields
  {
    if key in {"type", "block_id", "action_id", "callback_id"} then shown == fields[key]
    else if fields[key].Str? then
      var marked := key == "text" && "type" in fields && fields["type"] == Str("mrkdwn");
      shown.Str? && RenderText(e.host, e.renderer, fields[key].s, e.values, ctx,
                               if marked then Markdown else PlainText) == Some(shown.s)
    else RenderNode(e, fields[key], ctx) == Some(shown)
  }

  /** An object keeps its keys: the identifying ones as they are, a text in the
      slot its object declares, other strings as plain text. */
  lemma ObjectShows(e: Env, fields: Object, ctx: Context)
    requires "region" !in fields && "actions" !in fields && RenderNode(e, Obj(fields), ctx).Some?
    ensures var out := RenderNode(e, Obj(fields), ctx).value;
            && out.Obj? && out.fields.Keys == fields.Keys
            && forall key | key in fields :: EntryShows(e, fields, key, ctx, out.fields[key])
  {
    hide RenderText, HasActions;
    FieldsRenderIff(e, fields, ctx);
    forall key | key in fields
      ensures EntryShows(e, fields, key, ctx, RenderNode(e, Obj(fields), ctx).value.fields[key])
    {
      EntryIs(e, fields, key, ctx);
    }
  }

  lemma EntryIs(e: Env, fields: Object, key: string, ctx: Context)
    requires key in fields && RenderField(e, key, fields[key], SlotOf(fields), ctx).Some?
    ensures EntryShows(e, fields, key, ctx, RenderField(e, key, fields[key], SlotOf(fields), ctx).value)
  {
    hide RenderText, RenderNode, HasActions;
  }

  function Chain(a: Option<seq<Json>>, b: Option<seq<Json>>): Option<seq<Json>> {
    if a.None? || b.None? then None else Some(a.value + b.value)
  }

  lemma ChainFrom(part: seq<Json>, a: Option<seq<Json>>, b: Option<seq<Json>>)
    ensures Prepend(part, Chain(a, b)) == Chain(Prepend(part, a), b) && Chain(Some([]), b) == b
  {
    if a.Some? && b.Some? { assert part + (a.value + b.value) == part + a.value + b.value; }
    if b.Some? { assert [] + b.value == b.value; }
  }

  /** Entries are rendered on their own and in order. */
  lemma {:induction false} ArrayShows(e: Env, a: seq<Json>, b: seq<Json>, ctx: Context)
    ensures RenderItems(e, a + b, ctx) == Chain(RenderItems(e, a, ctx), RenderItems(e, b, ctx))
  {
    hide RenderNode, HasActions, IsRegion;
    if a == [] {
      assert a + b == b;
      ChainFrom([], None, RenderItems(e, b, ctx));
    } else {
      ArrayShows(e, a[1..], b, ctx);
      assert (a + b)[1..] == a[1..] + b && (a + b)[0] == a[0];
      var first := RenderNode(e, a[0], ctx);
      if first.Some? {
        ChainFrom(if IsRegion(a[0]) && first.value.Arr? then first.value.items else [first.value],
          RenderItems(e, a[1..], ctx), RenderItems(e, b, ctx));
      }
    }
  }

  /** A region contributes its blocks, any other entry one. */
  lemma EntryOfArray(e: Env, item: Json, ctx: Context)
    ensures RenderItems(e, [item], ctx) ==
            if item.Obj? && "region" in item.fields then RenderRegion(e, item.fields, ctx)
            else if RenderNode(e, item, ctx).None? then None
            else Some([RenderNode(e, item, ctx).value])
  {
    hide HasActions, RenderText, RenderField, RenderRegion;
    assert [item][1..] == [];
    assert RenderItems(e, [], ctx) == Some([]);
    if RenderNode(e, item, ctx).Some? {
      PrependNone([RenderNode(e, item, ctx).value], None);
      if IsRegion(item) { PrependNone(RenderNode(e, item, ctx).value.items, None); }
    }
  }

  lemma {:induction false} EntriesShow(e: Env, items: seq<Json>, ctx: Context)
    requires RenderItems(e, items, ctx).Some? && forall i | 0 <= i < |items| :: !IsRegion(items[i])
    ensures var out := RenderItems(e, items, ctx).value;
            |out| == |items| && forall i | 0 <= i < |items| :: RenderNode(e, items[i], ctx) == Some(out[i])
  {
    hide RenderNode, HasActions;
    if items != [] {
      EntriesShow(e, items[1..], ctx);
    }
  }

  // ---- Regions -----------------------------------------------------------

  predicate Absent(v: Value) {
    v in {Nil, Contract.Text(""), Flag(false), Pairs([])}
  }

  /** Nothing of the region is shown: its input, or the one it is shown for, is
      absent. */
  predicate Hidden(e: Env, fields: Object)
    requires "region" in fields
  {
    || (StringAt(fields, "region") in e.values && Absent(e.values[StringAt(fields, "region")].value))
    || ("when" in fields && fields["when"].Str?
        && (fields["when"].s !in e.values || Absent(e.values[fields["when"].s].value)))
  }

  /** At most n characters of the text. */
  function Stretch(text: string, from: nat, n: nat): string {
    if from > |text| then "" else if from + n <= |text| then text[from..from + n] else text[from..]
  }

  /** Where part i of a long text begins. */
  function Start(i: nat, chunk: nat): nat { i * chunk }

  lemma StartStep(i: nat, chunk: nat)
    ensures Start(0, chunk) == 0 && Start(i + 1, chunk) == Start(i, chunk) + chunk
  {
  }

  /** Part i of a long text. */
  function PartOf(text: string, chunk: int, i: nat): string {
    if chunk <= 0 then text else Stretch(text, Start(i, chunk), chunk)
  }

  lemma StretchBehind(text: string, a: nat, b: nat, n: nat)
    requires a <= |text|
    ensures Stretch(text[a..], b, n) == Stretch(text, a + b, n)
  {
    if a + b <= |text| {
      assert text[a..][b..] == text[a + b..];
    }
  }

  lemma {:induction false} ChunkAt(text: string, chunk: int, i: nat)
    requires chunk > 0 && i < |Chunks(text, chunk)|
    ensures Start(i, chunk) < |text| && Chunks(text, chunk)[i] == Stretch(text, Start(i, chunk), chunk)
  {
    hide Start;
    if i == 0 {
      StartStep(0, chunk);
    } else {
      StartStep(i - 1, chunk);
      ChunkAt(text[chunk..], chunk, i - 1);
      StretchBehind(text, chunk, Start(i - 1, chunk), chunk);
    }
  }

  /** The last part begins inside the text and reaches its end. */
  lemma {:induction false} ChunkCount(text: string, chunk: int)
    requires chunk > 0 && text != ""
    ensures Start(|Chunks(text, chunk)| - 1, chunk) < |text| <= Start(|Chunks(text, chunk)|, chunk)
  {
    hide Start;
    if |text| <= chunk {
      StartStep(0, chunk);
    } else {
      ChunkCount(text[chunk..], chunk);
      StartStep(|Chunks(text[chunk..], chunk)| - 1, chunk);
      StartStep(|Chunks(text[chunk..], chunk)|, chunk);
    }
  }

  /** The items of a list are its pairs, those of a long text its parts. */
  lemma ItemsAre(bound: Slot)
    requires RegionItems(bound).Some?
    ensures bound.input.kind.PairsInput? && bound.value.Pairs? ==>
              RegionItems(bound).value == seq(|bound.value.pairs|, i requires 0 <= i < |bound.value.pairs| =>
                OnePair(bound.value.pairs[i]))
    ensures bound.input.kind.LongTextInput? && bound.value.Text? && bound.value.text != "" ==>
              var text, chunk, n := bound.value.text, bound.input.chunk, |RegionItems(bound).value|;
              && n > 0 && (if chunk > 0 then Start(n - 1, chunk) < |text| <= Start(n, chunk) else n == 1)
              && RegionItems(bound).value == seq(n, i requires 0 <= i < n => Contract.Text(PartOf(text, chunk, i)))
  {
    hide Chunks, Start;
    if bound.input.kind.LongTextInput? && bound.value.Text? && bound.value.text != "" && bound.input.chunk > 0 {
      var text, chunk := bound.value.text, bound.input.chunk;
      ChunkCount(text, chunk);
      forall i | 0 <= i < |Chunks(text, chunk)|
        ensures Chunks(text, chunk)[i] == PartOf(text, chunk, i)
      {
        ChunkAt(text, chunk, i);
      }
    }
  }

  lemma {:induction false} EachShows(e: Env, each: Json, items: seq<Value>, kind: InputType)
    requires RenderEach(e, each, items, kind).Some?
    ensures var out := RenderEach(e, each, items, kind).value;
            |out| == |items| && forall i | 0 <= i < |items| :: RenderNode(e, each, Item(items[i], kind)) == Some(out[i])
  {
    hide RenderNode, HasActions;
    if items != [] {
      EachShows(e, each, items[1..], kind);
    }
  }

  /** A region is shown unless it is hidden: once, or once for each item, block i
      with item i in scope. */
  lemma RegionShows(e: Env, fields: Object, ctx: Context)
    requires "region" in fields && RenderNode(e, Obj(fields), ctx).Some?
    ensures var out := RenderNode(e, Obj(fields), ctx).value;
            && out.Arr?
            && (Hidden(e, fields) ==> out.items == [])
            && (!Hidden(e, fields) && "each" !in fields && "block" in fields ==>
                  |out.items| == 1 && RenderNode(e, fields["block"], ctx) == Some(out.items[0]))
            && (!Hidden(e, fields) && "each" in fields ==>
                  && StringAt(fields, "region") in e.values
                  && var bound := e.values[StringAt(fields, "region")];
                  && (bound.input.kind.PairsInput? && bound.value.Pairs? ==>
                        |out.items| == |bound.value.pairs| && forall i | 0 <= i < |out.items| ::
                          RenderNode(e, fields["each"], Item(OnePair(bound.value.pairs[i]), PairsInput)) ==
                            Some(out.items[i]))
                  && (bound.input.kind.LongTextInput? && bound.value.Text? ==>
                        && |out.items| > 0
                        && (if bound.input.chunk > 0 then
                              Start(|out.items| - 1, bound.input.chunk) < |bound.value.text| <=
                                Start(|out.items|, bound.input.chunk)
                            else |out.items| == 1)
                        && forall i | 0 <= i < |out.items| ::
                             RenderNode(e, fields["each"],
                               Item(Contract.Text(PartOf(bound.value.text, bound.input.chunk, i)), LongTextInput)) ==
                               Some(out.items[i])))
  {
    hide RegionItems, PartOf, Start, HasActions, RenderField, RenderItems, RenderText;
    if !Hidden(e, fields) && "each" in fields {
      var bound := e.values[StringAt(fields, "region")];
      ItemsAre(bound);
      EachShows(e, fields["each"], RegionItems(bound).value, bound.input.kind);
    }
  }

  // ---- Buttons -----------------------------------------------------------

  /** The string node is the rendering of a text. */
  predicate StringShows(e: Env, text: string, ctx: Context, shown: Json) {
    shown.Str? && RenderText(e.host, e.renderer, text, e.values, ctx, PlainText) == Some(shown.s)
  }

  /** The text that stands for a value an action carries. */
  function CarriedText(host: Host, bound: Slot): string {
    match bound.value
    case Text(t) => if IsStringType(bound.input.kind) then t else host.sprint(bound.value)
    case Stamp(at) =>
      if bound.input.kind.TimestampInput? then host.formatTime(at, "2006-01-02T15:04:05Z07:00")
      else host.sprint(bound.value)
    case _ => host.sprint(bound.value)
  }

  predicate IsBound(e: Env, name: string) {
    name != "" && name in e.values && !e.values[name].value.Nil?
  }

  predicate ButtonShows(e: Env, action: Action, ctx: Context, shown: Json) {
    && shown.Obj? && {"type", "action_id", "text"} <= shown.fields.Keys
    && shown.fields.Keys <= {"type", "action_id", "text", "style", "value"}
    && shown.fields["type"] == Str("button") && shown.fields["action_id"] == Str(action.id)
    && shown.fields["text"].Obj?
    && var text := shown.fields["text"].fields;
    && text.Keys == {"type", "text"} && text["type"] == Str("plain_text")
    && StringShows(e, action.text, ctx, text["text"])
    && ("style" in shown.fields <==> action.style != "")
    && ("style" in shown.fields ==> StringShows(e, action.style, ctx, shown.fields["style"]))
    && ("value" in shown.fields <==> IsBound(e, action.carries))
    && ("value" in shown.fields ==>
          StringShows(e, CarriedText(e.host, e.values[action.carries]), ctx, shown.fields["value"]))
  }

  lemma CarriedIs(e: Env, action: Action)
    requires Carried(e, action).Some?
    ensures Carried(e, action).value.Some? <==> IsBound(e, action.carries)
    ensures IsBound(e, action.carries) ==>
              Carried(e, action).value.value == CarriedText(e.host, e.values[action.carries])
  {
  }

  lemma TextShows(e: Env, text: string, ctx: Context)
    requires RenderNode(e, Obj(map["type" := Str("plain_text"), "text" := Str(text)]), ctx).Some?
    ensures var out := RenderNode(e, Obj(map["type" := Str("plain_text"), "text" := Str(text)]), ctx).value;
            && out.Obj? && out.fields.Keys == {"type", "text"}
            && out.fields["type"] == Str("plain_text") && StringShows(e, text, ctx, out.fields["text"])
  {
    hide RenderNode, RenderText, HasActions;
    var fields := map["type" := Str("plain_text"), "text" := Str(text)];
    ObjectShows(e, fields, ctx);
    assert fields.Keys == {"type", "text"};
    var out := RenderNode(e, Obj(fields), ctx).value;
    assert EntryShows(e, fields, "type", ctx, out.fields["type"]);
    assert EntryShows(e, fields, "text", ctx, out.fields["text"]);
  }

  lemma ButtonIs(e: Env, action: Action, ctx: Context)
    requires Carried(e, action).Some?
    requires RenderNode(e, Obj(Button(action, Carried(e, action).value)), ctx).Some?
    ensures ButtonShows(e, action, ctx, RenderNode(e, Obj(Button(action, Carried(e, action).value)), ctx).value)
  {
    hide RenderNode, RenderText, HasActions, Button, Carried, CarriedText, IsBound, StringShows;
    var fields := Button(action, Carried(e, action).value);
    ButtonFields(action, Carried(e, action).value);
    CarriedIs(e, action);
    ObjectShows(e, fields, ctx);
    var out := RenderNode(e, Obj(fields), ctx).value;
    assert EntryShows(e, fields, "text", ctx, out.fields["text"]);
    TextShows(e, action.text, ctx);
    StringEntry(e, fields, "style", ctx);
    StringEntry(e, fields, "value", ctx);
  }

  lemma StringEntry(e: Env, fields: Object, key: string, ctx: Context)
    requires "region" !in fields && "actions" !in fields && RenderNode(e, Obj(fields), ctx).Some?
    requires key in {"style", "value"}
    ensures key in fields && fields[key].Str? ==>
              var out := RenderNode(e, Obj(fields), ctx).value;
              out.Obj? && key in out.fields && StringShows(e, fields[key].s, ctx, out.fields[key])
  {
    hide RenderNode, RenderText, HasActions;
    ObjectShows(e, fields, ctx);
    if key in fields { assert EntryShows(e, fields, key, ctx, RenderNode(e, Obj(fields), ctx).value.fields[key]); }
  }

  lemma {:induction false} ButtonAt(e: Env, names: seq<Json>, i: nat)
    requires Buttons(e, names).Some? && i < |names|
    ensures |Buttons(e, names).value| == |names|
    ensures ActionOf(e, names[i]).Some? && Carried(e, ActionOf(e, names[i]).value).Some?
    ensures var action := ActionOf(e, names[i]).value;
            Buttons(e, names).value[i] == Obj(Button(action, Carried(e, action).value))
  {
    hide ActionOf, Carried, Button;
    if |names| > 1 {
      ButtonAt(e, names[1..], if i == 0 then 0 else i - 1);
    }
  }

  /** An actions entry shows one button for each named action, in order. */
  lemma ActionsShow(e: Env, names: seq<Json>, ctx: Context)
    requires RenderNode(e, Obj(map["actions" := Arr(names)]), ctx).Some?
    ensures var out := RenderNode(e, Obj(map["actions" := Arr(names)]), ctx).value;
            && out.Obj? && out.fields.Keys == {"type", "block_id", "elements"}
            && out.fields["type"] == Str("actions") && out.fields["block_id"] == Str(e.doc.name + ".actions")
            && out.fields["elements"].Arr? && |out.fields["elements"].items| == |names|
            && forall i | 0 <= i < |names| ::
                 var name := if names[i].Str? then names[i].s else "";
                 name in e.doc.actions
                 && ButtonShows(e, e.doc.actions[name], ctx, out.fields["elements"].items[i])
  {
    hide RenderNode, RenderItems, RenderText, HasActions, Buttons, Button, Carried, ButtonShows;
    BlockIs(e, names, ctx);
    var buttons := Buttons(e, names).value;
    NoRegions(e, names);
    EntriesShow(e, buttons, ctx);
    forall i | 0 <= i < |names|
      ensures ActionOf(e, names[i]).Some?
              && ButtonShows(e, ActionOf(e, names[i]).value, ctx, RenderItems(e, buttons, ctx).value[i])
    {
      ButtonAt(e, names, i);
      ButtonIs(e, ActionOf(e, names[i]).value, ctx);
    }
  }

  lemma {:induction false} NoRegions(e: Env, names: seq<Json>)
    requires Buttons(e, names).Some?
    ensures |Buttons(e, names).value| == |names|
    ensures forall i | 0 <= i < |names| :: !IsRegion(Buttons(e, names).value[i])
  {
    hide ActionOf, Carried, Button;
    if names != [] {
      NoRegions(e, names[1..]);
      var action := ActionOf(e, names[0]).value;
      ButtonFields(action, Carried(e, action).value);
    }
  }

  lemma BlockIs(e: Env, names: seq<Json>, ctx: Context)
    requires RenderNode(e, Obj(map["actions" := Arr(names)]), ctx).Some?
    ensures Buttons(e, names).Some? && RenderItems(e, Buttons(e, names).value, ctx).Some?
    ensures var out := RenderNode(e, Obj(map["actions" := Arr(names)]), ctx).value;
            && out.Obj? && out.fields.Keys == {"type", "block_id", "elements"}
            && out.fields["type"] == Str("actions") && out.fields["block_id"] == Str(e.doc.name + ".actions")
            && out.fields["elements"] == Arr(RenderItems(e, Buttons(e, names).value, ctx).value)
  {
    hide RenderItems, RenderText, HasActions, Buttons;
    var block := ActionsBlock(e, Arr(names)).value;
    var fields := map["actions" := Arr(names)];
    assert RenderNode(e, Obj(fields), ctx) == RenderNode(e, block, ctx);
    BlockShows(e, Buttons(e, names).value, block.fields, ctx);
  }

  lemma BlockShows(e: Env, buttons: seq<Json>, fields: Object, ctx: Context)
    requires fields == map["type" := Str("actions"), "block_id" := Str(e.doc.name + ".actions"),
             "elements" := Arr(buttons)]
    requires RenderNode(e, Obj(fields), ctx).Some?
    ensures RenderItems(e, buttons, ctx).Some?
    ensures var out := RenderNode(e, Obj(fields), ctx).value;
            && out.Obj? && out.fields.Keys == {"type", "block_id", "elements"}
            && out.fields["type"] == Str("actions") && out.fields["block_id"] == Str(e.doc.name + ".actions")
            && out.fields["elements"] == Arr(RenderItems(e, buttons, ctx).value)
  {
    hide RenderItems, RenderText, HasActions;
    ObjectShows(e, fields, ctx);
    assert fields.Keys == {"type", "block_id", "elements"};
    var out := RenderNode(e, Obj(fields), ctx).value;
    assert EntryShows(e, fields, "type", ctx, out.fields["type"]);
    assert EntryShows(e, fields, "block_id", ctx, out.fields["block_id"]);
    assert EntryShows(e, fields, "elements", ctx, out.fields["elements"]);
  }
}

/** The layout evaluator and checker as loops over slices and maps, proved to
    compute the functions of Layout (internal/blockkit/region.go, placeholder.go). */
module Evaluator {
  import opened Basics
  import opened Contract
  import opened Placeholder
  import opened Render
  import opened Layout
  import opened LayoutLaws

  method SplitLongText(value: string, chunk: int) returns (parts: seq<string>)
    ensures parts == SplitLong(value, chunk)
  {
    if chunk <= 0 { return [value]; }
    if |value| == 0 { return [""]; }
    parts := [];
    var start := 0;
    assert value[0..] == value;
    while start < |value|
      invariant 0 <= start
      invariant Chunks(value, chunk) == parts + ChunksFrom(value, start, chunk)
      decreases |value| - start
    {
      ChunkStep(value, start, chunk);
      var end := start + chunk;
      if end > |value| { end := |value|; }
      assert parts + ([value[start..end]] + ChunksFrom(value, start + chunk, chunk)) ==
             parts + [value[start..end]] + ChunksFrom(value, start + chunk, chunk);
      parts := parts + [value[start..end]];
      start := start + chunk;
    }
  }

  function ChunksFrom(value: string, start: nat, chunk: int): seq<string>
    requires chunk > 0
  {
    if start < |value| then Chunks(value[start..], chunk) else []
  }

  lemma ChunkStep(value: string, start: nat, chunk: int)
    requires chunk > 0 && start < |value|
    ensures ChunksFrom(value, start, chunk) ==
            [value[start..if start + chunk > |value| then |value| else start + chunk]] +
              ChunksFrom(value, start + chunk, chunk)
  {
    var rest := value[start..];
    if |rest| > chunk {
      assert rest[chunk..] == value[start + chunk..] && rest[..chunk] == value[start..start + chunk];
    } else {
      assert rest == value[start..|value|];
    }
  }

  method RegionElements(bound: Slot) returns (items: Option<seq<Value>>)
    ensures items == RegionItems(bound)
  {
    match bound.input.kind {
      case LongTextInput =>
        var parts := SplitLongText(if bound.value.Text? then bound.value.text else "", bound.input.chunk);
        var texts: seq<Value> := [];
        for i := 0 to |parts|
          invariant |texts| == i && forall k | 0 <= k < i :: texts[k] == Text(parts[k])
        {
          texts := texts + [Text(parts[i])];
        }
        assert texts == RegionItems(bound).value;
        return Some(texts);
      case PairsInput =>
        var pairs := if bound.value.Pairs? then bound.value.pairs else [];
        var items': seq<Value> := [];
        for i := 0 to |pairs|
          invariant |items'| == i && forall k | 0 <= k < i :: items'[k] == OnePair(pairs[k])
        {
          items' := items' + [OnePair(pairs[i])];
        }
        assert items' == RegionItems(bound).value;
        return Some(items');
      case _ => return None;
    }
  }

  method RenderActions(e: Env, names: Json) returns (block: Option<Json>)
    ensures block == ActionsBlock(e, names)
  {
    hide Carried, Button, ActionOf;
    if !names.Arr? { return None; }
    var items := names.items;
    var elements: seq<Json> := [];
    assert items[0..] == items;
    PrependNone(elements, Buttons(e, items));
    for i := 0 to |items|
      invariant Buttons(e, items) == Prepend(elements, Buttons(e, items[i..]))
    {
      var action := ActionOf(e, items[i]);
      if action.None? { return None; }
      var carried := Carried(e, action.value);
      if carried.None? { return None; }
      var button := Obj(Button(action.value, carried.value));
      assert items[i..][1..] == items[i + 1..];
      PrependTwice(elements, [button], Buttons(e, items[i + 1..]));
      elements := elements + [button];
    }
    assert items[|items|..] == [];
    PrependNone(elements, None);
    return Some(Obj(map["type" := Str("actions"), "block_id" := Str(e.doc.name + ".actions"),
      "elements" := Arr(elements)]));
  }

  method RenderNodeWith(e: Env, node: Json, ctx: Context) returns (rendered: Option<Json>)
    ensures rendered == RenderNode(e, node, ctx)
    decreases HasActions(node), node, 3
  {
    hide RenderText, RenderField, RenderItems, RenderRegion, ActionsBlock;
    match node {
      case Null | Bool(_) | Num(_) => return Some(node);
      case Str(s) =>
        var text := RenderWith(e.host, e.renderer, s, e.values, ctx, PlainText);
        return StrResult(text);
      case Arr(items) =>
        var result := RenderArray(e, node, ctx);
        return result;
      case Obj(fields) =>
        if REGION in fields {
          var blocks := RenderRegionWith(e, fields, ctx);
          return ArrResult(blocks);
        }
        if ACTIONS in fields {
          if exists key | key in fields :: key != ACTIONS { return None; }
          var block := RenderActions(e, fields[ACTIONS]);
          if block.None? { return None; }
          ActionsBlockHasNoActions(e, fields[ACTIONS]);
          rendered := RenderNodeWith(e, block.value, ctx);
          return rendered;
        }
        rendered := RenderObject(e, fields, ctx);
    }
  }

  method RenderArray(e: Env, node: Json, ctx: Context) returns (rendered: Option<Json>)
    requires node.Arr?
    ensures rendered == ArrResult(RenderItems(e, node.items, ctx))
    decreases HasActions(node), node, 2
  {
    hide RenderNode;
    var items := node.items;
    var result: seq<Json> := [];
    assert items[0..] == items;
    PrependNone(result, RenderItems(e, items, ctx));
    for i := 0 to |items|
      invariant RenderItems(e, items, ctx) == Prepend(result, RenderItems(e, items[i..], ctx))
    {
      assert HasActions(items[i]) ==> HasActions(node);
      var child := RenderNodeWith(e, items[i], ctx);
      assert items[i..][1..] == items[i + 1..];
      if child.None? { return None; }
      var part := if IsRegion(items[i]) && child.value.Arr? then child.value.items else [child.value];
      PrependTwice(result, part, RenderItems(e, items[i + 1..], ctx));
      result := result + part;
    }
    assert items[|items|..] == [];
    PrependNone(result, None);
    return Some(Arr(result));
  }

  /** The entries in any order the map iteration picks. */
  method RenderObject(e: Env, fields: Object, ctx: Context) returns (rendered: Option<Json>)
    requires REGION !in fields && ACTIONS !in fields
    ensures rendered == RenderNode(e, Obj(fields), ctx)
    decreases HasActions(Obj(fields)), Obj(fields), 2
  {
    hide RenderNode, RenderText, SlotOf;
    var slot := SlotOf(fields);
    var result: Object := map[];
    var pending := fields.Keys;
    FieldsRenderIff(e, fields, ctx);
    while pending != {}
      invariant pending <= fields.Keys && result.Keys == fields.Keys - pending
      invariant forall key | key in result :: RenderField(e, key, fields[key], slot, ctx) == Some(result[key])
      decreases |pending|
    {
      var key :| key in pending;
      var child := fields[key];
      assert HasActions(child) ==> HasActions(Obj(fields));
      if FixedKey(key) {
        result := result[key := child];
      } else if child.Str? {
        var text := RenderWith(e.host, e.renderer, child.s, e.values, ctx, if key == "text" then slot else PlainText);
        if text.None? { return None; }
        result := result[key := Str(text.value)];
      } else {
        var value := RenderNodeWith(e, child, ctx);
        if value.None? { return None; }
        result := result[key := value.value];
      }
      pending := pending - {key};
    }
    ObjectResult(e, fields, ctx, result);
    return Some(Obj(result));
  }

  lemma ObjectResult(e: Env, fields: Object, ctx: Context, result: Object)
    requires REGION !in fields && ACTIONS !in fields && result.Keys == fields.Keys
    requires forall key | key in result :: RenderField(e, key, fields[key], SlotOf(fields), ctx) == Some(result[key])
    ensures RenderNode(e, Obj(fields), ctx) == Some(Obj(result))
  {
    hide RenderField, HasActions;
    FieldsRenderIff(e, fields, ctx);
    var computed := RenderNode(e, Obj(fields), ctx).value.fields;
    assert computed.Keys == result.Keys;
    assert forall key | key in result :: computed[key] == result[key];
    assert computed == result;
  }

  method RenderRegionWith(e: Env, fields: Object, ctx: Context) returns (blocks: Option<seq<Json>>)
    requires REGION in fields
    ensures blocks == RenderRegion(e, fields, ctx)
    decreases HasActions(Obj(fields)), Obj(fields), 2
  {
    hide RenderNode, RegionItems;
    var name := StringAt(fields, REGION);
    if name !in e.values { return None; }
    if WHEN in fields && fields[WHEN].Str? {
      if fields[WHEN].s !in e.values || !IsPresent(e.values[fields[WHEN].s].value) { return Some([]); }
    }
    var bound := e.values[name];
    if !IsPresent(bound.value) { return Some([]); }
    if EACH in fields {
      var items := RegionElements(bound);
      if items.None? { return None; }
      var each, kind := fields[EACH], bound.input.kind;
      var result: seq<Json> := [];
      assert items.value[0..] == items.value;
      PrependNone(result, RenderEach(e, each, items.value, kind));
      for i := 0 to |items.value|
        invariant RenderEach(e, each, items.value, kind) == Prepend(result, RenderEach(e, each, items.value[i..], kind))
      {
        assert HasActions(each) ==> HasActions(Obj(fields));
        var block := RenderNodeWith(e, each, Item(items.value[i], kind));
        assert items.value[i..][1..] == items.value[i + 1..];
        if block.None? { return None; }
        PrependTwice(result, [block.value], RenderEach(e, each, items.value[i + 1..], kind));
        result := result + [block.value];
      }
      assert items.value[|items.value|..] == [];
      PrependNone(result, None);
      return Some(result);
    }
    if BLOCK !in fields { return Some([Null]); }
    assert HasActions(fields[BLOCK]) ==> HasActions(Obj(fields));
    var block := RenderNodeWith(e, fields[BLOCK], ctx);
    if block.None? { return None; }
    return Some([block.value]);
  }

  // ---- The checker over a shared used set --------------------------------

  /** used accumulates the names; on rejection it is meaningless. */
  method InspectNode(host: Host, doc: Document, node: Json, scope: Option<InputType>, used: set<string>)
    returns (ok: bool, used': set<string>)
    ensures ok == Inspect(host, doc, node, scope).Some?
    ensures ok ==> used' == used + Inspect(host, doc, node, scope).value
    decreases node, 3
  {
    hide InspectString, InspectField, InspectRegion, InspectActions, InputMark;
    ok, used' := true, used;
    match node {
      case Null | Bool(_) | Num(_) =>
      case Str(s) =>
        ok, used' := InspectText(host, doc, s, scope, PlainText, used);
      case Arr(items) =>
        assert items[0..] == items;
        for i := 0 to |items|
          invariant InspectItems(host, doc, items, scope).Some? <==> InspectItems(host, doc, items[i..], scope).Some?
          invariant InspectItems(host, doc, items, scope).Some? ==>
                    used + InspectItems(host, doc, items, scope).value ==
                      used' + InspectItems(host, doc, items[i..], scope).value
        {
          assert items[i..][1..] == items[i + 1..];
          ok, used' := InspectNode(host, doc, items[i], scope, used');
          if !ok { return; }
        }
        assert items[|items|..] == [];
        ok := true;
      case Obj(fields) =>
        used' := used + InputMark(doc, fields);
        if REGION in fields {
          ok, used' := InspectRegionWith(host, doc, fields, scope, used');
        } else if ACTIONS in fields {
          if exists key | key in fields :: key != ACTIONS { return false, used'; }
          var names := InspectActions(doc, fields[ACTIONS]);
          ok := names.Some?;
          if ok { used' := used' + names.value; }
        } else {
          ok, used' := InspectObject(host, doc, fields, scope, used');
        }
    }
  }

  method InspectText(host: Host, doc: Document, s: string, scope: Option<InputType>, slot: TextSlot, used: set<string>)
    returns (ok: bool, used': set<string>)
    ensures ok == InspectString(host, doc, s, scope, slot).Some?
    ensures ok ==> used' == used + InspectString(host, doc, s, scope, slot).value
  {
    hide UseAllowed, Parse;
    used' := used;
    var tokens := ParsePlaceholders(host, s);
    if tokens.None? { return false, used'; }
    for i := 0 to |tokens.value|
      invariant forall k | 0 <= k < i :: UseAllowed(tokens.value[k], doc, scope, slot)
      invariant used' == used + set k | 0 <= k < i && tokens.value[k].name != ITEM :: tokens.value[k].name
    {
      var token := tokens.value[i];
      if !UseAllowed(token, doc, scope, slot) {
        assert token in tokens.value;
        return false, used';
      }
      if token.name != ITEM { used' := used' + {token.name}; }
    }
    return true, used';
  }

  method InspectEntry(host: Host, doc: Document, key: string, child: Json, slot: TextSlot, scope: Option<InputType>,
                      used: set<string>)
    returns (ok: bool, used': set<string>)
    ensures ok == InspectField(host, doc, key, child, slot, scope).Some?
    ensures ok ==> used' == used + InspectField(host, doc, key, child, slot, scope).value
    decreases child, 4
  {
    hide Inspect, InspectString;
    if FixedKey(key) && child.Str? && !Braceless(child.s) { return false, used; }
    if child.Str? {
      ok, used' := InspectText(host, doc, child.s, scope, slot, used);
    } else {
      ok, used' := InspectNode(host, doc, child, scope, used);
    }
  }

  method InspectObject(host: Host, doc: Document, fields: Object, scope: Option<InputType>, used: set<string>)
    returns (ok: bool, used': set<string>)
    ensures ok <==> AllInspect(host, doc, fields, scope, fields.Keys)
    ensures ok ==> used' == used + FieldNames(host, doc, fields, scope, fields.Keys)
    decreases Obj(fields), 2
  {
    hide InspectField, FieldNames, AllInspect, Inspect, InspectString, SlotOf;
    NoFields(host, doc, fields, scope);
    var pending := fields.Keys;
    used' := used;
    assert fields.Keys - pending == {};
    while pending != {}
      invariant pending <= fields.Keys && AllInspect(host, doc, fields, scope, fields.Keys - pending)
      invariant used' == used + FieldNames(host, doc, fields, scope, fields.Keys - pending)
      decreases |pending|
    {
      var key :| key in pending;
      var child := fields[key];
      FieldNamesAdd(host, doc, fields, scope, fields.Keys - pending, key);
      ok, used' := InspectEntry(host, doc, key, child, SlotOf(fields), scope, used');
      if !ok { return; }
      assert fields.Keys - (pending - {key}) == fields.Keys - pending + {key};
      pending := pending - {key};
    }
    assert fields.Keys - pending == fields.Keys;
    return true, used';
  }

  predicate AllInspect(host: Host, doc: Document, fields: Object, scope: Option<InputType>, done: set<string>)
    requires done <= fields.Keys
  {
    forall key | key in done :: InspectField(host, doc, key, fields[key], SlotOf(fields), scope).Some?
  }

  /** The names used by the fields inspected so far. */
  function FieldNames(host: Host, doc: Document, fields: Object, scope: Option<InputType>,
                      done: set<string>): set<string>
    requires done <= fields.Keys && AllInspect(host, doc, fields, scope, done)
  {
    set key, name | key in done && name in InspectField(host, doc, key, fields[key], SlotOf(fields), scope).value ::
      name
  }

  lemma NoFields(host: Host, doc: Document, fields: Object, scope: Option<InputType>)
    ensures AllInspect(host, doc, fields, scope, {}) && FieldNames(host, doc, fields, scope, {}) == {}
  {
  }

  lemma FieldNamesAdd(host: Host, doc: Document, fields: Object, scope: Option<InputType>, done: set<string>,
                      key: string)
    requires done <= fields.Keys && key in fields && AllInspect(host, doc, fields, scope, done)
    ensures var found := InspectField(host, doc, key, fields[key], SlotOf(fields), scope);
            && (found.None? ==> !AllInspect(host, doc, fields, scope, fields.Keys))
            && (found.Some? ==>
                  && AllInspect(host, doc, fields, scope, done + {key})
                  && FieldNames(host, doc, fields, scope, done + {key}) ==
                    FieldNames(host, doc, fields, scope, done) + found.value)
  {
    hide InspectField;
  }

  method InspectRegionWith(host: Host, doc: Document, fields: Object, scope: Option<InputType>, used: set<string>)
    returns (ok: bool, used': set<string>)
    requires REGION in fields
    ensures ok == InspectRegion(host, doc, fields, scope).Some?
    ensures ok ==> used' == used + InspectRegion(host, doc, fields, scope).value
    decreases Obj(fields), 2
  {
    hide Inspect, ValidName;
    used' := used;
    var name := StringAt(fields, REGION);
    if !ValidName(name) || name !in doc.inputs { return false, used'; }
    used' := used' + {name};
    if WHEN in fields {
      if !fields[WHEN].Str? || !ValidName(fields[WHEN].s) || fields[WHEN].s !in doc.inputs { return false, used'; }
      used' := used' + {fields[WHEN].s};
    }
    if (EACH in fields) == (BLOCK in fields) { return false, used'; }
    if exists key | key in fields ::
        key != REGION && key != WHEN && key != EACH && key != BLOCK { return false, used'; }
    var kind := doc.inputs[name].kind;
    if EACH in fields {
      if !(kind.LongTextInput? || kind.PairsInput?) || !fields[EACH].Obj? { return false, used'; }
      ok, used' := InspectNode(host, doc, fields[EACH], Some(kind), used');
    } else {
      if !fields[BLOCK].Obj? { return false, used'; }
      ok, used' := InspectNode(host, doc, fields[BLOCK], scope, used');
    }
  }
}

/** The blocks a rendered layout hands to Slack: how many there are, their types
    and their block IDs (internal/blockkit/verify.go, region.go). */
module Blocks {
  import opened Basics
  import opened Contract
  import opened Placeholder
  import opened Render
  import opened Layout
  import opened LayoutLaws

  const MAX_IDENTIFIER := 255
  const MAX_MESSAGE_BLOCKS := 50
  const MAX_MODAL_BLOCKS := 100

  /** validateIdentifier. */
  predicate IdentifierValid(s: string) {
    Braceless(s) && s != "" && |s| <= MAX_IDENTIFIER && forall i | 0 <= i < |s| :: '!' <= s[i] <= '~'
  }

  /** What the verification reads of one block; "" is an absent ID. */
  datatype Head = Head(kind: string, id: string)

  function HeadOf(block: Json): Head {
    if block.Obj? then Head(StringAt(block.fields, "type"), StringAt(block.fields, "block_id")) else Head("", "")
  }

  function Heads(blocks: seq<Json>): seq<Head> {
    seq(|blocks|, i requires 0 <= i < |blocks| => HeadOf(blocks[i]))
  }

  function Limit(doc: Document): nat {
    if doc.modal then MAX_MODAL_BLOCKS else MAX_MESSAGE_BLOCKS
  }

  predicate DistinctIDs(heads: seq<Head>) {
    forall i, j | 0 <= i < j < |heads| :: heads[i].id != "" ==> heads[i].id != heads[j].id
  }

  /** The ID is an identifier, and the type is valid on the surface. */
  predicate HeadValid(doc: Document, head: Head) {
    (head.id != "" ==> IdentifierValid(head.id)) && (head.kind == "input" ==> doc.modal)
  }

  predicate AllValid(doc: Document, heads: seq<Head>) {
    forall i | 0 <= i < |heads| :: HeadValid(doc, heads[i])
  }

  /** verifyCompiled, over the top-level blocks. */
  predicate Verified(doc: Document, heads: seq<Head>) {
    |heads| <= Limit(doc) && DistinctIDs(heads) && AllValid(doc, heads)
  }

  method VerifyCompiled(doc: Document, blocks: seq<Json>) returns (ok: bool)
    ensures ok == Verified(doc, Heads(blocks))
  {
    hide IdentifierValid, StringAt;
    ghost var heads := Heads(blocks);
    var count, blockIDs: set<string> := 0, {};
    for i := 0 to |blocks|
      invariant count == i
      invariant blockIDs == set k | 0 <= k < i && heads[k].id != "" :: heads[k].id
      invariant DistinctIDs(heads[..i]) && AllValid(doc, heads[..i])
    {
      var head := HeadOf(blocks[i]);
      assert head == heads[i] && heads[..i + 1] == heads[..i] + [head];
      count := count + 1;
      if head.kind == "input" && !doc.modal { return false; }
      if head.id != "" {
        if !IdentifierValid(head.id) { return false; }
        if head.id in blockIDs { return false; }
        blockIDs := blockIDs + {head.id};
      }
    }
    assert heads[..|blocks|] == heads;
    return count <= Limit(doc);
  }

  // ---- What the layout determines ----------------------------------------

  /** The head of the block that a node renders to: fixed keys are copied. */
  function StaticHead(doc: Document, node: Json): Head {
    if !node.Obj? || REGION in node.fields then Head("", "")
    else if ACTIONS in node.fields then Head("actions", doc.name + ".actions")
    else HeadOf(node)
  }

  function Repeated(n: nat, head: Head): seq<Head> {
    seq(n, i => head)
  }

  /** One block for each item of an entered each region, one for another entered
      region, none for a region that is not entered. */
  function RegionTops(e: Env, fields: Object): seq<Head>
    requires REGION in fields
  {
    if !Entered(e, fields) then []
    else if EACH in fields then
      var items := RegionItems(e.values[StringAt(fields, REGION)]);
      if items.None? then [] else Repeated(|items.value|, StaticHead(e.doc, fields[EACH]))
    else if BLOCK in fields then [StaticHead(e.doc, fields[BLOCK])]
    else [Head("", "")]
  }

  function TopsOf(e: Env, node: Json): seq<Head> {
    if IsRegion(node) then RegionTops(e, node.fields) else [StaticHead(e.doc, node)]
  }

  function Tops(e: Env, items: seq<Json>): seq<Head> {
    if items == [] then [] else TopsOf(e, items[0]) + Tops(e, items[1..])
  }

  /** The top-level blocks of a layout: a sum over its entries. */
  function LayoutTops(e: Env, layout: Json): seq<Head> {
    if layout.Arr? then Tops(e, layout.items) else if IsRegion(layout) then TopsOf(e, layout) else []
  }

  /** The layout renders to an array, when it renders. */
  predicate Arrayed(layout: Json) {
    layout.Arr? || IsRegion(layout)
  }

  lemma RenderedHead(e: Env, node: Json, ctx: Context)
    requires RenderNode(e, node, ctx).Some?
    ensures HeadOf(RenderNode(e, node, ctx).value) == StaticHead(e.doc, node)
  {
    hide RenderItems, RenderRegion, RenderText;
    match node
    case Obj(fields) =>
      if REGION in fields {
      } else if ACTIONS in fields {
        ActionsHead(e, fields, ctx);
      } else {
        FixedFields(e, fields, ctx);
      }
    case _ =>
  }

  /** The type and the ID of an object survive rendering. */
  lemma FixedFields(e: Env, fields: Object, ctx: Context)
    requires REGION !in fields && ACTIONS !in fields && RenderNode(e, Obj(fields), ctx).Some?
    ensures HeadOf(RenderNode(e, Obj(fields), ctx).value) == HeadOf(Obj(fields))
  {
    hide RenderText, HasActions;
    var out := RenderNode(e, Obj(fields), ctx).value;
    assert out.Obj? && out.fields.Keys == fields.Keys;
    assert FixedKey("type") && FixedKey("block_id");
    assert forall key | key in fields && FixedKey(key) ::
           RenderField(e, key, fields[key], SlotOf(fields), ctx) == Some(fields[key]);
  }

  lemma ActionsHead(e: Env, fields: Object, ctx: Context)
    requires REGION !in fields && ACTIONS in fields && RenderNode(e, Obj(fields), ctx).Some?
    ensures HeadOf(RenderNode(e, Obj(fields), ctx).value) == Head("actions", e.doc.name + ".actions")
  {
    hide RenderField, RenderItems, RenderRegion, RenderText, Buttons;
    var block := ActionsBlock(e, fields[ACTIONS]);
    ActionsBlockHasNoActions(e, fields[ACTIONS]);
    assert RenderNode(e, Obj(fields), ctx) == RenderNode(e, block.value, ctx);
    FixedFields(e, block.value.fields, ctx);
  }

  lemma {:induction false} EachHeads(e: Env, each: Json, items: seq<Value>, kind: InputType)
    requires RenderEach(e, each, items, kind).Some?
    ensures Heads(RenderEach(e, each, items, kind).value) == Repeated(|items|, StaticHead(e.doc, each))
  {
    hide RenderNode, StaticHead, HeadOf;
    if items != [] {
      RenderedHead(e, each, Item(items[0], kind));
      EachHeads(e, each, items[1..], kind);
      var first := RenderNode(e, each, Item(items[0], kind)).value;
      HeadsAppend([first], RenderEach(e, each, items[1..], kind).value);
      assert Heads([first]) == [HeadOf(first)];
      assert Repeated(|items|, HeadOf(first)) == [HeadOf(first)] + Repeated(|items| - 1, HeadOf(first));
    }
  }

  lemma RegionHeads(e: Env, fields: Object, ctx: Context)
    requires REGION in fields && RenderRegion(e, fields, ctx).Some?
    ensures Heads(RenderRegion(e, fields, ctx).value) == RegionTops(e, fields)
  {
    hide RenderNode, RegionItems, StaticHead, HeadOf, IsPresent;
    var bound := e.values[StringAt(fields, REGION)];
    if Entered(e, fields) {
      if EACH in fields {
        EachHeads(e, fields[EACH], RegionItems(bound).value, bound.input.kind);
      } else if BLOCK in fields {
        RenderedHead(e, fields[BLOCK], ctx);
      } else {
        NullHead();
      }
    }
  }

  lemma NullHead()
    ensures HeadOf(Null) == Head("", "")
  {
  }

  lemma HeadsAppend(a: seq<Json>, b: seq<Json>)
    ensures Heads(a + b) == Heads(a) + Heads(b)
  {
    hide HeadOf;
  }

  lemma {:induction false} ItemsHeads(e: Env, items: seq<Json>, ctx: Context)
    requires RenderItems(e, items, ctx).Some?
    ensures Heads(RenderItems(e, items, ctx).value) == Tops(e, items)
  {
    hide RenderRegion, RegionTops, StaticHead, HeadOf;
    if items != [] {
      ItemsHeads(e, items[1..], ctx);
      var first := RenderNode(e, items[0], ctx).value;
      if IsRegion(items[0]) {
        RegionHeads(e, items[0].fields, ctx);
        HeadsAppend(first.items, RenderItems(e, items[1..], ctx).value);
      } else {
        RenderedHead(e, items[0], ctx);
        HeadsAppend([first], RenderItems(e, items[1..], ctx).value);
        assert Heads([first]) == [HeadOf(first)];
      }
    }
  }

  /** The rendered blocks are, in number, type and ID, what the layout and the
      entered regions say. */
  lemma LayoutHeads(e: Env, layout: Json, ctx: Context)
    requires RenderNode(e, layout, ctx).Some?
    ensures RenderNode(e, layout, ctx).value.Arr? <==> Arrayed(layout)
    ensures Arrayed(layout) ==> Heads(RenderNode(e, layout, ctx).value.items) == LayoutTops(e, layout)
  {
    hide RenderItems, RenderRegion, Heads;
    if layout.Arr? {
      ItemsHeads(e, layout.items, ctx);
    } else if IsRegion(layout) {
      RegionHeads(e, layout.fields, ctx);
    } else {
      NotArray(e, layout, ctx);
    }
  }

  lemma NotArray(e: Env, node: Json, ctx: Context)
    requires RenderNode(e, node, ctx).Some? && !Arrayed(node)
    ensures !RenderNode(e, node, ctx).value.Arr?
  {
    hide RenderText, RenderItems, RenderRegion;
    if node.Obj? && ACTIONS in node.fields {
      ActionsBlockHasNoActions(e, node.fields[ACTIONS]);
    }
  }

  // ---- The maximal render and the others ---------------------------------

  lemma WitnessEnters(w: Env, e: Env, fields: Object)
    requires Witnesses(w, e) && Entered(e, fields)
    ensures Entered(w, fields)
    ensures var name := StringAt(fields, REGION);
            && name in w.values && name in e.values && w.values[name].input == e.values[name].input
            && HasType(w.values[name].value, w.values[name].input.kind) && IsPresent(w.values[name].value)
  {
    hide IsPresent, HasType;
    NilIsAbsent();
  }

  lemma NilIsAbsent()
    ensures !IsPresent(Nil)
  {
  }

  lemma RegionWithin(w: Env, e: Env, fields: Object, head: Head)
    requires Witnesses(w, e) && REGION in fields && head in RegionTops(e, fields)
    ensures head in RegionTops(w, fields)
  {
    hide RegionItems, StaticHead, Entered, HasType, IsPresent;
    var name := StringAt(fields, REGION);
    if Entered(e, fields) && EACH in fields {
      WitnessEnters(w, e, fields);
      SameItems(e, fields);
      SameItems(w, fields);
      ListsHaveItems(w.values[name]);
      ListsHaveItems(e.values[name]);
      ItemsTyped(w.values[name]);
      assert RegionTops(w, fields)[0] == StaticHead(w.doc, fields[EACH]);
    } else if Entered(e, fields) {
      WitnessEnters(w, e, fields);
    }
  }

  lemma SameItems(e: Env, fields: Object)
    requires Entered(e, fields) && REGION in fields && EACH in fields
    ensures var items := RegionItems(e.values[StringAt(fields, REGION)]);
            RegionTops(e, fields) == if items.None? then []
              else Repeated(|items.value|, StaticHead(e.doc, fields[EACH]))
  {
  }

  /** Every block of a view has the type and the ID of a block of the maximal one. */
  lemma {:induction false} TopsWithin(w: Env, e: Env, items: seq<Json>, head: Head)
    requires Witnesses(w, e) && head in Tops(e, items)
    ensures head in Tops(w, items)
  {
    hide RegionTops, StaticHead, Witnesses;
    var node := items[0];
    assert w.doc == e.doc by { WitnessHost(w, e); }
    if head in TopsOf(e, node) {
      if IsRegion(node) { RegionWithin(w, e, node.fields, head); }
    } else {
      TopsWithin(w, e, items[1..], head);
    }
  }

  lemma LayoutWithin(w: Env, e: Env, layout: Json, head: Head)
    requires Witnesses(w, e) && head in LayoutTops(e, layout)
    ensures head in LayoutTops(w, layout)
  {
    hide RegionTops, StaticHead, Witnesses;
    if layout.Arr? {
      TopsWithin(w, e, layout.items, head);
    } else if IsRegion(layout) {
      RegionWithin(w, e, layout.fields, head);
    }
  }

  lemma LayoutValid(w: Env, e: Env, layout: Json)
    requires Witnesses(w, e) && AllValid(w.doc, LayoutTops(w, layout))
    ensures AllValid(e.doc, LayoutTops(e, layout))
  {
    hide LayoutTops, HeadValid, Witnesses;
    WitnessHost(w, e);
    forall i | 0 <= i < |LayoutTops(e, layout)|
      ensures HeadValid(e.doc, LayoutTops(e, layout)[i])
    {
      LayoutWithin(w, e, layout, LayoutTops(e, layout)[i]);
    }
  }

  /** a without some of its entries, in order. */
  predicate Sub(a: seq<Head>, b: seq<Head>) {
    a == [] || (b != [] && ((a[0] == b[0] && Sub(a[1..], b[1..])) || Sub(a, b[1..])))
  }

  lemma {:induction false} SubSelf(a: seq<Head>)
    ensures Sub(a, a)
  {
    if a != [] {
      SubSelf(a[1..]);
    }
  }

  lemma {:induction false} SubAppend(a: seq<Head>, b: seq<Head>, c: seq<Head>, d: seq<Head>)
    requires Sub(a, b) && Sub(c, d)
    ensures Sub(a + c, b + d)
  {
    if b == [] {
      assert a + c == c && b + d == d;
    } else {
      assert (b + d)[1..] == b[1..] + d;
      if a != [] && a[0] == b[0] && Sub(a[1..], b[1..]) {
        SubAppend(a[1..], b[1..], c, d);
        assert (a + c)[1..] == a[1..] + c;
      } else {
        SubAppend(a, b[1..], c, d);
        SubSkip(a + c, b + d);
      }
    }
  }

  lemma SubSkip(a: seq<Head>, b: seq<Head>)
    requires b != [] && Sub(a, b[1..])
    ensures Sub(a, b)
  {
  }

  lemma {:induction false} SubLaws(a: seq<Head>, b: seq<Head>)
    requires Sub(a, b)
    ensures |a| <= |b| && (forall h | h in a :: h in b)
    ensures DistinctIDs(b) ==> DistinctIDs(a)
  {
    hide DistinctIDs;
    if a == [] {
      NoHeads();
    } else if a[0] == b[0] && Sub(a[1..], b[1..]) {
      SubLaws(a[1..], b[1..]);
      DistinctCons(a);
      DistinctCons(b);
      assert forall h | h in a :: h == a[0] || h in a[1..];
    } else {
      SubLaws(a, b[1..]);
      DistinctCons(b);
    }
  }

  lemma NoHeads()
    ensures DistinctIDs([])
  {
  }

  lemma DistinctCons(a: seq<Head>)
    requires a != []
    ensures DistinctIDs(a) <==> DistinctIDs(a[1..]) && (a[0].id != "" ==> forall h | h in a[1..] :: h.id != a[0].id)
  {
    assert forall i | 0 <= i < |a[1..]| :: a[1..][i] == a[i + 1];
    if DistinctIDs(a[1..]) && (a[0].id != "" ==> forall h | h in a[1..] :: h.id != a[0].id) {
      forall i, j | 0 <= i < j < |a|
        ensures a[i].id != "" ==> a[i].id != a[j].id
      {
        assert a[j] == a[1..][j - 1];
        if i > 0 { assert a[i] == a[1..][i - 1]; }
      }
    }
  }

  /** A view that lacks some of the maximal values lacks some of its blocks. */
  lemma {:induction false} ThinTops(w: Env, e: Env, items: seq<Json>)
    requires Witnesses(w, e) && Thins(w, e)
    ensures Sub(Tops(e, items), Tops(w, items))
  {
    hide RegionTops, StaticHead, Witnesses, Thins, Sub;
    if items == [] {
      SubSelf([]);
    } else {
      ThinTopsOf(w, e, items[0]);
      ThinTops(w, e, items[1..]);
      SubAppend(TopsOf(e, items[0]), TopsOf(w, items[0]), Tops(e, items[1..]), Tops(w, items[1..]));
    }
  }

  lemma ThinTopsOf(w: Env, e: Env, node: Json)
    requires Witnesses(w, e) && Thins(w, e)
    ensures Sub(TopsOf(e, node), TopsOf(w, node))
  {
    hide RegionItems, StaticHead, IsPresent, Sub, HasType;
    SubSelf(TopsOf(w, node));
    if IsRegion(node) {
      NilIsAbsent();
      if Entered(e, node.fields) {
        WitnessEnters(w, e, node.fields);
      } else {
        SubNone(TopsOf(w, node));
      }
    }
  }

  lemma SubNone(b: seq<Head>)
    ensures Sub([], b)
  {
  }

  lemma ThinLayout(w: Env, e: Env, layout: Json)
    requires Witnesses(w, e) && Thins(w, e)
    ensures Verified(w.doc, LayoutTops(w, layout)) ==> Verified(e.doc, LayoutTops(e, layout))
  {
    hide Tops, TopsOf, Witnesses, Thins, Sub, DistinctIDs, AllValid;
    WitnessHost(w, e);
    if layout.Arr? {
      ThinTops(w, e, layout.items);
      SubLaws(Tops(e, layout.items), Tops(w, layout.items));
    } else if IsRegion(layout) {
      ThinTopsOf(w, e, layout);
      SubLaws(TopsOf(e, layout), TopsOf(w, layout));
    }
    if AllValid(w.doc, LayoutTops(w, layout)) { LayoutValid(w, e, layout); }
    if !layout.Arr? && !IsRegion(layout) { NoHeads(); }
  }
}

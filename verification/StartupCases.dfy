/** Two templates that startup accepts and that a view can still break: a carried
    text that does not render again, and a list longer than its representative
    (internal/blockkit/contract.go, region.go, verify.go). */
module StartupCases {
  import opened Basics
  import opened Contract
  import opened Text
  import opened Placeholder
  import opened Render
  import opened Layout
  import opened LayoutLaws
  import opened Blocks
  import opened Startup

  lemma ContainsNeedsChar(s: string, sub: string, c: char)
    requires c in sub && c !in s
    ensures !Contains(s, sub)
  {
    IndexOfIsFirst(s, sub);
  }

  lemma NoBraces(s: string)
    requires '{' !in s && '}' !in s
    ensures Braceless(s)
  {
    ContainsNeedsChar(s, OPEN, '{');
    ContainsNeedsChar(s, CLOSE, '}');
  }

  lemma QuietText(host: Host, s: string)
    requires '{' !in s && '}' !in s && !Blocked(host, s)
    ensures Parse(host, s) == Some([])
  {
    hide Blocked, Parse;
    NoBraces(s);
    PlainTextRenders(host, Compiled, s, map[], NoItem, PlainText);
  }

  // ---- A carried text ----------------------------------------------------

  const NOTE := "note"
  const GO := "go"
  const NOTE_INPUT := Input(IdInput, true, 0, "", 0, [])
  const GO_ACTION := Action("go", "Go", "", "note")
  const GO_NAMES: Object := map[ACTIONS := Arr([Str("go")])]
  const NOTE_DOCUMENT :=
    Document(false, "t", map[NOTE := NOTE_INPUT], map[GO := GO_ACTION], Arr([Obj(GO_NAMES)]), None)

  /** The button text and the representative value hold no blocked fragment. */
  predicate QuietHost(host: Host) {
    !Blocked(host, "Go") && !Blocked(host, "id-1")
  }

  function NoteValues(text: string): Values {
    map[NOTE := Slot(NOTE_INPUT, Text(text))]
  }

  function NoteEnv(host: Host, text: string, r: Renderer): Env {
    EnvOf(host, NOTE_DOCUMENT, r, NoteValues(text))
  }

  lemma NoteRendersIff(host: Host, text: string, r: Renderer)
    requires QuietHost(host)
    ensures RendersArray(NoteEnv(host, text, r), NOTE_DOCUMENT.layout) <==>
            TextReady(NoteEnv(host, text, Compiled), text, NoItem)
  {
    hide RenderNode, Parse, Blocked, LayoutTops, Heads;
    var e := NoteEnv(host, text, r);
    var names := Arr([Str("go")]);
    ArrayedIff(e, NOTE_DOCUMENT.layout);
    ArrRendersIff(e, [Obj(GO_NAMES)], NoItem);
    assert GO_NAMES[ACTIONS] == names && REGION !in GO_NAMES;
    ActionsNodeIff(e, GO_NAMES, NoItem);
    QuietText(host, "Go");
    assert ActionOf(e, names.items[0]) == Some(GO_ACTION);
    assert NameReady(e, names.items[0], NoItem) <==> ActionReady(e, GO_ACTION, NoItem);
    assert [Obj(GO_NAMES)][0] == Obj(GO_NAMES);
  }

  lemma ArrRendersIff(e: Env, items: seq<Json>, ctx: Context)
    ensures RenderNode(e, Arr(items), ctx).Some? <==> forall i | 0 <= i < |items| :: RenderNode(e, items[i], ctx).Some?
  {
    ItemsRenderIff(e, items, ctx);
  }

  lemma NoteTops(e: Env)
    requires e.doc == NOTE_DOCUMENT
    ensures LayoutTops(e, NOTE_DOCUMENT.layout) == [Head("actions", "t.actions")]
  {
    var items := [Obj(GO_NAMES)];
    assert items[1..] == [] && ACTIONS in GO_NAMES && REGION !in GO_NAMES;
    assert "t" + ".actions" == "t.actions";
    assert Tops(e, items) == TopsOf(e, items[0]) + Tops(e, items[1..]);
  }

  lemma ShortIdentifier(s: string)
    requires 0 < |s| <= MAX_IDENTIFIER && forall i | 0 <= i < |s| :: '!' <= s[i] <= '~' && s[i] !in "{}"
    ensures IdentifierValid(s)
  {
    hide Braceless;
    NoBraces(s);
  }

  lemma NoteVerified(e: Env)
    requires e.doc == NOTE_DOCUMENT
    ensures Verified(NOTE_DOCUMENT, LayoutTops(e, NOTE_DOCUMENT.layout))
  {
    hide LayoutTops, IdentifierValid;
    NoteTops(e);
    ShortIdentifier("t.actions");
  }

  /** One button carrying one note passes exactly when the note parses. */
  lemma NotePassesIff(host: Host, text: string)
    requires QuietHost(host)
    ensures Compiles(host, NOTE_DOCUMENT, NoteValues(text)) <==> TextReady(NoteEnv(host, text, Compiled), text, NoItem)
    ensures Passes(host, NOTE_DOCUMENT, NoteValues(text)) <==> TextReady(NoteEnv(host, text, Compiled), text, NoItem)
  {
    hide RenderNode, TextReady, LayoutTops, Heads, Verified, QuietHost;
    NoteRendersIff(host, text, Compiled);
    NoteRendersIff(host, text, Fallback);
    var e := NoteEnv(host, text, Compiled);
    NoteVerified(e);
    if TextReady(e, text, NoItem) { LayoutHeads(e, NOTE_DOCUMENT.layout, NoItem); }
  }

  lemma NoteDocumentValid(host: Host)
    ensures DocumentValid(host, NOTE_DOCUMENT)
  {
    hide IdentifierValid;
    ShortIdentifier("go");
    assert ValidName(NOTE) && ValidName(GO);
    assert InputValid(host, NOTE_INPUT);
    assert ActionValid(NOTE_DOCUMENT, GO_ACTION);
  }

  lemma NoteSample(includeOptional: bool)
    ensures RepresentativeValues(NOTE_DOCUMENT.inputs, includeOptional) == Some(NoteValues("id-1"))
  {
    hide Representative;
    assert Representative(NOTE_INPUT) == Some(Text("id-1")) by { SampleText(); }
    var computed := RepresentativeValues(NOTE_DOCUMENT.inputs, includeOptional).value;
    assert computed.Keys == {NOTE} && computed[NOTE] == NoteValues("id-1")[NOTE];
    assert computed == NoteValues("id-1");
  }

  lemma SampleText()
    ensures Representative(NOTE_INPUT) == Some(Text("id-1"))
  {
  }

  lemma NoteVariant(host: Host, includeOptional: bool)
    requires QuietHost(host)
    ensures VariantAccepted(host, NOTE_DOCUMENT, includeOptional)
  {
    hide Compiles, Passes, Parse, TextReady, RepresentativeValues, Blocked;
    NoteSample(includeOptional);
    assert SlotValid(host, NoteValues("id-1")[NOTE]);
    QuietText(host, "id-1");
    QuietReady(NoteEnv(host, "id-1", Compiled), "id-1");
    NotePassesIff(host, "id-1");
  }

  lemma QuietReady(e: Env, s: string)
    requires Parse(e.host, s) == Some([])
    ensures TextReady(e, s, NoItem)
  {
  }

  lemma NoteAccepted(host: Host)
    requires QuietHost(host)
    ensures Accepted(host, NOTE_DOCUMENT)
  {
    hide QuietHost, VariantAccepted, DocumentValid, Inspect;
    NoteDocumentValid(host);
    NoteInspected(host);
    NoteVariant(host, false);
    NoteVariant(host, true);
  }

  lemma NoteInspected(host: Host)
    ensures Inspect(host, NOTE_DOCUMENT, NOTE_DOCUMENT.layout, None) == Some({NOTE})
  {
    var doc, node, names := NOTE_DOCUMENT, Obj(GO_NAMES), [Str("go")];
    assert GO_NAMES[ACTIONS] == Arr(names) && doc.actions[names[0].s].carries == NOTE;
    assert (set i | 0 <= i < |names| && doc.actions[names[i].s].carries != "" :: doc.actions[names[i].s].carries) ==
           {NOTE};
    assert InspectActions(doc, Arr(names)) == Some({NOTE});
    assert InputMark(doc, GO_NAMES) == {} && REGION !in GO_NAMES;
    assert {} + {NOTE} == {NOTE};
    assert Inspect(host, doc, node, None) == Some({NOTE});
    assert [node][1..] == [] && InspectItems(host, doc, [], None) == Some({});
    assert {NOTE} + {} == {NOTE};
    assert InspectItems(host, doc, [node], None) == Some({NOTE});
  }

  /** Startup accepts the template, yet a well-typed note with an arrow in it
      cannot be shown. */
  lemma AcceptedCanFail(host: Host)
    requires QuietHost(host)
    ensures Accepted(host, NOTE_DOCUMENT) && WellTyped(NOTE_DOCUMENT.inputs, NoteValues("=>"))
    ensures !Compiles(host, NOTE_DOCUMENT, NoteValues("=>"))
  {
    hide Compiles, Accepted, QuietHost;
    NoteAccepted(host);
    NotePassesIff(host, "=>");
    assert IndexOf("=>", "=>") == 0;
  }

  // ---- A long list -------------------------------------------------------

  const LIST := "list"
  const LIST_INPUT := Input(PairsInput, true, 0, "", 0, [])

  /** A divider for each pair; id is its block ID, "" for none. */
  function Divider(id: string): Object {
    map["type" := Str("divider")] + if id != "" then map["block_id" := Str(id)] else map[]
  }

  function DividerRegion(id: string): Object {
    map[REGION := Str(LIST), EACH := Obj(Divider(id))]
  }

  function ListDocument(modal: bool, id: string): Document {
    Document(modal, "t", map[LIST := LIST_INPUT], map[], Arr([Obj(DividerRegion(id))]), None)
  }

  function ListValues(pairs: seq<Pair>): Values {
    map[LIST := Slot(LIST_INPUT, Pairs(pairs))]
  }

  /** The ID is absent or an identifier, and neither it nor the type is blocked. */
  predicate QuietDivider(host: Host, id: string) {
    (id != "" ==> IdentifierValid(id) && !Blocked(host, id)) && !Blocked(host, "divider")
  }

  lemma ListTops(e: Env, id: string, pairs: seq<Pair>)
    requires e.doc.layout == Arr([Obj(DividerRegion(id))]) && e.values == ListValues(pairs)
    ensures LayoutTops(e, e.doc.layout) == Repeated(|pairs|, Head("divider", id))
  {
    hide Repeated, Divider;
    var items := [Obj(DividerRegion(id))];
    assert items[1..] == [];
    assert Tops(e, items) == TopsOf(e, items[0]) + Tops(e, items[1..]);
    DividerHead(e.doc, id);
    RepeatedNone(Head("divider", id));
  }

  lemma RepeatedNone(head: Head)
    ensures Repeated(0, head) == []
  {
  }

  lemma DividerHead(doc: Document, id: string)
    ensures StaticHead(doc, Obj(Divider(id))) == Head("divider", id)
  {
    assert REGION !in Divider(id) && ACTIONS !in Divider(id);
  }

  lemma RepeatedFits(n: nat, head: Head)
    ensures DistinctIDs(Repeated(n, head)) <==> head.id == "" || n <= 1
  {
    if n > 1 { assert Repeated(n, head)[0] == Repeated(n, head)[1] == head; }
  }

  lemma ListDocumentValid(host: Host, modal: bool, id: string)
    ensures DocumentValid(host, ListDocument(modal, id))
  {
    assert ValidName(LIST) && InputValid(host, LIST_INPUT);
  }

  lemma FixedInspected(host: Host, doc: Document, key: string, s: string, slot: TextSlot, scope: Option<InputType>)
    requires Braceless(s) && !Blocked(host, s)
    ensures InspectField(host, doc, key, Str(s), slot, scope) == Some({})
  {
    hide Parse, Blocked, UseAllowed, Braceless;
    PlainTextRenders(host, Compiled, s, map[], NoItem, PlainText);
    var tokens: seq<Token> := [];
    assert Parse(host, s) == Some(tokens) && forall t :: t !in tokens;
    assert InspectString(host, doc, s, scope, slot).value == {};
  }

  /** An object of strings without placeholders. */
  lemma StringsInspected(host: Host, doc: Document, fields: Object, scope: Option<InputType>)
    requires REGION !in fields && ACTIONS !in fields && InputMark(doc, fields) == {}
    requires forall key | key in fields :: fields[key].Str? && Braceless(fields[key].s) && !Blocked(host, fields[key].s)
    ensures Inspect(host, doc, Obj(fields), scope) == Some({})
  {
    hide Braceless, Blocked, InspectField;
    forall key | key in fields
      ensures InspectField(host, doc, key, fields[key], SlotOf(fields), scope) == Some({})
    {
      FixedInspected(host, doc, key, fields[key].s, SlotOf(fields), scope);
    }
    var none: set<string> := {};
    assert none + none == none;
    assert (set key, name | key in fields &&
             name in InspectField(host, doc, key, fields[key], SlotOf(fields), scope).value :: name) == none;
  }

  lemma DividerInspected(host: Host, doc: Document, id: string, scope: Option<InputType>)
    requires QuietDivider(host, id)
    ensures Inspect(host, doc, Obj(Divider(id)), scope) == Some({})
  {
    hide Blocked, Braceless, Inspect;
    NoBraces("divider");
    assert InputMark(doc, Divider(id)) == {};
    StringsInspected(host, doc, Divider(id), scope);
  }

  lemma RegionInspected(host: Host, modal: bool, id: string)
    requires QuietDivider(host, id)
    ensures Inspect(host, ListDocument(modal, id), Obj(DividerRegion(id)), None) == Some({LIST})
  {
    hide QuietDivider, Divider;
    var doc, fields := ListDocument(modal, id), DividerRegion(id);
    DividerInspected(host, doc, id, Some(PairsInput));
    assert ValidName(LIST) && StringAt(fields, REGION) == LIST && WHEN !in fields && BLOCK !in fields;
    var none: set<string> := {};
    assert {LIST} + none == {LIST} && {LIST} + none + none == {LIST} && none + {LIST} == {LIST};
    assert InspectRegion(host, doc, fields, None) == Some({LIST});
    assert InputMark(doc, fields) == {};
  }

  lemma ListInspected(host: Host, modal: bool, id: string)
    requires QuietDivider(host, id)
    ensures LayoutAccepted(host, ListDocument(modal, id))
  {
    hide QuietDivider, DividerRegion, InspectRegion;
    var doc, node := ListDocument(modal, id), Obj(DividerRegion(id));
    RegionInspected(host, modal, id);
    var none: set<string> := {};
    assert {LIST} + none == {LIST};
    assert [node][1..] == [] && InspectItems(host, doc, [], None) == Some({});
    assert InspectItems(host, doc, [node], None) == Some({LIST});
  }

  lemma ListSample(includeOptional: bool)
    ensures RepresentativeValues(map[LIST := LIST_INPUT], includeOptional) == Some(ListValues([Pair("label", "value")]))
  {
    var inputs := map[LIST := LIST_INPUT];
    var computed := RepresentativeValues(inputs, includeOptional).value;
    assert computed.Keys == {LIST};
    assert computed == ListValues([Pair("label", "value")]);
  }

  lemma ListRenders(host: Host, modal: bool, id: string, pairs: seq<Pair>, r: Renderer)
    requires QuietDivider(host, id)
    ensures RendersArray(EnvOf(host, ListDocument(modal, id), r, ListValues(pairs)), ListDocument(modal, id).layout)
  {
    hide QuietDivider, RenderNode, Inspect, HasActions, LayoutTops;
    var e := EnvOf(host, ListDocument(modal, id), r, ListValues(pairs));
    ListInspected(host, modal, id);
    ListWithoutActions(modal, id);
    CheckerSound(e, e.doc.layout, NoItem);
    ArrayedIff(e, e.doc.layout);
  }

  lemma ListWithoutActions(modal: bool, id: string)
    ensures !HasActions(ListDocument(modal, id).layout)
  {
    var fields, divider := DividerRegion(id), Obj(Divider(id));
    assert forall key | key in divider.fields :: divider.fields[key].Str?;
    assert !HasActions(divider);
    assert forall key | key in fields :: fields[key].Str? || fields[key] == divider;
    assert !HasActions(Obj(fields));
  }

  /** The template passes exactly when there are no more pairs than blocks may
      be, and with a block ID no more than one. */
  lemma ListPassesIff(host: Host, modal: bool, id: string, pairs: seq<Pair>)
    requires QuietDivider(host, id)
    ensures Passes(host, ListDocument(modal, id), ListValues(pairs)) <==>
            |pairs| <= if id == "" then Limit(ListDocument(modal, id)) else 1
  {
    hide QuietDivider, RenderNode, Heads, LayoutTops, Repeated, DistinctIDs, Divider;
    var doc := ListDocument(modal, id);
    var e := EnvOf(host, doc, Compiled, ListValues(pairs));
    ListRenders(host, modal, id, pairs, Compiled);
    ListRenders(host, modal, id, pairs, Fallback);
    LayoutHeads(e, doc.layout, NoItem);
    ListTops(e, id, pairs);
    RepeatedFits(|pairs|, Head("divider", id));
    RepeatedValid(host, doc, id, |pairs|);
  }

  lemma RepeatedValid(host: Host, doc: Document, id: string, n: nat)
    requires QuietDivider(host, id)
    ensures AllValid(doc, Repeated(n, Head("divider", id))) && |Repeated(n, Head("divider", id))| == n
  {
    hide Blocked, IdentifierValid;
  }

  /** Startup accepts the template for its one representative pair, on either
      surface and with or without a block ID. */
  lemma ListAccepted(host: Host, modal: bool, id: string)
    requires QuietDivider(host, id)
    ensures Accepted(host, ListDocument(modal, id))
  {
    hide QuietDivider, Passes, DocumentValid, LayoutAccepted, RepresentativeValues;
    ListDocumentValid(host, modal, id);
    ListInspected(host, modal, id);
    ListSample(false);
    ListSample(true);
    ListPassesIff(host, modal, id, [Pair("label", "value")]);
    assert SlotValid(host, ListValues([Pair("label", "value")])[LIST]);
  }

  /** Fifty-one pairs are too many for an accepted message, and two repeat the ID. */
  lemma LongListFails(host: Host, pairs: seq<Pair>, id: string)
    requires QuietDivider(host, id) && if id == "" then |pairs| == 51 else |pairs| == 2
    ensures Accepted(host, ListDocument(false, id)) && WellTyped(ListDocument(false, id).inputs, ListValues(pairs))
    ensures !HasActions(ListDocument(false, id).layout) && !Passes(host, ListDocument(false, id), ListValues(pairs))
  {
    hide QuietDivider, Accepted, Passes, HasActions;
    ListAccepted(host, false, id);
    ListPassesIff(host, false, id, pairs);
    ListWithoutActions(false, id);
  }
}

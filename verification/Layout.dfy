/** The layout language: its evaluator (internal/blockkit/region.go) and its
    checker (internal/blockkit/placeholder.go). */
module Layout {
  import opened Basics
  import opened Contract
  import opened Text
  import opened Placeholder
  import opened Render

  /** Decoded JSON. Objects carry no key order, as Go maps do not. */
  datatype Json =
    | Null
    | Bool(b: bool)
    | Num(n: real)
    | Str(s: string)
    | Arr(items: seq<Json>)
    | Obj(fields: map<string, Json>)

  type Object = map<string, Json>

  /** A parsed template; modal tells its surface from a message. */
  datatype Document = Document(modal: bool, name: string, inputs: Inputs, actions: map<string, Action>, layout: Json,
                               fallback: Option<string>)

  /** What one render holds fixed. */
  datatype Env = Env(host: Host, renderer: Renderer, doc: Document, values: Values)

  const REGION := "region"
  const WHEN := "when"
  const EACH := "each"
  const BLOCK := "block"
  const ACTIONS := "actions"

  predicate FixedKey(key: string) {
    key == "type" || key == "block_id" || key == "action_id" || key == "callback_id"
  }

  function SlotOf(fields: Object): TextSlot {
    if "type" in fields && fields["type"] == Str("mrkdwn") then Markdown else PlainText
  }

  function StringAt(fields: Object, key: string): string {
    if key in fields && fields[key].Str? then fields[key].s else ""
  }

  predicate IsRegion(node: Json) {
    node.Obj? && REGION in node.fields
  }

  /** Some object inside the node is an actions pseudo-block. */
  predicate HasActions(node: Json) {
    match node
    case Arr(items) => exists i | 0 <= i < |items| :: HasActions(items[i])
    case Obj(fields) => ACTIONS in fields || exists k | k in fields :: HasActions(fields[k])
    case _ => false
  }

  // ---- Values ------------------------------------------------------------

  predicate IsPresent(v: Value) {
    match v
    case Nil => false
    case Text(s) => s != ""
    case Flag(on) => on
    case Pairs(pairs) => pairs != []
    case _ => true
  }

  function Chunks(value: string, chunk: int): (parts: seq<string>)
    requires chunk > 0
    ensures value != "" ==> parts != []
    decreases |value|
  {
    if value == "" then []
    else if |value| <= chunk then [value]
    else [value[..chunk]] + Chunks(value[chunk..], chunk)
  }

  function SplitLong(value: string, chunk: int): (parts: seq<string>)
    ensures parts != []
  {
    if chunk <= 0 || value == "" then [value] else Chunks(value, chunk)
  }

  function RegionItems(bound: Slot): Option<seq<Value>> {
    match bound.input.kind
    case LongTextInput =>
      var parts := SplitLong(if bound.value.Text? then bound.value.text else "", bound.input.chunk);
      Some(seq(|parts|, i requires 0 <= i < |parts| => Text(parts[i])))
    case PairsInput =>
      var pairs := if bound.value.Pairs? then bound.value.pairs else [];
      Some(seq(|pairs|, i requires 0 <= i < |pairs| => OnePair(pairs[i])))
    case _ => None
  }

  /** The string an action button carries; None is an error or a failed type
      assertion. */
  function RawText(host: Host, v: Value, kind: InputType): Option<string> {
    match kind
    case TextInput | IdInput | CodeInput | LongTextInput | EnumInput => if v.Text? then Some(v.text) else None
    case NumberInput | BoolInput => Some(host.sprint(v))
    case TimestampInput => if v.Stamp? then Some(host.formatTime(v.at, RFC3339)) else None
    case PairsInput | UnsupportedInput(_) => None
  }

  // ---- Action buttons ----------------------------------------------------

  /** The value an action carries: Some(None) when there is none to carry. */
  function Carried(e: Env, action: Action): Option<Option<string>> {
    if action.carries == "" || action.carries !in e.values || e.values[action.carries].value.Nil? then Some(None)
    else
      var bound := e.values[action.carries];
      var raw := RawText(e.host, bound.value, bound.input.kind);
      if raw.None? then None else Some(raw)
  }

  function Button(action: Action, carried: Option<string>): Object {
    map["type" := Str("button"), "action_id" := Str(action.id),
        "text" := Obj(map["type" := Str("plain_text"), "text" := Str(action.text)])]
    + (if action.style != "" then map["style" := Str(action.style)] else map[])
    + (if carried.Some? then map["value" := Str(carried.value)] else map[])
  }

  function ActionOf(e: Env, name: Json): Option<Action> {
    var id := if name.Str? then name.s else "";
    if id in e.doc.actions then Some(e.doc.actions[id]) else None
  }

  function Buttons(e: Env, names: seq<Json>): Option<seq<Json>> {
    if names == [] then Some([])
    else
      var action := ActionOf(e, names[0]);
      if action.None? then None
      else
        var carried := Carried(e, action.value);
        if carried.None? then None
        else Prepend([Obj(Button(action.value, carried.value))], Buttons(e, names[1..]))
  }

  function ActionsBlock(e: Env, names: Json): Option<Json> {
    if !names.Arr? then None
    else
      var buttons := Buttons(e, names.items);
      if buttons.None? then None
      else Some(Obj(map["type" := Str("actions"), "block_id" := Str(e.doc.name + ".actions"),
        "elements" := Arr(buttons.value)]))
  }

  lemma ButtonHasNoActions(action: Action, carried: Option<string>)
    ensures !HasActions(Obj(Button(action, carried)))
  {
    var text := map["type" := Str("plain_text"), "text" := Str(action.text)];
    assert forall k | k in text :: !HasActions(text[k]);
    assert !HasActions(Obj(text));
    var fields := Button(action, carried);
    assert forall k | k in fields :: fields[k].Str? || fields[k] == Obj(text);
  }

  lemma {:induction false} ButtonsHaveNoActions(e: Env, names: seq<Json>)
    requires Buttons(e, names).Some?
    ensures forall i | 0 <= i < |Buttons(e, names).value| :: !HasActions(Buttons(e, names).value[i])
  {
    if names != [] {
      ButtonsHaveNoActions(e, names[1..]);
      ButtonHasNoActions(ActionOf(e, names[0]).value, Carried(e, ActionOf(e, names[0]).value).value);
    }
  }

  /** The generated block is rendered again, and that second render ends: it
      holds no pseudo-block. */
  lemma ActionsBlockHasNoActions(e: Env, names: Json)
    requires ActionsBlock(e, names).Some?
    ensures !HasActions(ActionsBlock(e, names).value)
  {
    ButtonsHaveNoActions(e, names.items);
    var elements := Arr(Buttons(e, names.items).value);
    assert !HasActions(elements);
    var fields := ActionsBlock(e, names).value.fields;
    assert forall k | k in fields :: fields[k].Str? || fields[k] == elements;
  }

  // ---- The evaluator -----------------------------------------------------

  function StrResult(text: Option<string>): Option<Json> {
    if text.None? then None else Some(Str(text.value))
  }

  function ArrResult(items: Option<seq<Json>>): Option<Json> {
    if items.None? then None else Some(Arr(items.value))
  }

  /** renderNodeWith. None is an error or a failed type assertion. */
  function RenderNode(e: Env, node: Json, ctx: Context): Option<Json>
    decreases HasActions(node), node, 1
  {
    match node
    case Null | Bool(_) | Num(_) => Some(node)
    case Str(s) => StrResult(RenderText(e.host, e.renderer, s, e.values, ctx, PlainText))
    case Arr(items) =>
      assert forall i | 0 <= i < |items| :: HasActions(items[i]) ==> HasActions(node);
      ArrResult(RenderItems(e, items, ctx))
    case Obj(fields) =>
      if REGION in fields then ArrResult(RenderRegion(e, fields, ctx))
      else if ACTIONS in fields then
        if exists key | key in fields :: key != ACTIONS then None
        else
          var block := ActionsBlock(e, fields[ACTIONS]);
          if block.None? then None
          else
            ActionsBlockHasNoActions(e, fields[ACTIONS]);
            RenderNode(e, block.value, ctx)
      else if exists key | key in fields :: RenderField(e, key, fields[key], SlotOf(fields), ctx).None? then None
      else Some(Obj(map key | key in fields :: RenderField(e, key, fields[key], SlotOf(fields), ctx).value))
  }

  /** One entry of an object: fixed keys are copied, strings under "text" take
      the object's slot, everything else is rendered as a node. */
  function RenderField(e: Env, key: string, child: Json, slot: TextSlot, ctx: Context): Option<Json>
    decreases HasActions(child), child, 2
  {
    if FixedKey(key) then Some(child)
    else if child.Str? then
      StrResult(RenderText(e.host, e.renderer, child.s, e.values, ctx, if key == "text" then slot else PlainText))
    else RenderNode(e, child, ctx)
  }

  /** Array entries in order; a region contributes all its blocks. */
  function RenderItems(e: Env, items: seq<Json>, ctx: Context): Option<seq<Json>>
    decreases exists i | 0 <= i < |items| :: HasActions(items[i]), items, 0
  {
    if items == [] then Some([])
    else
      var first := RenderNode(e, items[0], ctx);
      if first.None? then None
      else
        assert forall i | 0 <= i < |items| - 1 :: items[1..][i] == items[i + 1];
        Prepend(if IsRegion(items[0]) && first.value.Arr? then first.value.items else [first.value],
                RenderItems(e, items[1..], ctx))
  }

  function RenderRegion(e: Env, fields: Object, ctx: Context): Option<seq<Json>>
    requires REGION in fields
    decreases HasActions(Obj(fields)), Obj(fields), 0
  {
    var name := StringAt(fields, REGION);
    if name !in e.values then None
    else if WHEN in fields && fields[WHEN].Str? &&
            (fields[WHEN].s !in e.values || !IsPresent(e.values[fields[WHEN].s].value)) then Some([])
    else if !IsPresent(e.values[name].value) then Some([])
    else if EACH in fields then
      var items := RegionItems(e.values[name]);
      if items.None? then None else RenderEach(e, fields[EACH], items.value, e.values[name].input.kind)
    else if BLOCK !in fields then Some([Null])
    else
      var block := RenderNode(e, fields[BLOCK], ctx);
      if block.None? then None else Some([block.value])
  }

  function RenderEach(e: Env, each: Json, items: seq<Value>, kind: InputType): Option<seq<Json>>
    decreases HasActions(each), each, 2, |items|
  {
    if items == [] then Some([])
    else
      var first := RenderNode(e, each, Item(items[0], kind));
      if first.None? then None else Prepend([first.value], RenderEach(e, each, items[1..], kind))
  }

  // ---- The checker -------------------------------------------------------

  function TokenKind(token: Token, doc: Document, scope: Option<InputType>): Option<InputType> {
    if token.name == ITEM then if token.part != "" then Some(TextInput) else scope
    else if token.name in doc.inputs then Some(doc.inputs[token.name].kind)
    else None
  }

  /** validatePlaceholderUse; scope is the type of the enclosing each region. */
  predicate UseAllowed(token: Token, doc: Document, scope: Option<InputType>, slot: TextSlot) {
    var kind := TokenKind(token, doc, scope);
    && (if token.name == ITEM then
          scope.Some? && (if token.part != "" then scope.value.PairsInput? else !scope.value.PairsInput?)
        else token.name in doc.inputs)
    && kind.Some? && !kind.value.BoolInput? && !kind.value.PairsInput?
    && (kind.value.LongTextInput? && token.name in doc.inputs && doc.inputs[token.name].chunk > 0 ==> scope.Some?)
    && (token.modifier == "code" || token.modifier == "bold" ==> slot.Markdown?)
    && (token.modifier == "hhmm" || token.modifier == "rfc3339" ==> kind.value.TimestampInput?)
  }

  function InspectString(host: Host, doc: Document, s: string, scope: Option<InputType>,
                         slot: TextSlot): Option<set<string>> {
    var tokens := Parse(host, s);
    if tokens.None? then None
    else if exists t | t in tokens.value :: !UseAllowed(t, doc, scope, slot) then None
    else Some(set t | t in tokens.value && t.name != ITEM :: t.name)
  }

  /** markInputStateActionID. */
  function InputMark(doc: Document, fields: Object): set<string> {
    if "type" in fields && fields["type"] == Str("input") && "element" in fields && fields["element"].Obj? &&
       "action_id" in fields["element"].fields && fields["element"].fields["action_id"].Str? &&
       fields["element"].fields["action_id"].s in doc.inputs
    then {fields["element"].fields["action_id"].s} else {}
  }

  function Both(a: Option<set<string>>, b: Option<set<string>>): Option<set<string>> {
    if a.None? || b.None? then None else Some(a.value + b.value)
  }

  /** inspectNode: None rejects, Some is the set of inputs the node uses. */
  function Inspect(host: Host, doc: Document, node: Json, scope: Option<InputType>): Option<set<string>>
    decreases node, 1
  {
    match node
    case Null | Bool(_) | Num(_) => Some({})
    case Str(s) => InspectString(host, doc, s, scope, PlainText)
    case Arr(items) => InspectItems(host, doc, items, scope)
    case Obj(fields) =>
      Both(Some(InputMark(doc, fields)),
        if REGION in fields then InspectRegion(host, doc, fields, scope)
        else if ACTIONS in fields then
          if exists key | key in fields :: key != ACTIONS then None else InspectActions(doc, fields[ACTIONS])
        else if exists key | key in fields ::
                  InspectField(host, doc, key, fields[key], SlotOf(fields), scope).None? then None
        else Some(set key, name | key in fields &&
                    name in InspectField(host, doc, key, fields[key], SlotOf(fields), scope).value :: name))
  }

  function InspectField(host: Host, doc: Document, key: string, child: Json, slot: TextSlot,
                        scope: Option<InputType>): Option<set<string>>
    decreases child, 2
  {
    if FixedKey(key) && child.Str? && !Braceless(child.s) then None
    else if child.Str? then InspectString(host, doc, child.s, scope, slot)
    else Inspect(host, doc, child, scope)
  }

  function InspectItems(host: Host, doc: Document, items: seq<Json>, scope: Option<InputType>): Option<set<string>>
    decreases items, 0
  {
    if items == [] then Some({})
    else Both(Inspect(host, doc, items[0], scope), InspectItems(host, doc, items[1..], scope))
  }

  function InspectRegion(host: Host, doc: Document, fields: Object, scope: Option<InputType>): Option<set<string>>
    requires REGION in fields
    decreases Obj(fields), 0
  {
    var name := StringAt(fields, REGION);
    if !ValidName(name) || name !in doc.inputs then None
    else if WHEN in fields && !(fields[WHEN].Str? && ValidName(fields[WHEN].s) && fields[WHEN].s in doc.inputs) then
      None
    else if (EACH in fields) == (BLOCK in fields) then None
    else if exists key | key in fields :: key != REGION && key != WHEN && key != EACH && key != BLOCK then None
    else
      var named := {name} + if WHEN in fields then {fields[WHEN].s} else {};
      var kind := doc.inputs[name].kind;
      if EACH in fields then
        if !(kind.LongTextInput? || kind.PairsInput?) || !fields[EACH].Obj? then None
        else Both(Some(named), Inspect(host, doc, fields[EACH], Some(kind)))
      else if !fields[BLOCK].Obj? then None
      else Both(Some(named), Inspect(host, doc, fields[BLOCK], scope))
  }

  function InspectActions(doc: Document, names: Json): Option<set<string>> {
    if !names.Arr? || names.items == [] then None
    else if exists i | 0 <= i < |names.items| :: !(names.items[i].Str? && names.items[i].s in doc.actions) then None
    else Some(set i | 0 <= i < |names.items| && doc.actions[names.items[i].s].carries != "" ::
      doc.actions[names.items[i].s].carries)
  }

  /** validateLayoutContract: the layout checks and uses every declared input. */
  predicate LayoutAccepted(host: Host, doc: Document) {
    var used := Inspect(host, doc, doc.layout, None);
    used.Some? && doc.inputs.Keys <= used.value
  }
}

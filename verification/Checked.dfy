/** Which layouts the checker accepts and which inputs it takes as used, rule by
    rule (internal/blockkit/placeholder.go). */
module Checked {
  import opened Basics
  import opened Contract
  import opened Text
  import opened Placeholder
  import opened Render
  import opened Layout
  import opened LayoutLaws
  import opened Printed

  // ---- Texts -------------------------------------------------------------

  /** What a token may name, and which modifier it may have there. */
  predicate MayStand(source: Source, modifier: string, inputs: Inputs, scope: Option<InputType>, marked: bool) {
    && (match source
        case TheItem => scope.Some? && scope.value !in {PairsInput, BoolInput}
        case TheLabel | TheValue => scope == Some(PairsInput)
        case TheInput(name) =>
          && name in inputs && inputs[name].kind !in {PairsInput, BoolInput}
          && (inputs[name].kind == LongTextInput && inputs[name].chunk > 0 ==> scope.Some?))
    && (modifier in {"code", "bold"} ==> marked)
    && (modifier in {"hhmm", "rfc3339"} ==>
          if source.TheInput? then inputs[source.name].kind == TimestampInput
          else source.TheItem? && scope == Some(TimestampInput))
  }

  lemma StandIff(source: Source, modifier: string, doc: Document, scope: Option<InputType>, slot: TextSlot)
    requires Proper(source, modifier)
    ensures UseAllowed(Meant(source, modifier), doc, scope, slot) <==>
            MayStand(source, modifier, doc.inputs, scope, slot.Markdown?)
  {
  }

  predicate AllStand(line: Line, inputs: Inputs, scope: Option<InputType>, marked: bool) {
    match line
    case End(_) => true
    case Shows(_, source, modifier, rest) =>
      MayStand(source, modifier, inputs, scope, marked) && AllStand(rest, inputs, scope, marked)
  }

  predicate Mentions(line: Line, name: string) {
    match line
    case End(_) => false
    case Shows(_, source, _, rest) => source == TheInput(name) || Mentions(rest, name)
  }

  ghost predicate IsLine(host: Host, line: Line, s: string) {
    Good(line) && Spell(line) == s && !Blocked(host, s)
  }

  /** The string is a line of tokens that may stand there. */
  ghost predicate TextAllowed(host: Host, inputs: Inputs, s: string, scope: Option<InputType>, marked: bool) {
    exists line :: IsLine(host, line, s) && AllStand(line, inputs, scope, marked)
  }

  ghost predicate TextUses(host: Host, s: string, name: string) {
    exists line :: IsLine(host, line, s) && Mentions(line, name)
  }

  lemma {:induction false} LineStandsIff(line: Line, doc: Document, scope: Option<InputType>, slot: TextSlot)
    requires Good(line) && WellFormed(PiecesOf(line))
    ensures (forall t | t in Tokens(PiecesOf(line)) :: UseAllowed(t, doc, scope, slot)) <==>
            AllStand(line, doc.inputs, scope, slot.Markdown?)
    ensures forall name :: (exists t | t in Tokens(PiecesOf(line)) :: t.name != "item" && t.name == name) <==>
                           Mentions(line, name)
  {
    hide UseAllowed, MayStand, ParseBody, Spelled, Proper;
    match line
    case End(_) =>
    case Shows(_, source, modifier, rest) =>
      SpelledMeans(source, modifier);
      LineStandsIff(rest, doc, scope, slot);
      StandIff(source, modifier, doc, scope, slot);
      var head := Meant(source, modifier);
      assert forall t :: t in Tokens(PiecesOf(line)) <==> t == head || t in Tokens(PiecesOf(rest));
      assert Proper(source, modifier);
      HeadName(source, modifier);
  }

  lemma HeadName(source: Source, modifier: string)
    requires Proper(source, modifier)
    ensures forall name :: Meant(source, modifier).name != "item" && Meant(source, modifier).name == name <==>
                           source == TheInput(name)
  {
  }

  lemma TokensOfLine(host: Host, line: Line, s: string)
    requires IsLine(host, line, s)
    ensures Good(line) && WellFormed(PiecesOf(line)) && Parse(host, s) == Some(Tokens(PiecesOf(line)))
  {
    hide Blocked, Parse, Spell, Tokens;
    GoodIsWellFormed(line);
    LineParses(host, line);
    ParseIff(host, s);
  }

  lemma TextIff(host: Host, doc: Document, s: string, scope: Option<InputType>, slot: TextSlot)
    ensures InspectString(host, doc, s, scope, slot).Some? <==>
            TextAllowed(host, doc.inputs, s, scope, slot.Markdown?)
    ensures InspectString(host, doc, s, scope, slot).Some? ==>
              forall name :: name in InspectString(host, doc, s, scope, slot).value <==> TextUses(host, s, name)
  {
    hide Parse, UseAllowed, AllStand, Mentions, IsLine, Tokens;
    forall line | IsLine(host, line, s)
      ensures Parse(host, s).Some?
      ensures AllStand(line, doc.inputs, scope, slot.Markdown?) <==> InspectString(host, doc, s, scope, slot).Some?
      ensures forall name :: (exists t | t in Parse(host, s).value :: t.name != "item" && t.name == name) <==>
                             Mentions(line, name)
    {
      TokensOfLine(host, line, s);
      LineStandsIff(line, doc, scope, slot);
    }
    if Parse(host, s).Some? {
      var line := SomeLine(host, s);
      if InspectString(host, doc, s, scope, slot).Some? {
        forall name
          ensures name in InspectString(host, doc, s, scope, slot).value <==> TextUses(host, s, name)
        {
          var found := InspectString(host, doc, s, scope, slot).value;
          assert name in found <==> exists t | t in Parse(host, s).value :: t.name != "item" && t.name == name;
          assert IsLine(host, line, s);
        }
      }
    }
  }

  lemma SomeLine(host: Host, s: string) returns (line: Line)
    requires Parse(host, s).Some?
    ensures IsLine(host, line, s)
  {
    hide Parse, Blocked;
    ParseIff(host, s);
    line := LineOf(Split(s));
    GoodIsWellFormed(line);
  }

  // ---- Layouts -----------------------------------------------------------

  predicate IsInput(doc: Document, node: Json) {
    node.Str? && ValidName(node.s) && node.s in doc.inputs
  }

  /** The rules for a node; scope is the type of the enclosing each region. */
  ghost predicate Allowed(host: Host, doc: Document, node: Json, scope: Option<InputType>)
    decreases node, 0
  {
    match node
    case Null | Bool(_) | Num(_) => true
    case Str(s) => TextAllowed(host, doc.inputs, s, scope, false)
    case Arr(items) => forall i | 0 <= i < |items| :: Allowed(host, doc, items[i], scope)
    case Obj(fields) =>
      if "region" in fields then
        && fields.Keys <= {"region", "when", "each", "block"}
        && IsInput(doc, fields["region"]) && ("when" in fields ==> IsInput(doc, fields["when"]))
        && ("each" in fields <==> "block" !in fields)
        && ("each" in fields ==>
              var kind := doc.inputs[fields["region"].s].kind;
              kind in {LongTextInput, PairsInput} && fields["each"].Obj?
              && Allowed(host, doc, fields["each"], Some(kind)))
        && ("block" in fields ==> fields["block"].Obj? && Allowed(host, doc, fields["block"], scope))
      else if "actions" in fields then
        && fields.Keys == {"actions"} && fields["actions"].Arr? && fields["actions"].items != []
        && forall i | 0 <= i < |fields["actions"].items| ::
             fields["actions"].items[i].Str? && fields["actions"].items[i].s in doc.actions
      else
        var marked := "type" in fields && fields["type"] == Str("mrkdwn");
        forall key | key in fields :: EntryAllowed(host, doc, key, fields[key], scope, marked)
  }

  /** An identifying text holds no marker; other texts follow the slot of their
      object. */
  ghost predicate EntryAllowed(host: Host, doc: Document, key: string, child: Json, scope: Option<InputType>,
                               marked: bool)
    decreases child, 1
  {
    if child.Str? then
      && (key in {"type", "block_id", "action_id", "callback_id"} ==> Braceless(child.s))
      && TextAllowed(host, doc.inputs, child.s, scope, marked)
    else Allowed(host, doc, child, scope)
  }

  /** The input is the state of an input block. */
  predicate IsStateOf(fields: Object, name: string) {
    && "type" in fields && fields["type"] == Str("input") && "element" in fields && fields["element"].Obj?
    && "action_id" in fields["element"].fields && fields["element"].fields["action_id"] == Str(name)
  }

  /** Some token, region, condition, action or input block of the node names the
      input. */
  ghost predicate Uses(host: Host, doc: Document, node: Json, name: string)
    decreases node
  {
    match node
    case Null | Bool(_) | Num(_) => false
    case Str(s) => TextUses(host, s, name)
    case Arr(items) => exists i | 0 <= i < |items| :: Uses(host, doc, items[i], name)
    case Obj(fields) =>
      || (name in doc.inputs && IsStateOf(fields, name))
      || if "region" in fields then
           || fields["region"] == Str(name) || ("when" in fields && fields["when"] == Str(name))
           || ("each" in fields && Uses(host, doc, fields["each"], name))
           || ("block" in fields && Uses(host, doc, fields["block"], name))
         else if "actions" in fields then
           && name != "" && fields["actions"].Arr?
           && exists action | Str(action) in fields["actions"].items && action in doc.actions ::
                doc.actions[action].carries == name
         else exists key | key in fields :: Uses(host, doc, fields[key], name)
  }

  lemma {:induction false} ItemsIff(host: Host, doc: Document, items: seq<Json>, scope: Option<InputType>)
    ensures InspectItems(host, doc, items, scope).Some? <==>
            forall i | 0 <= i < |items| :: Inspect(host, doc, items[i], scope).Some?
    ensures InspectItems(host, doc, items, scope).Some? ==>
              forall name :: name in InspectItems(host, doc, items, scope).value <==>
                exists i | 0 <= i < |items| :: name in Inspect(host, doc, items[i], scope).value
  {
    hide Inspect;
    if items != [] {
      ItemsIff(host, doc, items[1..], scope);
      assert forall i | 0 < i < |items| :: items[i] == items[1..][i - 1];
      assert forall i | 0 <= i < |items| - 1 :: items[1..][i] == items[i + 1];
    }
  }

  /** The checker accepts exactly the layouts that keep the rules, and finds exactly
      the inputs they use. */
  lemma {:induction false} InspectIff(host: Host, doc: Document, node: Json, scope: Option<InputType>)
    ensures Inspect(host, doc, node, scope).Some? <==> Allowed(host, doc, node, scope)
    ensures Inspect(host, doc, node, scope).Some? ==>
              forall name :: name in Inspect(host, doc, node, scope).value <==> Uses(host, doc, node, name)
    decreases node, 2
  {
    match node
    case Null | Bool(_) | Num(_) =>
    case Str(s) => TextIff(host, doc, s, scope, PlainText);
    case Arr(items) => ArrayIff(host, doc, items, scope);
    case Obj(fields) =>
      if "region" in fields {
        RegionIff(host, doc, fields, scope);
      } else if "actions" in fields {
        ActionsIff(host, doc, fields, scope);
      } else {
        ObjectIff(host, doc, fields, scope);
      }
  }

  lemma {:induction false} ArrayIff(host: Host, doc: Document, items: seq<Json>, scope: Option<InputType>)
    ensures Inspect(host, doc, Arr(items), scope).Some? <==> Allowed(host, doc, Arr(items), scope)
    ensures Inspect(host, doc, Arr(items), scope).Some? ==>
              forall name :: name in Inspect(host, doc, Arr(items), scope).value <==> Uses(host, doc, Arr(items), name)
    decreases Arr(items), 0
  {
    ItemsIff(host, doc, items, scope);
    forall i | 0 <= i < |items|
      ensures Inspect(host, doc, items[i], scope).Some? <==> Allowed(host, doc, items[i], scope)
      ensures Inspect(host, doc, items[i], scope).Some? ==>
                forall name :: name in Inspect(host, doc, items[i], scope).value <==> Uses(host, doc, items[i], name)
    {
      assert items[i] < Arr(items);
      InspectIff(host, doc, items[i], scope);
    }
  }

  lemma {:induction false} RegionIff(host: Host, doc: Document, fields: Object, scope: Option<InputType>)
    requires "region" in fields
    ensures Inspect(host, doc, Obj(fields), scope).Some? <==> Allowed(host, doc, Obj(fields), scope)
    ensures Inspect(host, doc, Obj(fields), scope).Some? ==>
              var found := Inspect(host, doc, Obj(fields), scope).value;
              forall name :: name in found <==> Uses(host, doc, Obj(fields), name)
    decreases Obj(fields), 0
  {
    hide Allowed, Uses, Inspect, ValidName, InspectRegion;
    if "each" in fields && IsInput(doc, fields["region"]) {
      InspectIff(host, doc, fields["each"], Some(doc.inputs[fields["region"].s].kind));
    }
    if "block" in fields { InspectIff(host, doc, fields["block"], scope); }
    RegionAllowedIff(host, doc, fields, scope);
    if Inspect(host, doc, Obj(fields), scope).Some? { RegionUses(host, doc, fields, scope); }
  }

  /** The rules of a region, over what the checker says of its parts. */
  lemma RegionAllowedIff(host: Host, doc: Document, fields: Object, scope: Option<InputType>)
    requires "region" in fields
    requires "each" in fields && IsInput(doc, fields["region"]) ==>
               var inner := Some(doc.inputs[fields["region"].s].kind);
               (Inspect(host, doc, fields["each"], inner).Some? <==> Allowed(host, doc, fields["each"], inner))
    requires "block" in fields ==>
               (Inspect(host, doc, fields["block"], scope).Some? <==> Allowed(host, doc, fields["block"], scope))
    ensures Inspect(host, doc, Obj(fields), scope).Some? <==> Allowed(host, doc, Obj(fields), scope)
  {
    hide TextAllowed, ValidName, InspectString, InspectField, EntryAllowed;
    NoNameIsValid();
  }

  lemma RegionUses(host: Host, doc: Document, fields: Object, scope: Option<InputType>)
    requires "region" in fields && Inspect(host, doc, Obj(fields), scope).Some?
    requires "each" in fields && IsInput(doc, fields["region"]) ==>
               var found := Inspect(host, doc, fields["each"], Some(doc.inputs[fields["region"].s].kind));
               found.Some? ==> forall name :: name in found.value <==> Uses(host, doc, fields["each"], name)
    requires "block" in fields ==>
               var found := Inspect(host, doc, fields["block"], scope);
               found.Some? ==> forall name :: name in found.value <==> Uses(host, doc, fields["block"], name)
    ensures forall name :: name in Inspect(host, doc, Obj(fields), scope).value <==> Uses(host, doc, Obj(fields), name)
  {
    hide TextUses, ValidName, InspectString, InspectField;
    NoNameIsValid();
  }

  lemma NoNameIsValid()
    ensures !ValidName("")
  {
  }

  lemma ActionsIff(host: Host, doc: Document, fields: Object, scope: Option<InputType>)
    requires "region" !in fields && "actions" in fields
    ensures Inspect(host, doc, Obj(fields), scope).Some? <==> Allowed(host, doc, Obj(fields), scope)
    ensures Inspect(host, doc, Obj(fields), scope).Some? ==>
              var found := Inspect(host, doc, Obj(fields), scope).value;
              forall name :: name in found <==> Uses(host, doc, Obj(fields), name)
  {
    hide TextAllowed, TextUses;
  }

  lemma {:induction false} FieldIff(host: Host, doc: Document, fields: Object, key: string, scope: Option<InputType>)
    requires key in fields
    ensures InspectField(host, doc, key, fields[key], SlotOf(fields), scope).Some? <==>
            EntryAllowed(host, doc, key, fields[key], scope, SlotOf(fields).Markdown?)
    ensures InspectField(host, doc, key, fields[key], SlotOf(fields), scope).Some? ==>
              forall name :: name in InspectField(host, doc, key, fields[key], SlotOf(fields), scope).value <==>
                             Uses(host, doc, fields[key], name)
    decreases fields[key], 3
  {
    hide InspectString, TextAllowed, TextUses, Braceless;
    if fields[key].Str? {
      TextIff(host, doc, fields[key].s, scope, SlotOf(fields));
    } else {
      InspectIff(host, doc, fields[key], scope);
    }
  }

  lemma {:induction false} ObjectIff(host: Host, doc: Document, fields: Object, scope: Option<InputType>)
    requires "region" !in fields && "actions" !in fields
    ensures Inspect(host, doc, Obj(fields), scope).Some? <==> Allowed(host, doc, Obj(fields), scope)
    ensures Inspect(host, doc, Obj(fields), scope).Some? ==>
              var found := Inspect(host, doc, Obj(fields), scope).value;
              forall name :: name in found <==> Uses(host, doc, Obj(fields), name)
    decreases Obj(fields), 0
  {
    hide InspectField, TextAllowed, TextUses, EntryAllowed;
    forall key | key in fields
      ensures InspectField(host, doc, key, fields[key], SlotOf(fields), scope).Some? <==>
              EntryAllowed(host, doc, key, fields[key], scope, SlotOf(fields).Markdown?)
      ensures InspectField(host, doc, key, fields[key], SlotOf(fields), scope).Some? ==>
                forall name :: name in InspectField(host, doc, key, fields[key], SlotOf(fields), scope).value <==>
                               Uses(host, doc, fields[key], name)
    {
      FieldIff(host, doc, fields, key, scope);
    }
  }
}

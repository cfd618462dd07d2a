/** Starting the template engine: every template is checked and rendered with
    representative values before any view is shown
    (internal/blockkit/contract.go, registry.go, emit_slack.go). */
module Engine {
  import opened Basics
  import opened Contract
  import opened Render
  import opened Layout
  import opened LayoutLaws
  import opened Blocks
  import opened Startup
  import E = Evaluator
  import O = Outputs
  import S = Submission

  /** A template with the outputs it declares. */
  datatype Template = Template(doc: Document, outputs: O.Outputs)

  datatype Registered = Registered(template: Template, blocks: O.Blocks)

  type Registry = map<string, Registered>

  /** representativeValues. */
  method BuildRepresentativeValues(inputs: Inputs, includeOptional: bool) returns (values: Option<Values>)
    ensures values == RepresentativeValues(inputs, includeOptional)
  {
    hide Representative;
    var built: Values := map[];
    var names := inputs.Keys;
    while names != {}
      invariant names <= inputs.Keys && built.Keys == inputs.Keys - names
      invariant forall name | name in built ::
                  && built[name].input == inputs[name]
                  && if Omitted(inputs[name], includeOptional) then built[name].value == Nil
                     else Representative(inputs[name]) == Some(built[name].value)
    {
      var name :| name in names;
      var input := inputs[name];
      if !includeOptional && !input.required && input.default == "" {
        built := built[name := Slot(input, Nil)];
      } else {
        var value := Representative(input);
        if value.None? { return None; }
        built := built[name := Slot(input, value.value)];
      }
      names := names - {name};
    }
    BuiltAll(inputs, includeOptional, built);
    return Some(built);
  }

  lemma BuiltAll(inputs: Inputs, includeOptional: bool, built: Values)
    requires built.Keys == inputs.Keys
    requires forall name | name in built ::
               && built[name].input == inputs[name]
               && if Omitted(inputs[name], includeOptional) then built[name].value == Nil
                  else Representative(inputs[name]) == Some(built[name].value)
    ensures RepresentativeValues(inputs, includeOptional) == Some(built)
  {
    hide Representative, Omitted;
    var v := RepresentativeValues(inputs, includeOptional);
    assert forall name | name in inputs ::
             name in built && (!Omitted(inputs[name], includeOptional) ==> Representative(inputs[name]).Some?);
    assert v.Some?;
    forall name | name in inputs
      ensures v.value[name] == built[name]
    {
    }
    assert v.value == built;
  }

  /** validateLayoutContract. */
  method ValidateLayoutContract(host: Host, doc: Document) returns (ok: bool)
    ensures ok == LayoutAccepted(host, doc)
  {
    hide Inspect;
    var used;
    ok, used := E.InspectNode(host, doc, doc.layout, None, {});
    if !ok { return false; }
    var names := doc.inputs.Keys;
    while names != {}
      invariant names <= doc.inputs.Keys && doc.inputs.Keys - names <= used
    {
      var name :| name in names;
      if name !in used { return false; }
      names := names - {name};
    }
    return true;
  }

  /** renderCompiled with renderFallback: the blocks, when it succeeds. */
  method RenderCompiled(host: Host, doc: Document, values: Values) returns (blocks: Option<seq<Json>>)
    ensures blocks.Some? == Compiles(host, doc, values)
    ensures blocks.Some? ==>
              RenderNode(EnvOf(host, doc, Compiled, values), doc.layout, NoItem) == Some(Arr(blocks.value))
  {
    hide RenderNode, RenderText;
    var layout := E.RenderNodeWith(EnvOf(host, doc, Compiled, values), doc.layout, NoItem);
    if layout.None? || !layout.value.Arr? { return None; }
    if doc.fallback.Some? {
      var text := RenderString(host, doc.fallback.value, values, NoItem, PlainText);
      return if text.Some? then Some(layout.value.items) else None;
    }
    var fallback := E.RenderNodeWith(EnvOf(host, doc, Fallback, values), doc.layout, NoItem);
    return if fallback.Some? && fallback.value.Arr? then Some(layout.value.items) else None;
  }

  /** Message and Modal, from the bound values on. */
  method RenderAndVerify(host: Host, doc: Document, values: Values) returns (blocks: Option<seq<Json>>)
    ensures blocks.Some? == Passes(host, doc, values)
    ensures blocks.Some? ==>
              RenderNode(EnvOf(host, doc, Compiled, values), doc.layout, NoItem) == Some(Arr(blocks.value))
  {
    hide RenderNode, RenderText, Verified, Heads, Compiles;
    blocks := RenderCompiled(host, doc, values);
    if blocks.None? { return; }
    var verified := VerifyCompiled(doc, blocks.value);
    if !verified { return None; }
  }

  /** The minimal and the maximal variant, in that order. */
  method CompileVariants(host: Host, doc: Document) returns (ok: bool)
    ensures ok == (VariantAccepted(host, doc, false) && VariantAccepted(host, doc, true))
  {
    hide Passes, RepresentativeValues, ValuesValid;
    var variants := [false, true];
    for i := 0 to |variants|
      invariant forall k | 0 <= k < i :: VariantAccepted(host, doc, variants[k])
    {
      var values := BuildRepresentativeValues(doc.inputs, variants[i]);
      if values.None? { return false; }
      if !ValuesValid(host, values.value) { return false; }
      var blocks := RenderAndVerify(host, doc, values.value);
      if blocks.None? { return false; }
    }
    assert VariantAccepted(host, doc, variants[0]) && VariantAccepted(host, doc, variants[1]);
    return true;
  }

  /** Outputs stand one to one to the input blocks of a modal; a message has none. */
  ghost predicate ContractHolds(t: Template, blocks: O.Blocks) {
    if t.doc.modal then O.CollectsAll(t.doc.layout, map[], blocks) && S.Bijective(t.outputs, blocks)
      else t.outputs == map[]
  }

  /** No set of input blocks makes the contract hold. */
  ghost predicate ContractBroken(t: Template) {
    if t.doc.modal then
      || O.Clashes(t.doc.layout, map[])
      || exists blocks :: O.CollectsAll(t.doc.layout, map[], blocks) && !S.Bijective(t.outputs, blocks)
    else t.outputs != map[]
  }

  ghost predicate Trusted(host: Host, r: Registered) {
    Accepted(host, r.template.doc) && ContractHolds(r.template, r.blocks)
  }

  ghost predicate Refused(host: Host, t: Template) {
    !Accepted(host, t.doc) || ContractBroken(t)
  }

  method Register(host: Host, t: Template) returns (r: Option<Registered>)
    ensures r.Some? ==> r.value.template == t && Trusted(host, r.value)
    ensures r.None? ==> Refused(host, t)
  {
    hide DocumentValid, LayoutAccepted, VariantAccepted, O.CollectsAll, O.Clashes, S.Bijective;
    if !DocumentValid(host, t.doc) { return None; }
    var layout := ValidateLayoutContract(host, t.doc);
    if !layout { return None; }
    var contract, blocks := S.ValidateOutputContract(t.doc.modal, t.doc.layout, t.outputs);
    if !contract { return None; }
    var variants := CompileVariants(host, t.doc);
    if !variants { return None; }
    return Some(Registered(t, blocks));
  }

  /** New: the engine holds every template, each of them trusted, or it does not
      start because one of them is refused. Template names are distinct. */
  method New(host: Host, templates: seq<Template>) returns (engine: Option<Registry>)
    requires forall i, j | 0 <= i < j < |templates| :: templates[i].doc.name != templates[j].doc.name
    ensures engine.Some? ==>
              && (forall name :: name in engine.value <==> exists i | 0 <= i < |templates| ::
                templates[i].doc.name == name)
              && (forall i | 0 <= i < |templates| ::
                    templates[i].doc.name in engine.value
                      && engine.value[templates[i].doc.name].template == templates[i])
              && (forall name | name in engine.value :: Trusted(host, engine.value[name]))
    ensures engine.None? ==> exists i | 0 <= i < |templates| :: Refused(host, templates[i])
  {
    hide Trusted, Refused;
    var registry: Registry := map[];
    for i := 0 to |templates|
      invariant forall name :: name in registry <==> exists k | 0 <= k < i :: templates[k].doc.name == name
      invariant forall k | 0 <= k < i ::
                  templates[k].doc.name in registry && registry[templates[k].doc.name].template == templates[k]
      invariant forall name | name in registry :: Trusted(host, registry[name])
    {
      var r := Register(host, templates[i]);
      if r.None? { return None; }
      registry := registry[templates[i].doc.name := r.value];
    }
    return Some(registry);
  }

  /** A template cannot be both trusted and refused. */
  lemma TrustedIsNotRefused(host: Host, r: Registered)
    requires Trusted(host, r)
    ensures !Refused(host, r.template)
  {
    hide Accepted, O.CollectsAll, O.Clashes, S.Bijective;
    if r.template.doc.modal {
      O.CollectsXorClashes(r.template.doc.layout, map[], r.blocks);
      forall blocks | O.CollectsAll(r.template.doc.layout, map[], blocks)
        ensures S.Bijective(r.template.outputs, blocks)
      {
        O.CollectedOnce(r.template.doc.layout, blocks, r.blocks);
      }
    }
  }
}

/** Modal outputs: collecting the input blocks of a layout, matching them one to
    one with the declared outputs, and decoding a submission
    (internal/blockkit/outputs.go). */
module Outputs {
  import opened Basics
  import opened Contract
  import opened Layout

  datatype OutputType = TextOutput | NumberOutput | EnumOutput | OpenEnumOutput | UnsupportedOutput(name: string)

  datatype Output = Output(kind: OutputType, required: bool, oneOf: seq<string>, block: string, action: string)

  datatype SubmitField = SubmitField(blockID: string, actionID: string, elementType: string)

  type Blocks = map<string, SubmitField>
  type Outputs = map<string, Output>

  const PLAIN_TEXT_INPUT := "plain_text_input"
  const STATIC_SELECT := "static_select"
  const EXTERNAL_SELECT := "external_select"

  // ---- Input blocks by position ------------------------------------------

  datatype Step = At(index: nat) | Under(key: string)

  predicate IsInput(fields: Object) {
    REGION !in fields && "type" in fields && fields["type"] == Str("input")
  }

  /** The children the collector descends into: regions only through each and
      block, input blocks not at all. */
  function Child(node: Json, step: Step): Option<Json> {
    match node
    case Arr(items) => if step.At? && step.index < |items| then Some(items[step.index]) else None
    case Obj(fields) =>
      if !step.Under? || step.key !in fields || IsInput(fields) then None
      else if REGION in fields && step.key != EACH && step.key != BLOCK then None
      else Some(fields[step.key])
    case _ => None
  }

  function Follow(node: Json, path: seq<Step>): Option<Json>
    decreases |path|
  {
    if path == [] then Some(node)
    else if Child(node, path[0]).None? then None
    else Follow(Child(node, path[0]).value, path[1..])
  }

  function FieldOf(fields: Object): Option<SubmitField> {
    var blockID := StringAt(fields, "block_id");
    if blockID == "" || "element" !in fields || !fields["element"].Obj? then None
    else
      var element := fields["element"].fields;
      var elementType, actionID := StringAt(element, "type"), StringAt(element, "action_id");
      if elementType == "" || actionID == "" then None else Some(SubmitField(blockID, actionID, elementType))
  }

  predicate InputAt(node: Json, path: seq<Step>) {
    var found := Follow(node, path);
    found.Some? && found.value.Obj? && IsInput(found.value.fields)
  }

  function FieldAt(node: Json, path: seq<Step>): Option<SubmitField>
    requires InputAt(node, path)
  {
    FieldOf(Follow(node, path).value.fields)
  }

  /** The input blocks counted so far: those whose first step is done. */
  predicate Counted(node: Json, done: Step -> bool, path: seq<Step>) {
    InputAt(node, path) && (path != [] ==> done(path[0]))
  }

  predicate HasID(node: Json, path: seq<Step>, id: string)
    requires InputAt(node, path)
  {
    FieldAt(node, path).Some? && FieldAt(node, path).value.blockID == id
  }

  predicate Extends(before: Blocks, after: Blocks) {
    forall id | id in before :: id in after && after[id] == before[id]
  }

  ghost predicate Recorded(node: Json, done: Step -> bool, before: Blocks, after: Blocks) {
    forall path | Counted(node, done, path) ::
      var field := FieldAt(node, path);
      field.Some? && field.value.blockID !in before && field.value.blockID in after
        && after[field.value.blockID] == field.value
  }

  ghost predicate OnlyFrom(node: Json, done: Step -> bool, before: Blocks, after: Blocks) {
    forall id | id in after && id !in before :: exists path :: Counted(node, done, path) && HasID(node, path, id)
  }

  ghost predicate DistinctIDs(node: Json, done: Step -> bool) {
    forall p, q | Counted(node, done, p) && Counted(node, done, q) && FieldAt(node, p).Some? && FieldAt(node, q).Some?
      && FieldAt(node, p).value.blockID == FieldAt(node, q).value.blockID :: p == q
  }

  /** after is before plus exactly the counted input blocks of node, each under
      its own fresh ID. */
  ghost predicate Collects(node: Json, done: Step -> bool, before: Blocks, after: Blocks) {
    Extends(before, after) && Recorded(node, done, before, after) && OnlyFrom(node, done, before, after)
      && DistinctIDs(node, done)
  }

  ghost predicate CollectsAll(node: Json, before: Blocks, after: Blocks) {
    Collects(node, step => true, before, after)
  }

  /** An input block of node is incomplete, or its ID is taken. */
  ghost predicate Clashes(node: Json, before: Blocks) {
    || (exists path ::
        InputAt(node, path) && (FieldAt(node, path).None? || FieldAt(node, path).value.blockID in before))
    || (exists p, q ::
        InputAt(node, p) && InputAt(node, q) && p != q && FieldAt(node, p).Some? && FieldAt(node, q).Some?
          && FieldAt(node, p).value.blockID == FieldAt(node, q).value.blockID)
  }

  lemma InputBelow(node: Json, step: Step, child: Json, rest: seq<Step>)
    requires Child(node, step) == Some(child)
    ensures InputAt(node, [step] + rest) == InputAt(child, rest)
    ensures InputAt(child, rest) ==> FieldAt(node, [step] + rest) == FieldAt(child, rest)
  {
    assert ([step] + rest)[1..] == rest;
  }

  lemma InputsBelow(node: Json, step: Step, child: Json)
    requires Child(node, step) == Some(child)
    ensures forall rest :: InputAt(node, [step] + rest) == InputAt(child, rest)
    ensures forall rest | InputAt(child, rest) :: FieldAt(node, [step] + rest) == FieldAt(child, rest)
    ensures forall path | InputAt(node, path) && path != [] && path[0] == step ::
              path == [step] + path[1..] && InputAt(child, path[1..])
  {
    hide InputAt, FieldAt;
    forall rest
      ensures InputAt(node, [step] + rest) == InputAt(child, rest)
      ensures InputAt(child, rest) ==> FieldAt(node, [step] + rest) == FieldAt(child, rest)
    {
      InputBelow(node, step, child, rest);
    }
    forall path | InputAt(node, path) && path != [] && path[0] == step
      ensures path == [step] + path[1..] && InputAt(child, path[1..])
    {
      assert path == [step] + path[1..];
    }
  }

  /** One more child is collected. */
  lemma AddChild(node: Json, done: Step -> bool, done': Step -> bool, step: Step, child: Json, before: Blocks,
                 mid: Blocks, after: Blocks)
    requires Child(node, step) == Some(child) && !done(step) && !InputAt(node, [])
    requires forall s :: done'(s) <==> done(s) || s == step
    requires Collects(node, done, before, mid) && CollectsAll(child, mid, after)
    ensures Collects(node, done', before, after)
  {
    hide InputAt, FieldAt, Child, Recorded, OnlyFrom;
    InputsBelow(node, step, child);
    AddRecorded(node, done, done', step, child, before, mid, after);
    AddOnlyFrom(node, done, done', step, child, before, mid, after);
    forall p, q | Counted(node, done', p) && Counted(node, done', q) && FieldAt(node, p).Some? && FieldAt(node, q).Some?
                  && FieldAt(node, p).value.blockID == FieldAt(node, q).value.blockID
      ensures p == q
    {
      DistinctBelow(node, done, step, child, before, mid, after, p, q);
    }
  }

  lemma AddRecorded(node: Json, done: Step -> bool, done': Step -> bool, step: Step, child: Json, before: Blocks,
                    mid: Blocks, after: Blocks)
    requires Child(node, step) == Some(child) && !InputAt(node, [])
    requires forall s :: done'(s) <==> done(s) || s == step
    requires Extends(before, mid) && Extends(mid, after)
    requires Recorded(node, done, before, mid) && Recorded(child, s => true, mid, after)
    ensures Recorded(node, done', before, after)
  {
    hide InputAt, FieldAt, Child;
    InputsBelow(node, step, child);
    forall path | Counted(node, done', path)
      ensures var field := FieldAt(node, path);
              field.Some? && field.value.blockID !in before && field.value.blockID in after
                && after[field.value.blockID] == field.value
    {
      if path[0] == step {
        assert Counted(child, s => true, path[1..]);
      } else {
        assert Counted(node, done, path);
      }
    }
  }

  lemma AddOnlyFrom(node: Json, done: Step -> bool, done': Step -> bool, step: Step, child: Json, before: Blocks,
                    mid: Blocks, after: Blocks)
    requires Child(node, step) == Some(child) && forall s :: done'(s) <==> done(s) || s == step
    requires OnlyFrom(node, done, before, mid) && OnlyFrom(child, s => true, mid, after)
    ensures OnlyFrom(node, done', before, after)
  {
    hide InputAt, FieldAt, Child;
    InputsBelow(node, step, child);
    forall id | id in after && id !in before
      ensures exists path :: Counted(node, done', path) && HasID(node, path, id)
    {
      if id in mid {
        var path :| Counted(node, done, path) && HasID(node, path, id);
        assert Counted(node, done', path);
      } else {
        var rest :| Counted(child, s => true, rest) && HasID(child, rest, id);
        var path := [step] + rest;
        assert InputAt(node, path) && Counted(node, done', path) && HasID(node, path, id);
      }
    }
  }

  /** A path through the child step, from the child on. */
  lemma DownPath(node: Json, step: Step, child: Json, p: seq<Step>)
    requires Child(node, step) == Some(child) && InputAt(node, p) && p != [] && p[0] == step
    ensures p == [step] + p[1..] && Counted(child, s => true, p[1..]) && FieldAt(child, p[1..]) == FieldAt(node, p)
  {
    hide InputAt, FieldAt, Child;
    assert p == [step] + p[1..];
    InputBelow(node, step, child, p[1..]);
  }

  lemma DistinctBelow(node: Json, done: Step -> bool, step: Step, child: Json, before: Blocks, mid: Blocks,
                      after: Blocks, p: seq<Step>, q: seq<Step>)
    requires Child(node, step) == Some(child) && !done(step) && !InputAt(node, [])
    requires Collects(node, done, before, mid) && CollectsAll(child, mid, after)
    requires InputAt(node, p) && InputAt(node, q) && (done(p[0]) || p[0] == step) && (done(q[0]) || q[0] == step)
    requires FieldAt(node, p).Some? && FieldAt(node, q).Some?
    requires FieldAt(node, p).value.blockID == FieldAt(node, q).value.blockID
    ensures p == q
  {
    hide InputAt, FieldAt, Child, Recorded, OnlyFrom, Extends;
    if p[0] == step && q[0] == step {
      DownPath(node, step, child, p);
      DownPath(node, step, child, q);
    } else if p[0] == step {
      ApartBelow(node, done, step, child, before, mid, after, q, p);
    } else if q[0] == step {
      ApartBelow(node, done, step, child, before, mid, after, p, q);
    } else {
      assert Counted(node, done, p) && Counted(node, done, q);
    }
  }

  /** What the child adds is new beside what was collected before it. */
  lemma ApartBelow(node: Json, done: Step -> bool, step: Step, child: Json, before: Blocks, mid: Blocks,
                   after: Blocks, old_: seq<Step>, new_: seq<Step>)
    requires Child(node, step) == Some(child) && Collects(node, done, before, mid) && CollectsAll(child, mid, after)
    requires InputAt(node, old_) && old_ != [] && done(old_[0]) && InputAt(node, new_) && new_ != [] && new_[0] == step
    requires FieldAt(node, old_).Some? && FieldAt(node, new_).Some?
    ensures FieldAt(node, old_).value.blockID != FieldAt(node, new_).value.blockID
  {
    hide InputAt, FieldAt, Child, OnlyFrom, Extends, DistinctIDs;
    DownPath(node, step, child, new_);
    assert Counted(node, done, old_);
  }

  lemma ClashesAbove(node: Json, done: Step -> bool, step: Step, child: Json, before: Blocks, mid: Blocks)
    requires Child(node, step) == Some(child) && !done(step) && !InputAt(node, [])
    requires Collects(node, done, before, mid) && Clashes(child, mid)
    ensures Clashes(node, before)
  {
    hide InputAt, FieldAt, Child, Collects;
    if rest :| InputAt(child, rest) && (FieldAt(child, rest).None? || FieldAt(child, rest).value.blockID in mid) {
      TakenAbove(node, done, step, child, before, mid, rest);
    } else {
      var p, q :| InputAt(child, p) && InputAt(child, q) && p != q && FieldAt(child, p).Some? && FieldAt(child, q).Some?
                  && FieldAt(child, p).value.blockID == FieldAt(child, q).value.blockID;
      InputBelow(node, step, child, p);
      InputBelow(node, step, child, q);
      var p', q' := [step] + p, [step] + q;
      assert p'[1..] == p && q'[1..] == q;
    }
  }

  /** A block of the child that is incomplete, or whose ID was collected or taken. */
  lemma TakenAbove(node: Json, done: Step -> bool, step: Step, child: Json, before: Blocks, mid: Blocks,
                   rest: seq<Step>)
    requires Child(node, step) == Some(child) && !done(step)
    requires Collects(node, done, before, mid) && InputAt(child, rest)
    requires FieldAt(child, rest).None? || FieldAt(child, rest).value.blockID in mid
    ensures Clashes(node, before)
  {
    hide InputAt, FieldAt, Child, Recorded, DistinctIDs, Extends;
    InputBelow(node, step, child, rest);
    var path := [step] + rest;
    if FieldAt(node, path).Some? && FieldAt(node, path).value.blockID !in before {
      var id := FieldAt(node, path).value.blockID;
      var other :| Counted(node, done, other) && HasID(node, other, id);
      assert other != path;
    }
  }

  // ---- Collecting --------------------------------------------------------

  lemma LeafCollects(node: Json, before: Blocks)
    requires forall step :: Child(node, step).None?
    requires !InputAt(node, [])
    ensures CollectsAll(node, before, before)
  {
    hide InputAt, Child;
    forall path
      ensures !InputAt(node, path)
    {
      FirstStep(node, path);
    }
  }

  lemma NothingCounted(node: Json, done: Step -> bool, before: Blocks)
    requires (forall step :: !done(step)) && !InputAt(node, [])
    ensures Collects(node, done, before, before)
  {
  }

  /** Every position of a node that is no input block itself starts with one of
      its child steps. */
  lemma AllCounted(node: Json, done: Step -> bool, before: Blocks, after: Blocks)
    requires !InputAt(node, []) && Collects(node, done, before, after)
    requires forall step | Child(node, step).Some? :: done(step)
    ensures CollectsAll(node, before, after)
  {
    hide FieldAt, Child, InputAt, Collects, Counted;
    forall path
      ensures Counted(node, s => true, path) ==> Counted(node, done, path)
      ensures Counted(node, done, path) ==> Counted(node, s => true, path)
    {
      SameCounted(node, done, path);
    }
    SameCollects(node, done, s => true, before, after);
  }

  lemma SameCounted(node: Json, done: Step -> bool, path: seq<Step>)
    requires !InputAt(node, []) && forall step | Child(node, step).Some? :: done(step)
    ensures Counted(node, s => true, path) <==> Counted(node, done, path)
  {
    hide Child, InputAt;
    FirstStep(node, path);
  }

  lemma SameCollects(node: Json, a: Step -> bool, b: Step -> bool, before: Blocks, after: Blocks)
    requires Collects(node, a, before, after)
    requires forall path :: Counted(node, a, path) <==> Counted(node, b, path)
    ensures Collects(node, b, before, after)
  {
    hide FieldAt;
  }

  lemma FirstStep(node: Json, path: seq<Step>)
    requires !InputAt(node, [])
    ensures InputAt(node, path) ==> path != [] && Child(node, path[0]).Some?
  {
  }

  lemma OwnBlock(fields: Object, before: Blocks)
    requires IsInput(fields)
    ensures FieldOf(fields).None? ==> Clashes(Obj(fields), before)
    ensures FieldOf(fields).Some? && FieldOf(fields).value.blockID in before ==> Clashes(Obj(fields), before)
    ensures FieldOf(fields).Some? && FieldOf(fields).value.blockID !in before ==>
              CollectsAll(Obj(fields), before, before[FieldOf(fields).value.blockID := FieldOf(fields).value])
  {
    hide FieldOf;
    var node := Obj(fields);
    assert InputAt(node, []) && FieldAt(node, []) == FieldOf(fields);
    forall path | InputAt(node, path)
      ensures path == []
    {
    }
    if FieldOf(fields).Some? {
      assert HasID(node, [], FieldOf(fields).value.blockID);
    }
  }

  /** collectInputBlocks. The key order of objects does not matter to what is
      collected. */
  method CollectInputBlocks(node: Json, blocks: Blocks) returns (ok: bool, blocks': Blocks)
    ensures ok ==> CollectsAll(node, blocks, blocks')
    ensures !ok ==> Clashes(node, blocks)
    decreases node, 1
  {
    hide Collects, Clashes, CollectsAll, FieldOf;
    match node {
      case Null | Bool(_) | Num(_) | Str(_) =>
        LeafCollects(node, blocks);
        return true, blocks;
      case Arr(items) =>
        ok, blocks' := CollectItems(node, blocks);
      case Obj(fields) =>
        if IsInput(fields) {
          OwnBlock(fields, blocks);
          var field := FieldOf(fields);
          if field.None? || field.value.blockID in blocks { return false, blocks; }
          return true, blocks[field.value.blockID := field.value];
        }
        var keys := if REGION in fields then fields.Keys * {EACH, BLOCK} else fields.Keys;
        ok, blocks' := CollectKeys(fields, keys, blocks);
    }
  }

  function Below(i: nat): Step -> bool {
    (s: Step) => s.At? && s.index < i
  }

  function Among(keys: set<string>): Step -> bool {
    (s: Step) => s.Under? && s.key in keys
  }

  method CollectItems(node: Json, blocks: Blocks) returns (ok: bool, blocks': Blocks)
    requires node.Arr?
    ensures ok ==> CollectsAll(node, blocks, blocks')
    ensures !ok ==> Clashes(node, blocks)
    decreases node, 0
  {
    hide Collects, Clashes, CollectsAll;
    blocks' := blocks;
    NothingCounted(node, Below(0), blocks);
    for i := 0 to |node.items|
      invariant Collects(node, Below(i), blocks, blocks')
    {
      var child := node.items[i];
      ghost var mid := blocks';
      ok, blocks' := CollectInputBlocks(child, blocks');
      if !ok {
        ClashesAbove(node, Below(i), At(i), child, blocks, mid);
        return;
      }
      AddChild(node, Below(i), Below(i + 1), At(i), child, blocks, mid, blocks');
    }
    AllCounted(node, Below(|node.items|), blocks, blocks');
    ok := true;
  }

  method CollectKeys(fields: Object, keys: set<string>, blocks: Blocks) returns (ok: bool, blocks': Blocks)
    requires !IsInput(fields) && keys == if REGION in fields then fields.Keys * {EACH, BLOCK} else fields.Keys
    ensures ok ==> CollectsAll(Obj(fields), blocks, blocks')
    ensures !ok ==> Clashes(Obj(fields), blocks)
    decreases Obj(fields), 0
  {
    hide Collects, Clashes, CollectsAll;
    blocks' := blocks;
    var pending := keys;
    NothingCounted(Obj(fields), Among(keys - pending), blocks);
    while pending != {}
      invariant pending <= keys
      invariant Collects(Obj(fields), Among(keys - pending), blocks, blocks')
      decreases |pending|
    {
      var key :| key in pending;
      ghost var mid := blocks';
      ok, blocks' := CollectInputBlocks(fields[key], blocks');
      if !ok {
        ClashesAbove(Obj(fields), Among(keys - pending), Under(key), fields[key], blocks, mid);
        return;
      }
      AddChild(Obj(fields), Among(keys - pending), Among(keys - (pending - {key})), Under(key), fields[key], blocks,
        mid, blocks');
      pending := pending - {key};
    }
    AllCounted(Obj(fields), Among(keys - pending), blocks, blocks');
    ok := true;
  }

  /** Collecting cannot both succeed and be in conflict. */
  lemma CollectsXorClashes(node: Json, before: Blocks, after: Blocks)
    requires CollectsAll(node, before, after)
    ensures !Clashes(node, before)
  {
    hide InputAt, FieldAt;
    assert forall path :: InputAt(node, path) ==> Counted(node, s => true, path);
  }

  /** What a layout collects is determined by the layout. */
  lemma CollectedOnce(node: Json, a: Blocks, b: Blocks)
    requires CollectsAll(node, map[], a) && CollectsAll(node, map[], b)
    ensures a == b
  {
    hide InputAt, FieldAt;
    forall id | id in a
      ensures id in b && b[id] == a[id]
    {
      CollectedFrom(node, a, b, id);
    }
    forall id | id in b
      ensures id in a
    {
      CollectedFrom(node, b, a, id);
    }
  }

  lemma CollectedFrom(node: Json, a: Blocks, b: Blocks, id: string)
    requires CollectsAll(node, map[], a) && CollectsAll(node, map[], b) && id in a
    ensures id in b && b[id] == a[id]
  {
    hide InputAt, FieldAt;
    var path :| Counted(node, step => true, path) && HasID(node, path, id);
    assert Counted(node, step => true, path);
  }
}

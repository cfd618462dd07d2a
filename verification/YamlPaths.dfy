/** Which paths of a configuration document are read over the defaults and
    written back: those the schema lists (internal/config/yaml.go). */
module YamlPaths {
  import opened Basics
  import opened ConfigSchema
  import opened YamlTree
  import opened YamlLaws

  type Path = p: seq<string> | p != [] witness [""]

  /** The value at a path of nested mappings. */
  function Lookup(c: seq<Tree>, path: Path): Option<Tree>
    decreases |path|
  {
    var v := Get(c, path[0]);
    if |path| == 1 || v.None? then v
    else if v.value.kind.Mapping? then Lookup(v.value.content, path[1..])
    else None
  }

  /** The position of the field of that name, or |schema|. */
  function Position(schema: seq<Field>, name: string): (i: nat)
    ensures i <= |schema| && (i < |schema| ==> schema[i].name == name)
    ensures i == |schema| <==> !Listed(schema, name)
  {
    if schema == [] then 0
    else if schema[0].name == name then 0
    else
      var i := Position(schema[1..], name);
      assert Listed(schema, name) <==> Listed(schema[1..], name) by {
        assert forall j | 0 <= j < |schema[1..]| :: schema[1..][j] == schema[j + 1];
        if Listed(schema, name) {
          var j :| 0 <= j < |schema| && schema[j].name == name;
          assert schema[1..][j - 1].name == name;
        }
      }
      1 + i
  }

  /** The path goes on below a section of the schema. */
  predicate Descends(schema: seq<Field>, path: Path) {
    var i := Position(schema, path[0]);
    i < |schema| && schema[i].children != [] && |path| > 1
  }

  function Below(schema: seq<Field>, path: Path): (children: seq<Field>)
    requires Descends(schema, path)
  {
    schema[Position(schema, path[0])].children
  }

  /** The path meets a field without children: its whole value belongs to it. */
  predicate Owns(schema: seq<Field>, path: Path)
    decreases |path|
  {
    if Descends(schema, path) then Owns(Below(schema, path), path[1..])
    else Listed(schema, path[0]) && schema[Position(schema, path[0])].children == []
  }

  /** The path leaves the schema. */
  predicate Leaves(schema: seq<Field>, path: Path)
    decreases |path|
  {
    if Descends(schema, path) then Leaves(Below(schema, path), path[1..]) else !Listed(schema, path[0])
  }

  /** No level of the path lists its name twice. */
  predicate SoleAlong(schema: seq<Field>, path: Path)
    decreases |path|
  {
    (Listed(schema, path[0]) ==> Sole(schema, Position(schema, path[0])))
    && (Descends(schema, path) ==> SoleAlong(Below(schema, path), path[1..]))
  }

  /** A section of the schema on the way is missing, or is not a mapping. */
  predicate Cut(c: seq<Tree>, schema: seq<Field>, path: Path)
    decreases |path|
  {
    Descends(schema, path) &&
    var v := Get(c, path[0]);
    v.None? || !v.value.kind.Mapping? || Cut(v.value.content, Below(schema, path), path[1..])
  }

  lemma {:induction false} UniqueIsSole(schema: seq<Field>, path: Path)
    requires UniqueNames(schema)
    ensures SoleAlong(schema, path)
    decreases |path|
  {
    if Descends(schema, path) {
      UniqueIsSole(Below(schema, path), path[1..]);
    }
  }

  // ---- Reading -----------------------------------------------------------

  lemma {:induction false} ReadOwned(dst: seq<Tree>, src: seq<Tree>, schema: seq<Field>, path: Path)
    requires Paired(dst) && AllWellFormed(dst) && SoleAlong(schema, path) && Lookup(src, path).Some?
    requires Owns(schema, path) || Cut(dst, schema, path)
    ensures Lookup(Overlay(dst, src, schema), path) == Lookup(src, path)
    decreases |path|
  {
    hide Get, Overlay, Paired, AllWellFormed, Sole;
    var name, i := path[0], Position(schema, path[0]);
    var d := Get(dst, name);
    OverlayAt(dst, src, schema, i);
    if d.Some? { GetWellFormed(dst, name); }
    if Descends(schema, path) && d.Some? && d.value.kind.Mapping? {
      ReadOwned(d.value.content, Get(src, name).value.content, schema[i].children, path[1..]);
    }
  }

  lemma {:induction false} ReadUnlisted(dst: seq<Tree>, src: seq<Tree>, schema: seq<Field>, path: Path)
    requires Paired(dst) && AllWellFormed(dst) && SoleAlong(schema, path) && Lookup(src, path).Some?
    requires Leaves(schema, path) && !Cut(dst, schema, path)
    ensures Lookup(Overlay(dst, src, schema), path) == Lookup(dst, path)
    decreases |path|
  {
    hide Get, Overlay, Paired, AllWellFormed, Sole;
    var name, i := path[0], Position(schema, path[0]);
    if Descends(schema, path) {
      var d := Get(dst, name);
      OverlayAt(dst, src, schema, i);
      GetWellFormed(dst, name);
      ReadUnlisted(d.value.content, Get(src, name).value.content, schema[i].children, path[1..]);
    } else {
      OverlayElsewhere(dst, src, schema, name);
    }
  }

  /** A value that differs from the default is read exactly when its path is
      listed, or the defaults lack the section it stands in. */
  lemma ReadIff(defaults: seq<Tree>, doc: seq<Tree>, schema: seq<Field>, path: Path)
    requires Paired(defaults) && AllWellFormed(defaults) && SoleAlong(schema, path)
    requires Owns(schema, path) || Leaves(schema, path)
    requires Lookup(doc, path).Some? && Lookup(doc, path) != Lookup(defaults, path)
    ensures Lookup(Overlay(defaults, doc, schema), path) == Lookup(doc, path) <==>
            Owns(schema, path) || Cut(defaults, schema, path)
  {
    hide Lookup, Overlay, Paired, AllWellFormed, SoleAlong, Owns, Leaves, Cut;
    if Owns(schema, path) || Cut(defaults, schema, path) {
      ReadOwned(defaults, doc, schema, path);
    } else {
      ReadUnlisted(defaults, doc, schema, path);
    }
  }

  // ---- Writing -----------------------------------------------------------

  /** Equal up to style and comments. */
  predicate SameValue(a: Option<Tree>, b: Option<Tree>) {
    if a.None? || b.None? then a.None? && b.None? else SameData(a.value, b.value)
  }

  lemma {:induction false} WrittenOwned(dst: seq<Tree>, src: seq<Tree>, schema: seq<Field>, path: Path)
    requires Paired(dst) && AllWellFormed(dst) && SoleAlong(schema, path) && Lookup(src, path).Some?
    requires Owns(schema, path) || Cut(dst, schema, path)
    ensures SameValue(Lookup(Merge(dst, src, schema), path), Lookup(src, path))
    decreases |path|
  {
    hide Get, Merge, Paired, AllWellFormed, Sole;
    var name, i := path[0], Position(schema, path[0]);
    var d := Get(dst, name);
    MergeAt(dst, src, schema, i);
    if d.Some? { GetWellFormed(dst, name); }
    if Descends(schema, path) && d.Some? && d.value.kind.Mapping? {
      WrittenOwned(d.value.content, Get(src, name).value.content, schema[i].children, path[1..]);
    }
  }

  lemma {:induction false} WrittenUnlisted(dst: seq<Tree>, src: seq<Tree>, schema: seq<Field>, path: Path)
    requires Paired(dst) && AllWellFormed(dst) && SoleAlong(schema, path) && Lookup(src, path).Some?
    requires Leaves(schema, path) && !Cut(dst, schema, path)
    ensures Lookup(Merge(dst, src, schema), path) == Lookup(dst, path)
    decreases |path|
  {
    hide Get, Merge, Paired, AllWellFormed, Sole;
    var name, i := path[0], Position(schema, path[0]);
    if Descends(schema, path) {
      var d := Get(dst, name);
      MergeAt(dst, src, schema, i);
      GetWellFormed(dst, name);
      WrittenUnlisted(d.value.content, Get(src, name).value.content, schema[i].children, path[1..]);
    } else {
      MergeElsewhere(dst, src, schema, name);
    }
  }

  /** A changed value is written back exactly when its path is listed, or the
      document lacks the section it stands in. */
  lemma WrittenIff(doc: seq<Tree>, known: seq<Tree>, schema: seq<Field>, path: Path)
    requires Paired(doc) && AllWellFormed(doc) && SoleAlong(schema, path)
    requires Owns(schema, path) || Leaves(schema, path)
    requires Lookup(known, path).Some? && !SameValue(Lookup(doc, path), Lookup(known, path))
    ensures SameValue(Lookup(Merge(doc, known, schema), path), Lookup(known, path)) <==>
            Owns(schema, path) || Cut(doc, schema, path)
  {
    hide Lookup, Merge, Paired, AllWellFormed, SoleAlong, Owns, Leaves, Cut;
    if Owns(schema, path) || Cut(doc, schema, path) {
      WrittenOwned(doc, known, schema, path);
    } else {
      WrittenUnlisted(doc, known, schema, path);
    }
  }

  // ---- The configuration schema ------------------------------------------

  /** One step down into section i. */
  lemma StepDown(schema: seq<Field>, i: nat, path: Path)
    requires i < |schema| && UniqueNames(schema) && schema[i].name == path[0] && schema[i].children != [] && |path| > 1
    ensures Leaves(schema, path) <==> Leaves(schema[i].children, path[1..])
  {
    hide Leaves;
    assert Position(schema, path[0]) == i;
    LeavesBelow(schema, path);
  }

  lemma LeavesBelow(schema: seq<Field>, path: Path)
    requires Descends(schema, path)
    ensures Leaves(schema, path) <==> Leaves(Below(schema, path), path[1..])
  {
  }

  lemma LeavesHere(schema: seq<Field>, path: Path)
    requires !Listed(schema, path[0])
    ensures Leaves(schema, path)
  {
  }

  const SNAPSHOT_BUDGET: Path := ["orchestration", "workstreams", "snapshot_budget_tokens"]
  const RETENTION: Path := ["orchestration", "result_handles", "retention"]

  /** The two typed fields that the schema does not list, and what lies below. */
  predicate Stuck(path: Path) {
    SNAPSHOT_BUDGET <= path || RETENTION <= path
  }

  lemma NotListed()
    ensures !Listed(WORKSTREAMS, "snapshot_budget_tokens") && !Listed(RESULT_HANDLES, "retention")
  {
  }

  lemma InOrchestration(a: seq<Field>, b: seq<Field>, c: seq<Field>, d: seq<Field>)
    ensures var s := [Field("workstreams", a), Field("result_handles", b), Field("knowledge", c),
            Field("result_analysis", d)];
            |s| == 4 && s[0] == Field("workstreams", a) && s[1] == Field("result_handles", b)
  {
  }

  lemma InConfig()
    ensures |CONFIG| == 10 && CONFIG[9] == Field("orchestration", ORCHESTRATION)
  {
    hide Top, STATE, CONTEXT, RUNTIME, SLACK, SANDBOX, CANVASES, EXPORTS, EXTERNAL_AGENT, CODE_INTELLIGENCE,
      ORCHESTRATION;
    LastSection(STATE, CONTEXT, RUNTIME, SLACK, SANDBOX, CANVASES, EXPORTS, EXTERNAL_AGENT, CODE_INTELLIGENCE,
                ORCHESTRATION);
  }

  lemma InSections()
    ensures |ORCHESTRATION| == 4 && ORCHESTRATION[0] == Field("workstreams", WORKSTREAMS)
    ensures ORCHESTRATION[1] == Field("result_handles", RESULT_HANDLES)
  {
    hide WORKSTREAMS, RESULT_HANDLES, KNOWLEDGE, RESULT_ANALYSIS;
    InOrchestration(WORKSTREAMS, RESULT_HANDLES, KNOWLEDGE, RESULT_ANALYSIS);
  }

  lemma NotEmpty()
    ensures WORKSTREAMS != [] && RESULT_HANDLES != [] && ORCHESTRATION != []
  {
  }

  /** Both lie under listed sections, and leave the schema there. */
  lemma StuckPath(path: Path)
    requires Stuck(path)
    ensures Leaves(CONFIG, path) && SoleAlong(CONFIG, path)
  {
    hide *;
    ConfigUnique();
    UniqueIsSole(CONFIG, path);
    StuckNames(path);
    OrchestrationUnique();
    InConfig();
    InSections();
    NotEmpty();
    NotListed();
    StepDown(CONFIG, 9, path);
    StepDown(ORCHESTRATION, if path[1] == "workstreams" then 0 else 1, path[1..]);
    LeavesHere(if path[1] == "workstreams" then WORKSTREAMS else RESULT_HANDLES, path[1..][1..]);
  }

  lemma StuckNames(path: Path)
    requires Stuck(path)
    ensures |path| > 2 && path[0] == "orchestration"
    ensures (path[1] == "workstreams" && path[2] == "snapshot_budget_tokens")
            || (path[1] == "result_handles" && path[2] == "retention")
  {
  }

  /** What a document says at a stuck path is not read, and a changed value there
      is not written into a document that has the section. */
  lemma StuckFields(defaults: seq<Tree>, doc: seq<Tree>, known: seq<Tree>, path: Path)
    requires Stuck(path) && Paired(defaults) && AllWellFormed(defaults) && !Cut(defaults, CONFIG, path)
    requires Paired(doc) && AllWellFormed(doc) && Lookup(known, path).Some?
    ensures Lookup(doc, path).Some? ==> Lookup(Overlay(defaults, doc, CONFIG), path) == Lookup(defaults, path)
    ensures !Cut(doc, CONFIG, path) ==> Lookup(Merge(doc, known, CONFIG), path) == Lookup(doc, path)
    ensures Cut(doc, CONFIG, path) ==> SameValue(Lookup(Merge(doc, known, CONFIG), path), Lookup(known, path))
  {
    hide Lookup, Overlay, Merge, Paired, AllWellFormed, SoleAlong, Leaves, Owns, Cut, SameValue;
    StuckPath(path);
    if Lookup(doc, path).Some? { ReadUnlisted(defaults, doc, CONFIG, path); }
    if Cut(doc, CONFIG, path) {
      WrittenOwned(doc, known, CONFIG, path);
    } else {
      WrittenUnlisted(doc, known, CONFIG, path);
    }
  }
}

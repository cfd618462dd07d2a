/** From files to agents: loading, validating and building one workflow
    (internal/agentdef/workflow_loader.go, internal/app/workflow_tools.go). */
module WorkflowPrepare {
  import opened Basics
  import opened Text
  import opened Workflow
  import opened WorkflowLoader
  import opened WorkflowTree
  import opened WorkflowBuild
  import WorkflowAgents

  /** Decoding allows sub_agents on sequential and loop agents only. */
  ghost predicate DecodesByClass(files: Files) {
    forall c | files.decoded(c).Some? && files.decoded(c).value.class_.LlmAgent? :: files.decoded(c).value.refs == []
  }

  /** A file tree that fits, and what loading leaves of it. */
  lemma LoadedTree(files: Files, path: string)
    requires Fits(files, path, 1, {})
    ensures var t := Unfold(files, path, 1);
            Shaped(files, t) && Distinct(Paths(t)) && |Paths(t)| <= MAX_NODES
            && Hangs(Loaded(files, t), Resolved(files, t), t) && Loaded(files, t).Keys == Elements(Paths(t))
  {
    hide Unfolds, Unfold, Paths, Loaded, Resolved, Hangs, Shaped;
    var t := Unfold(files, path, 1);
    UnfoldShaped(files, path, 1);
    LoadedHangs(files, Loaded(files, t), t);
    LoadedKeys(files, t);
  }

  /** What LoadWorkflow demands beyond the shape of the tree. */
  ghost predicate Sound(files: Files, path: string, providers: Providers)
    requires Fits(files, path, 1, {})
  {
    LoadedTree(files, path);
    var t := Unfold(files, path, 1);
    var documents, root := Loaded(files, t), Resolved(files, t);
    && UniqueNames(Preorder(documents, root, t)) && !IsBlank(root.description)
    && FlagsValid(providers, Flags(documents, root, t, false))
  }

  predicate Letter(c: char) {
    'a' <= c <= 'z' || 'A' <= c <= 'Z' || c == '_'
  }

  /** ^[A-Za-z_][A-Za-z0-9_]*$, the pattern of workflow identifiers. */
  predicate Identifier(s: string) {
    s != "" && Letter(s[0]) && forall i | 0 <= i < |s| :: Letter(s[i]) || '0' <= s[i] <= '9'
  }

  datatype Blueprint = Blueprint(id: string, root: Document, documents: Documents)

  /** LoadWorkflow. */
  method LoadWorkflow(files: Files, id: string, path: string, providers: Providers) returns (r: Option<Blueprint>)
    ensures r.Some? <==> Identifier(id) && Fits(files, path, 1, {}) && Sound(files, path, providers)
    ensures r.Some? ==> var t := Unfold(files, path, 1);
                        r.value == Blueprint(id, Resolved(files, t), Loaded(files, t))
  {
    hide Identifier, Stored, Unfolds, Unfold, Fits, Paths, Loaded, Resolved, Hangs, Preorder, Flags, FlagsValid,
      KeyedValid, UniqueNames, IsBlank;
    if !Identifier(id) { return None; }
    var loader := new Loader();
    NothingOpen(files);
    ghost var before, taken := loader.documents, loader.documents.Keys + loader.active.Keys;
    var loaded := loader.Load(files, path, [], 1);
    NothingTaken(files, path, taken, before, loader.documents, loaded);
    if loaded.Failure? { return None; }
    FitsUnfolds(files, path, 1, {});
    ghost var t := Unfold(files, path, 1);
    LoadedTree(files, path);
    var ordered := OrderedDocuments(loader.documents, loaded.doc, t);
    var unique := NamesAreUnique(ordered);
    if !unique { return None; }
    var valid := ValidateBlueprint(loader.documents, loaded.doc, providers, t);
    FlagsFollowPreorder(loader.documents, loaded.doc, t, false);
    KeyedIsOwn(providers, Flags(loader.documents, loaded.doc, t, false));
    if !valid { return None; }
    return Some(Blueprint(id, loaded.doc, loader.documents));
  }

  lemma NothingOpen(files: Files)
    ensures ActiveIs(map[], []) && IsChain(files, []) && Stored(files, map[])
  {
  }

  lemma NothingTaken(files: Files, path: string, taken: set<string>, before: Documents, documents: Documents,
                     r: LoadResult)
    requires taken == {} && before == map[] && Outcome(files, path, 1, taken, before, documents, r)
    ensures r.Success? <==> Fits(files, path, 1, {})
    ensures r.Success? ==>
              Fits(files, path, 1, {}) && documents == Loaded(files, Unfold(files, path, 1))
                && r.doc == Resolved(files, Unfold(files, path, 1))
  {
    hide Fits, Loaded, Resolved, Unfold;
    assert forall d: Documents :: before + d == d;
  }

  // ---- The order lists every document once -------------------------------

  lemma ListedOnce(files: Files, path: string)
    requires Fits(files, path, 1, {})
    ensures var t := Unfold(files, path, 1);
            Hangs(Loaded(files, t), Resolved(files, t), t)
            && var order := Preorder(Loaded(files, t), Resolved(files, t), t);
            && PathList(order) == Paths(t) && Distinct(PathList(order))
              && Elements(PathList(order)) == Loaded(files, t).Keys
            && forall i | 0 <= i < |order| ::
                order[i].path in Loaded(files, t) && Loaded(files, t)[order[i].path] == order[i]
  {
    hide Unfolds, Unfold, Fits, Paths, Resolved, Hangs, Preorder, Shaped, AllLoaded;
    FitsUnfolds(files, path, 1, {});
    var t := Unfold(files, path, 1);
    LoadedTree(files, path);
    PreorderPaths(Loaded(files, t), Resolved(files, t), t);
    var order := Preorder(Loaded(files, t), Resolved(files, t), t);
    ResolvedPath(files, t);
    forall i | 0 <= i < |order|
      ensures order[i].path in Loaded(files, t) && Loaded(files, t)[order[i].path] == order[i]
    {
      PreorderStored(Loaded(files, t), Resolved(files, t), t, i);
    }
  }

  // ---- What validates builds ---------------------------------------------

  lemma TreeLeaves(files: Files, documents: Documents, t: Tree, inLoop: bool)
    requires DecodesByClass(files) && Shaped(files, t) && Hangs(documents, Resolved(files, t), t)
    requires forall p | p in Elements(Paths(t)) && p in documents :: documents[p].class_.LlmAgent? ==>
             documents[p].refs == []
    ensures LeavesAreLeaves(Flags(documents, Resolved(files, t), t, inLoop))
  {
    hide Hangs, Shaped, Flags, Preorder, Resolved, Paths;
    var doc := Resolved(files, t);
    var flags := Flags(documents, doc, t, inLoop);
    FlagsFollowPreorder(documents, doc, t, inLoop);
    PreorderPaths(documents, doc, t);
    RootLeaf(files, t);
    forall i | 0 <= i < |flags| && flags[i].doc.class_.LlmAgent?
      ensures flags[i].doc.refs == []
    {
      PreorderStored(documents, doc, t, i);
      assert Docs(flags)[i] == flags[i].doc;
      assert PathList(Preorder(documents, doc, t))[i] == flags[i].doc.path;
      assert flags[i].doc.path in Paths(t);
    }
  }

  lemma RootLeaf(files: Files, t: Tree)
    requires DecodesByClass(files) && Shaped(files, t)
    ensures Resolved(files, t).class_.LlmAgent? ==> Resolved(files, t).refs == []
  {
  }

  lemma {:induction false} LoadedLeaves(files: Files, t: Tree, p: string)
    requires DecodesByClass(files) && Shaped(files, t) && p in Loaded(files, t)
    ensures Loaded(files, t)[p].class_.LlmAgent? ==> Loaded(files, t)[p].refs == []
    decreases t, 1
  {
    hide AllLoaded, Resolved;
    RootLeaf(files, t);
    if p != t.path {
      AllLoadedLeaves(files, t.children, p);
    }
  }

  lemma {:induction false} AllLoadedLeaves(files: Files, ts: seq<Tree>, p: string)
    requires DecodesByClass(files) && (forall i | 0 <= i < |ts| :: Shaped(files, ts[i])) && p in AllLoaded(files, ts)
    ensures AllLoaded(files, ts)[p].class_.LlmAgent? ==> AllLoaded(files, ts)[p].refs == []
    decreases ts, 0
  {
    hide Loaded, Shaped;
    if p in AllLoaded(files, ts[1..]) {
      AllLoadedLeaves(files, ts[1..], p);
    } else {
      LoadedLeaves(files, ts[0], p);
    }
  }

  /** A valid step names a model that resolves. */
  lemma ValidModels(providers: Providers, flags: seq<Flagged>, i: nat)
    requires FlagsValid(providers, flags) && i < |flags|
    requires flags[i].doc.class_.LlmAgent? && flags[i].doc.llm.Some?
    ensures ResolveModel(providers, flags[i].doc.llm.value.model).Some?
  {
    hide ResolveModel, IsBlank;
    assert NodeValid(providers, flags[i].doc, flags[i].inLoop);
  }

  /** Whatever LoadWorkflow accepts prepares its models, and then builds: always
      when only checking, and at run time exactly when every tool an in-process
      step names is registered. */
  method PrepareWorkflow(files: Files, path: string, providers: Providers, validateOnly: bool, tools: set<string>,
                         blueprint: Blueprint)
    returns (agent: Option<Agent>)
    requires DecodesByClass(files) && Fits(files, path, 1, {}) && Sound(files, path, providers)
    requires blueprint.root == Resolved(files, Unfold(files, path, 1))
    requires blueprint.documents == Loaded(files, Unfold(files, path, 1))
    ensures var t := Unfold(files, path, 1);
            Hangs(Loaded(files, t), Resolved(files, t), t)
            && var order := Preorder(Loaded(files, t), Resolved(files, t), t);
            agent.Some? <==> validateOnly || forall d | d in order ::
              ToolsRegistered(Scope(validateOnly, tools, map[]), d)
    ensures agent.Some? ==>
              WorkflowAgents.BuiltAsLoaded(blueprint.documents, blueprint.root, agent.value, validateOnly)
  {
    hide WorkflowAgents.BuiltAsLoaded;
    hide Unfolds, Unfold, Fits, Paths, Loaded, Resolved, Hangs, Preorder, Flags, FlagsValid, UniqueNames, IsBlank,
      BuildNode, ResolveModel, Prepared, ToolsRegistered;
    FitsUnfolds(files, path, 1, {});
    ghost var t := Unfold(files, path, 1);
    LoadedTree(files, path);
    var ordered := OrderedDocuments(blueprint.documents, blueprint.root, t);
    ModelsResolve(files, path, providers, ordered);
    var models := PrepareModels(ordered, providers);
    var scope := Scope(validateOnly, tools, models.value);
    SoundBuilds(files, path, providers, scope);
    agent := BuildWorkflowNode(blueprint.documents, blueprint.root, scope, false, t);
    if agent.Some? { WorkflowAgents.AllBuilt(blueprint.documents, blueprint.root, t, scope); }
    forall d | d in ordered
      ensures ToolsRegistered(Scope(validateOnly, tools, map[]), d) == ToolsRegistered(scope, d)
    {
      SameTools(Scope(validateOnly, tools, map[]), scope, d);
    }
  }

  lemma SameTools(a: Scope, b: Scope, d: Document)
    requires a.tools == b.tools
    ensures ToolsRegistered(a, d) == ToolsRegistered(b, d)
  {
  }

  lemma ModelsResolve(files: Files, path: string, providers: Providers, ordered: seq<Document>)
    requires Fits(files, path, 1, {}) && Sound(files, path, providers)
    requires var t := Unfold(files, path, 1);
             Hangs(Loaded(files, t), Resolved(files, t), t)
               && ordered == Preorder(Loaded(files, t), Resolved(files, t), t)
    ensures forall i | 0 <= i < |ordered| && ordered[i].class_.LlmAgent? && ordered[i].llm.Some? ::
              ResolveModel(providers, ordered[i].llm.value.model).Some?
  {
    hide Unfold, Fits, Paths, Loaded, Resolved, Hangs, Preorder, Flags, FlagsValid, UniqueNames, IsBlank, ResolveModel;
    FitsUnfolds(files, path, 1, {});
    var t := Unfold(files, path, 1);
    var flags := Flags(Loaded(files, t), Resolved(files, t), t, false);
    FlagsFollowPreorder(Loaded(files, t), Resolved(files, t), t, false);
    forall i | 0 <= i < |ordered| && ordered[i].class_.LlmAgent? && ordered[i].llm.Some?
      ensures ResolveModel(providers, ordered[i].llm.value.model).Some?
    {
      assert Docs(flags)[i] == flags[i].doc;
      ValidModels(providers, flags, i);
    }
  }

  /** A workflow that loads and validates builds in validate-only mode, given its
      prepared models; at run time it builds iff its tools are registered. */
  lemma SoundBuilds(files: Files, path: string, providers: Providers, scope: Scope)
    requires DecodesByClass(files) && Fits(files, path, 1, {}) && Sound(files, path, providers)
    requires var t := Unfold(files, path, 1);
             Hangs(Loaded(files, t), Resolved(files, t), t)
             && Prepared(scope.models, providers, Preorder(Loaded(files, t), Resolved(files, t), t))
    ensures var t := Unfold(files, path, 1);
            BuildNode(Loaded(files, t), Resolved(files, t), t, scope, false).Some? <==>
            scope.validateOnly || forall d | d in Preorder(Loaded(files, t), Resolved(files, t), t) ::
              ToolsRegistered(scope, d)
  {
    hide Unfold, Unfolds, Fits, Paths, Loaded, Resolved, Hangs, Shaped, Preorder, Flags, FlagsValid, UniqueNames,
      IsBlank, BuildNode, Prepared, ToolsRegistered, LeavesAreLeaves, DecodesByClass;
    FitsUnfolds(files, path, 1, {});
    var t := Unfold(files, path, 1);
    var documents, root := Loaded(files, t), Resolved(files, t);
    LoadedTree(files, path);
    FlagsFollowPreorder(documents, root, t, false);
    forall p | p in Elements(Paths(t)) && p in documents
      ensures documents[p].class_.LlmAgent? ==> documents[p].refs == []
    {
      LoadedLeaves(files, t, p);
    }
    TreeLeaves(files, documents, t, false);
    ValidatedBuildsIff(providers, documents, root, t, scope, false);
    RegisteredDocs(scope, Flags(documents, root, t, false));
  }

  lemma RegisteredDocs(scope: Scope, flags: seq<Flagged>)
    ensures FlagsRegistered(scope, flags) <==> forall d | d in Docs(flags) :: ToolsRegistered(scope, d)
  {
    hide ToolsRegistered;
    if forall d | d in Docs(flags) :: ToolsRegistered(scope, d) {
      forall i | 0 <= i < |flags|
        ensures ToolsRegistered(scope, flags[i].doc)
      {
        assert Docs(flags)[i] == flags[i].doc;
      }
    }
  }
}

/** Validating a loaded workflow and building its agents
    (internal/agentdef/workflow_loader.go, internal/app/workflow_tools.go). */
module WorkflowBuild {
  import opened Basics
  import opened Text
  import opened Workflow
  import opened WorkflowTree

  const EXIT_LOOP := "exit_loop"
  const TARGET_PROJECT := "{target_project}"
  const WORKTREE_ROOT := "{worktree_root}"
  const GIT_DELIVERY := "git_delivery_result"
  const MAX_ITERATIONS := 100

  datatype Provider = Provider(isAgentCli: bool, profiles: set<string>)

  type Providers = map<string, Provider>

  // ---- Model references --------------------------------------------------

  /** splitModelReference. */
  function SplitModel(ref: string): Option<(string, string)> {
    var slash := FirstIndex(ref, '/');
    if slash == |ref| || '/' in ref[slash + 1..] || IsBlank(ref[..slash]) || IsBlank(ref[slash + 1..]) then None
    else Some((ref[..slash], ref[slash + 1..]))
  }

  /** ResolveModel: whether the resolved provider is an agent CLI. */
  function ResolveModel(providers: Providers, ref: string): Option<bool> {
    var parts := SplitModel(ref);
    if parts.None? || parts.value.0 !in providers || parts.value.1 !in providers[parts.value.0].profiles then None
    else Some(providers[parts.value.0].isAgentCli)
  }

  // ---- Validation --------------------------------------------------------

  /** ^[a-z][a-z0-9_-]{2,63}$, the pattern of tools that are agents. */
  predicate AgentName(s: string) {
    3 <= |s| <= 64 && 'a' <= s[0] <= 'z'
    && forall i | 0 < i < |s| :: 'a' <= s[i] <= 'z' || '0' <= s[i] <= '9' || s[i] == '_' || s[i] == '-'
  }

  predicate ReadOnlyTool(name: string) {
    name == "list_messages" || name == "list_repos" || name == "list_directory" || name == "read_file"
      || name == "list_worktrees"
  }

  /** validateWorkflowTool. */
  predicate ToolValid(tool: Tool, inLoop: bool) {
    !IsBlank(tool.name) && !tool.hasArgs
    && if tool.name == EXIT_LOOP then inLoop else ReadOnlyTool(tool.name) || AgentName(tool.name)
  }

  /** validateWorkflowExternalStep reports nothing. */
  predicate ExternalStepValid(llm: Llm) {
    if IsBlank(llm.project) then llm.directories == [] && llm.outputSchema == ""
    else
      && llm.project == TARGET_PROJECT
      && (forall i | 0 <= i < |llm.directories| :: llm.directories[i] == WORKTREE_ROOT)
      && (llm.outputSchema == "" || llm.outputSchema == GIT_DELIVERY)
      && (llm.outputSchema != "" ==> !IsBlank(llm.outputKey))
  }

  /** forbidWorkflowExternalStepFields reports nothing. */
  predicate NoExternalFields(llm: Llm) {
    IsBlank(llm.project) && llm.directories == [] && IsBlank(llm.outputSchema)
  }

  predicate LlmValid(providers: Providers, llm: Llm, inLoop: bool) {
    && !IsBlank(llm.model) && ResolveModel(providers, llm.model).Some?
    && (if ResolveModel(providers, llm.model).value then
          llm.includeContents == "none" && llm.tools == [] && ExternalStepValid(llm)
        else NoExternalFields(llm))
    && !IsBlank(llm.instruction)
    && (llm.includeContents == "" || llm.includeContents == "default" || llm.includeContents == "none")
    && (forall i, j | 0 <= i < j < |llm.tools| :: llm.tools[i].name != llm.tools[j].name)
    && (forall i | 0 <= i < |llm.tools| :: ToolValid(llm.tools[i], inLoop))
  }

  /** validateWorkflowNode reports nothing. */
  predicate NodeValid(providers: Providers, doc: Document, inLoop: bool) {
    match doc.class_
    case LlmAgent => doc.llm.Some? && LlmValid(providers, doc.llm.value, inLoop)
    case SequentialAgent => doc.refs != []
    case LoopAgent => doc.refs != [] && doc.maxIterations.Some? && 1 <= doc.maxIterations.value <= MAX_ITERATIONS
    case OtherClass(_) => false
  }

  predicate FlagsValid(providers: Providers, flags: seq<Flagged>) {
    forall i | 0 <= i < |flags| :: NodeValid(providers, flags[i].doc, flags[i].inLoop)
  }

  /** The LoadWorkflow check over the ordered documents: names are distinct. */
  method NamesAreUnique(docs: seq<Document>) returns (unique: bool)
    ensures unique == UniqueNames(docs)
  {
    var seen: set<string> := {};
    for i := 0 to |docs|
      invariant UniqueNames(docs[..i])
      invariant seen == set k | 0 <= k < i :: docs[k].name
    {
      if docs[i].name in seen { return false; }
      seen := seen + {docs[i].name};
    }
    assert docs[..|docs|] == docs;
    return true;
  }

  /** The loop flag validation looks up: by name, the last one recorded. */
  predicate KeyedFlag(flags: seq<Flagged>, name: string) {
    name in Record(map[], flags) && Record(map[], flags)[name]
  }

  predicate KeyedValid(providers: Providers, flags: seq<Flagged>) {
    forall i | 0 <= i < |flags| :: NodeValid(providers, flags[i].doc, KeyedFlag(flags, flags[i].doc.name))
  }

  /** validateWorkflowBlueprint, with names that may repeat. */
  method ValidateBlueprint(documents: Documents, root: Document, providers: Providers, ghost t: Tree) returns (ok: bool)
    requires Hangs(documents, root, t)
    ensures ok <==> !IsBlank(root.description) && KeyedValid(providers, Flags(documents, root, t, false))
  {
    hide NodeValid, IsBlank, Flags, Preorder, Record;
    ok := !IsBlank(root.description);
    var loops := WalkLoops(documents, root, false, map[], t);
    var ordered := OrderedDocuments(documents, root, t);
    ghost var flags := Flags(documents, root, t, false);
    FlagsFollowPreorder(documents, root, t, false);
    for i := 0 to |ordered|
      invariant ok <==> !IsBlank(root.description)
                        && forall k | 0 <= k < i ::
                          NodeValid(providers, flags[k].doc, KeyedFlag(flags, flags[k].doc.name))
    {
      assert ordered[i] == Docs(flags)[i] == flags[i].doc;
      var inLoop := ordered[i].name in loops && loops[ordered[i].name];
      ok := ok && NodeValid(providers, ordered[i], inLoop);
    }
  }

  /** With unique names every node is validated under its own loop flag. */
  lemma KeyedIsOwn(providers: Providers, flags: seq<Flagged>)
    requires UniqueNames(Docs(flags))
    ensures KeyedValid(providers, flags) <==> FlagsValid(providers, flags)
  {
    hide NodeValid, Record, UniqueNames;
    forall i | 0 <= i < |flags|
      ensures KeyedFlag(flags, flags[i].doc.name) == flags[i].inLoop
    {
      RecordIsFlag(map[], flags, i);
    }
  }

  // ---- Preparing models --------------------------------------------------

  /** Prepared models by reference, with whether each is an agent CLI. */
  type Models = map<string, bool>

  predicate Prepared(models: Models, providers: Providers, docs: seq<Document>) {
    && (forall i | 0 <= i < |docs| && docs[i].class_.LlmAgent? && docs[i].llm.Some? ::
      docs[i].llm.value.model in models)
    && (forall ref | ref in models :: ResolveModel(providers, ref) == Some(models[ref]))
  }

  /** The model loop of prepareRootWorkflowTools; constructing and contacting a
      resolved model is taken to succeed. */
  method PrepareModels(docs: seq<Document>, providers: Providers) returns (models: Option<Models>)
    ensures models.Some? <==> forall i | 0 <= i < |docs| && docs[i].class_.LlmAgent? && docs[i].llm.Some? ::
                                ResolveModel(providers, docs[i].llm.value.model).Some?
    ensures models.Some? ==> Prepared(models.value, providers, docs)
  {
    hide ResolveModel;
    var built: Models := map[];
    for i := 0 to |docs|
      invariant Prepared(built, providers, docs[..i])
    {
      assert docs[..i + 1][..i] == docs[..i];
      if !docs[i].class_.LlmAgent? || docs[i].llm.None? { continue; }
      var ref := docs[i].llm.value.model;
      if ref in built { continue; }
      var resolved := ResolveModel(providers, ref);
      if resolved.None? { return None; }
      built := built[ref := resolved.value];
    }
    assert docs[..|docs|] == docs;
    return Some(built);
  }

  // ---- Building ----------------------------------------------------------

  /** One invocation; tools are the registered application tools. */
  datatype Scope = Scope(validateOnly: bool, tools: set<string>, models: Models)

  /** Of a step: its model, instruction and output key; whether it starts without
      the conversation, or ends in a canonical delivery result. */
  datatype Agent =
    | Chat(name: string, description: string, model: string, instruction: string, outputKey: string,
           alone: bool, tools: seq<string>)
    | Cli(name: string, description: string, model: string, instruction: string, outputKey: string, delivery: bool)
    | Sequence(name: string, description: string, children: seq<Agent>)
    | Loop(name: string, description: string, children: seq<Agent>, maxIterations: int)

  /** resolveWorkflowNodeTools. */
  method ResolveTools(tools: seq<Tool>, scope: Scope, inLoop: bool) returns (result: Option<seq<string>>)
    ensures result == ToolList(tools, scope, inLoop)
  {
    var names: seq<string> := [];
    assert tools[0..] == tools;
    PrependNone(names, ToolList(tools, scope, inLoop));
    for i := 0 to |tools|
      invariant ToolList(tools, scope, inLoop) == Prepend(names, ToolList(tools[i..], scope, inLoop))
    {
      assert tools[i..][1..] == tools[i + 1..];
      var name := tools[i].name;
      if name == EXIT_LOOP {
        if !inLoop { return None; }
      } else if scope.validateOnly {
        continue;
      } else if name !in scope.tools {
        return None;
      }
      PrependTwice(names, [name], ToolList(tools[i + 1..], scope, inLoop));
      names := names + [name];
    }
    assert tools[|tools|..] == [];
    PrependNone(names, None);
    return Some(names);
  }

  function ToolList(tools: seq<Tool>, scope: Scope, inLoop: bool): Option<seq<string>> {
    if tools == [] then Some([])
    else
      var name := tools[0].name;
      if name == EXIT_LOOP then if inLoop then Prepend([name], ToolList(tools[1..], scope, inLoop)) else None
      else if scope.validateOnly then ToolList(tools[1..], scope, inLoop)
      else if name in scope.tools then Prepend([name], ToolList(tools[1..], scope, inLoop))
      else None
  }

  /** buildLLMNode, with the checks of buildAgentCLINode. */
  function BuildLlm(doc: Document, scope: Scope, inLoop: bool): Option<Agent> {
    if doc.llm.None? || doc.llm.value.model !in scope.models then None
    else
      var llm := doc.llm.value;
      if !IsBlank(llm.project) then
        if !scope.models[llm.model] || llm.project != TARGET_PROJECT
           || (exists i | 0 <= i < |llm.directories| :: llm.directories[i] != WORKTREE_ROOT) then None
        else Some(Cli(doc.name, doc.description, llm.model, llm.instruction, llm.outputKey,
                      llm.outputSchema == GIT_DELIVERY))
      else
        var tools := ToolList(llm.tools, scope, inLoop);
        if tools.None? then None
        else Some(Chat(doc.name, doc.description, llm.model, llm.instruction, llm.outputKey,
                       llm.includeContents == "none", tools.value))
  }

  /** The agent of one tree node. */
  function BuildNode(documents: Documents, doc: Document, t: Tree, scope: Scope, inLoop: bool): Option<Agent>
    requires Hangs(documents, doc, t)
    decreases t, 1
  {
    match doc.class_
    case LlmAgent => BuildLlm(doc, scope, inLoop)
    case SequentialAgent =>
      var children := BuildAll(documents, doc.refs, t.children, scope, inLoop);
      if children.None? then None else Some(Sequence(doc.name, doc.description, children.value))
    case LoopAgent =>
      if doc.maxIterations.None? then None
      else
        var children := BuildAll(documents, doc.refs, t.children, scope, true);
        if children.None? then None
        else Some(Loop(doc.name, doc.description, children.value, doc.maxIterations.value))
    case OtherClass(_) => None
  }

  function BuildAll(documents: Documents, refs: seq<Ref>, ts: seq<Tree>, scope: Scope, inLoop: bool): Option<seq<Agent>>
    requires AllHang(documents, refs, ts)
    decreases ts, 0
  {
    if ts == [] then Some([])
    else
      var first := BuildNode(documents, documents[refs[0].path], ts[0], scope, inLoop);
      if first.None? then None
      else Prepend([first.value], BuildAll(documents, refs[1..], ts[1..], scope, inLoop))
  }

  /** buildWorkflowNode: recursion without a guard, over the loaded tree. */
  method BuildWorkflowNode(documents: Documents, doc: Document, scope: Scope, inLoop: bool, ghost t: Tree)
    returns (agent: Option<Agent>)
    requires Hangs(documents, doc, t)
    ensures agent == BuildNode(documents, doc, t, scope, inLoop)
    decreases t, 1
  {
    hide BuildAll;
    match doc.class_ {
      case LlmAgent =>
        agent := BuildLlmNode(doc, scope, inLoop);
      case SequentialAgent =>
        var children := BuildChildren(documents, doc, scope, inLoop, t);
        agent := if children.None? then None else Some(Sequence(doc.name, doc.description, children.value));
      case LoopAgent =>
        if doc.maxIterations.None? { return None; }
        var children := BuildChildren(documents, doc, scope, true, t);
        agent := if children.None? then None
                 else Some(Loop(doc.name, doc.description, children.value, doc.maxIterations.value));
      case OtherClass(_) =>
        agent := None;
    }
  }

  method BuildLlmNode(doc: Document, scope: Scope, inLoop: bool) returns (agent: Option<Agent>)
    ensures agent == BuildLlm(doc, scope, inLoop)
  {
    hide IsBlank, ToolList;
    if doc.llm.None? || doc.llm.value.model !in scope.models { return None; }
    var llm := doc.llm.value;
    if !IsBlank(llm.project) {
      if !scope.models[llm.model] || llm.project != TARGET_PROJECT { return None; }
      for i := 0 to |llm.directories|
        invariant forall k | 0 <= k < i :: llm.directories[k] == WORKTREE_ROOT
      {
        if llm.directories[i] != WORKTREE_ROOT { return None; }
      }
      return Some(Cli(doc.name, doc.description, llm.model, llm.instruction, llm.outputKey,
                      llm.outputSchema == GIT_DELIVERY));
    }
    var tools := ResolveTools(llm.tools, scope, inLoop);
    if tools.None? { return None; }
    return Some(Chat(doc.name, doc.description, llm.model, llm.instruction, llm.outputKey,
                     llm.includeContents == "none", tools.value));
  }

  method BuildChildren(documents: Documents, doc: Document, scope: Scope, inLoop: bool, ghost t: Tree)
    returns (children: Option<seq<Agent>>)
    requires Hangs(documents, doc, t)
    ensures children == BuildAll(documents, doc.refs, t.children, scope, inLoop)
    decreases t, 0
  {
    hide BuildNode, BuildAll, Hangs, AllHang, Prepend;
    var built: seq<Agent> := [];
    ghost var all := HangsBelow(documents, doc, t, scope, inLoop);
    for i := 0 to |doc.refs|
      invariant |t.children| == |doc.refs|
      invariant AllHang(documents, doc.refs[i..], t.children[i..])
      invariant all == Prepend(built, BuildAll(documents, doc.refs[i..], t.children[i..], scope, inLoop))
    {
      BuildAllStep(documents, doc.refs, t.children, scope, inLoop, i);
      var child := BuildWorkflowNode(documents, documents[doc.refs[i].path], scope, inLoop, t.children[i]);
      if child.None? { PrependNone(built, None); return None; }
      PrependTwice(built, [child.value], BuildAll(documents, doc.refs[i + 1..], t.children[i + 1..], scope, inLoop));
      built := built + [child.value];
    }
    BuildAllEnd(documents, doc.refs, t.children, scope, inLoop);
    PrependNone(built, None);
    return Some(built);
  }

  lemma HangsBelow(documents: Documents, doc: Document, t: Tree, scope: Scope, inLoop: bool)
    returns (all: Option<seq<Agent>>)
    requires Hangs(documents, doc, t)
    ensures |t.children| == |doc.refs| && AllHang(documents, doc.refs[0..], t.children[0..])
    ensures AllHang(documents, doc.refs, t.children) && all == BuildAll(documents, doc.refs, t.children, scope, inLoop)
    ensures all == Prepend([], BuildAll(documents, doc.refs[0..], t.children[0..], scope, inLoop))
    ensures forall i | 0 <= i < |t.children| :: t.children[i] < t
  {
    hide BuildAll, BuildNode;
    assert doc.refs[0..] == doc.refs && t.children[0..] == t.children;
    all := BuildAll(documents, doc.refs, t.children, scope, inLoop);
    PrependNone([], all);
  }

  lemma BuildAllStep(documents: Documents, refs: seq<Ref>, ts: seq<Tree>, scope: Scope, inLoop: bool, i: nat)
    requires i < |refs| == |ts| && AllHang(documents, refs[i..], ts[i..])
    ensures AllHang(documents, refs[i + 1..], ts[i + 1..])
    ensures refs[i].path in documents && Hangs(documents, documents[refs[i].path], ts[i])
    ensures BuildAll(documents, refs[i..], ts[i..], scope, inLoop) ==
            var first := BuildNode(documents, documents[refs[i].path], ts[i], scope, inLoop);
            if first.None? then None
            else Prepend([first.value], BuildAll(documents, refs[i + 1..], ts[i + 1..], scope, inLoop))
  {
    hide BuildNode, Hangs, Prepend;
    assert refs[i..][1..] == refs[i + 1..] && ts[i..][1..] == ts[i + 1..];
    assert refs[i..][0] == refs[i] && ts[i..][0] == ts[i];
  }

  lemma BuildAllEnd(documents: Documents, refs: seq<Ref>, ts: seq<Tree>, scope: Scope, inLoop: bool)
    requires |refs| == |ts| && AllHang(documents, refs[|refs|..], ts[|refs|..])
    ensures BuildAll(documents, refs[|refs|..], ts[|refs|..], scope, inLoop) == Some([])
  {
  }

  // ---- Validated workflows build -----------------------------------------

  /** At run time every tool of an in-process step, exit_loop aside, must be
      registered. */
  predicate ToolsRegistered(scope: Scope, doc: Document) {
    doc.class_.LlmAgent? && doc.llm.Some? && IsBlank(doc.llm.value.project) ==>
      forall i | 0 <= i < |doc.llm.value.tools| && doc.llm.value.tools[i].name != EXIT_LOOP ::
        doc.llm.value.tools[i].name in scope.tools
  }

  lemma {:induction false} ToolListIff(tools: seq<Tool>, scope: Scope, inLoop: bool)
    ensures ToolList(tools, scope, inLoop).Some? <==>
            forall i | 0 <= i < |tools| ::
              if tools[i].name == EXIT_LOOP then inLoop else scope.validateOnly || tools[i].name in scope.tools
  {
    if tools != [] {
      ToolListIff(tools[1..], scope, inLoop);
      assert forall i | 0 < i < |tools| :: tools[i] == tools[1..][i - 1];
      assert forall i | 0 <= i < |tools[1..]| :: tools[1..][i] == tools[i + 1];
    }
  }

  lemma LlmBuildsIff(providers: Providers, doc: Document, scope: Scope, inLoop: bool)
    requires doc.class_.LlmAgent? && NodeValid(providers, doc, inLoop) && Prepared(scope.models, providers, [doc])
    ensures BuildLlm(doc, scope, inLoop).Some? <==> scope.validateOnly || ToolsRegistered(scope, doc)
  {
    hide ResolveModel, IsBlank, ReadOnlyTool, AgentName;
    var llm := doc.llm.value;
    assert [doc][0] == doc;
    ToolListIff(llm.tools, scope, inLoop);
    assert forall i | 0 <= i < |llm.tools| :: ToolValid(llm.tools[i], inLoop);
  }

  predicate FlagsRegistered(scope: Scope, flags: seq<Flagged>) {
    forall i | 0 <= i < |flags| :: ToolsRegistered(scope, flags[i].doc)
  }

  /** Only the steps the builder reaches count: an agent step has no children. */
  predicate LeavesAreLeaves(flags: seq<Flagged>) {
    forall i | 0 <= i < |flags| && flags[i].doc.class_.LlmAgent? :: flags[i].doc.refs == []
  }

  lemma SplitFlags(providers: Providers, models: Models, a: seq<Flagged>, b: seq<Flagged>)
    requires FlagsValid(providers, a + b) && Prepared(models, providers, Docs(a + b)) && LeavesAreLeaves(a + b)
    ensures FlagsValid(providers, a) && Prepared(models, providers, Docs(a)) && LeavesAreLeaves(a)
    ensures FlagsValid(providers, b) && Prepared(models, providers, Docs(b)) && LeavesAreLeaves(b)
  {
    hide NodeValid, ResolveModel;
    var c := a + b;
    assert forall i | 0 <= i < |a| :: c[i] == a[i] && Docs(c)[i] == Docs(a)[i];
    assert forall i | 0 <= i < |b| :: c[|a| + i] == b[i] && Docs(c)[|a| + i] == Docs(b)[i];
  }

  lemma JoinRegistered(scope: Scope, a: seq<Flagged>, b: seq<Flagged>)
    ensures FlagsRegistered(scope, a + b) <==> FlagsRegistered(scope, a) && FlagsRegistered(scope, b)
  {
    hide ToolsRegistered;
    var c := a + b;
    assert forall i | 0 <= i < |a| :: c[i] == a[i];
    assert forall i | 0 <= i < |b| :: c[|a| + i] == b[i];
  }

  /** A validated subtree builds exactly when it is only being checked, or every
      tool its in-process steps name is registered. */
  lemma {:induction false} ValidatedBuildsIff(providers: Providers, documents: Documents, doc: Document, t: Tree,
                                              scope: Scope, inLoop: bool)
    requires Hangs(documents, doc, t)
    requires var flags := Flags(documents, doc, t, inLoop);
             FlagsValid(providers, flags) && Prepared(scope.models, providers, Docs(flags)) && LeavesAreLeaves(flags)
    ensures BuildNode(documents, doc, t, scope, inLoop).Some? <==>
            scope.validateOnly || FlagsRegistered(scope, Flags(documents, doc, t, inLoop))
    decreases t, 1
  {
    hide NodeValid, BuildLlm, ToolsRegistered, AllFlags, BuildAll, Prepared, FlagsRegistered, FlagsValid,
      LeavesAreLeaves;
    var here := inLoop || doc.class_.LoopAgent?;
    var head, rest := [Flagged(doc, here)], AllFlags(documents, doc.refs, t.children, here);
    assert Flags(documents, doc, t, inLoop) == head + rest;
    SplitFlags(providers, scope.models, head, rest);
    JoinRegistered(scope, head, rest);
    HeadFacts(providers, scope, doc, here);
    AllValidatedBuildIff(providers, documents, doc.refs, t.children, scope, here);
    if doc.class_.LlmAgent? {
      LlmBuildsIff(providers, doc, scope, inLoop);
      NoFlags(documents, doc.refs, t.children, here, scope);
    }
  }

  lemma HeadFacts(providers: Providers, scope: Scope, doc: Document, here: bool)
    requires FlagsValid(providers, [Flagged(doc, here)])
    requires Prepared(scope.models, providers, Docs([Flagged(doc, here)]))
    requires LeavesAreLeaves([Flagged(doc, here)])
    ensures NodeValid(providers, doc, here) && Prepared(scope.models, providers, [doc])
    ensures doc.class_.LlmAgent? ==> doc.refs == []
    ensures doc.class_.LoopAgent? ==> doc.maxIterations.Some?
    ensures !doc.class_.OtherClass?
    ensures FlagsRegistered(scope, [Flagged(doc, here)]) <==> ToolsRegistered(scope, doc)
    ensures !doc.class_.LlmAgent? ==> ToolsRegistered(scope, doc)
  {
    hide ResolveModel, LlmValid;
    var head := [Flagged(doc, here)];
    assert head[0].doc == doc;
    assert Docs(head) == [doc];
  }

  lemma NoFlags(documents: Documents, refs: seq<Ref>, ts: seq<Tree>, inLoop: bool, scope: Scope)
    requires AllHang(documents, refs, ts) && refs == []
    ensures FlagsRegistered(scope, AllFlags(documents, refs, ts, inLoop))
  {
  }

  lemma {:induction false} AllValidatedBuildIff(providers: Providers, documents: Documents, refs: seq<Ref>,
                                                ts: seq<Tree>, scope: Scope, inLoop: bool)
    requires AllHang(documents, refs, ts)
    requires var flags := AllFlags(documents, refs, ts, inLoop);
             FlagsValid(providers, flags) && Prepared(scope.models, providers, Docs(flags)) && LeavesAreLeaves(flags)
    ensures BuildAll(documents, refs, ts, scope, inLoop).Some? <==>
            scope.validateOnly || FlagsRegistered(scope, AllFlags(documents, refs, ts, inLoop))
    decreases ts, 0
  {
    hide NodeValid, BuildNode, ToolsRegistered, Flags, Prepared, FlagsValid, LeavesAreLeaves;
    if ts != [] {
      var first := documents[refs[0].path];
      var a, b := Flags(documents, first, ts[0], inLoop), AllFlags(documents, refs[1..], ts[1..], inLoop);
      SplitFlags(providers, scope.models, a, b);
      JoinRegistered(scope, a, b);
      ValidatedBuildsIff(providers, documents, first, ts[0], scope, inLoop);
      AllValidatedBuildIff(providers, documents, refs[1..], ts[1..], scope, inLoop);
    }
  }
}

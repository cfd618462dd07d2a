/** The rules a loaded workflow keeps, written out
    (internal/agentdef/workflow_loader.go). */
module WorkflowRules {
  import opened Basics
  import opened Text
  import opened Workflow
  import opened WorkflowBuild

  const READ_ONLY := {"list_messages", "list_repos", "list_directory", "read_file", "list_worktrees"}

  const CONTENTS := {"", "default", "none"}

  // ---- Model references --------------------------------------------------

  /** The reference is a provider and one of its profiles, with one slash between. */
  ghost predicate Refers(providers: Providers, ref: string, isAgentCli: bool) {
    exists provider: string, profile: string ::
      && ref == provider + "/" + profile && '/' !in provider && '/' !in profile
      && !IsBlank(provider) && !IsBlank(profile)
      && provider in providers && profile in providers[provider].profiles
      && providers[provider].isAgentCli == isAgentCli
  }

  lemma SplitIs(provider: string, profile: string)
    requires '/' !in provider && '/' !in profile && !IsBlank(provider) && !IsBlank(profile)
    ensures SplitModel(provider + "/" + profile) == Some((provider, profile))
  {
    hide IsBlank, FirstIndex;
    var ref, n := provider + "/" + profile, FirstIndex(provider + "/" + profile, '/');
    assert ref[|provider|] == '/' && ref[..|provider|] == provider && ref[|provider| + 1..] == profile;
    assert forall k | 0 <= k < |provider| :: ref[k] == provider[k];
    assert n == |provider|;
  }

  lemma JoinIs(ref: string)
    requires SplitModel(ref).Some?
    ensures var (provider, profile) := SplitModel(ref).value;
            && ref == provider + "/" + profile && '/' !in provider && '/' !in profile
            && !IsBlank(provider) && !IsBlank(profile)
  {
    hide IsBlank, FirstIndex;
    var n := FirstIndex(ref, '/');
    assert forall k | 0 <= k < n :: ref[..n][k] == ref[k];
  }

  lemma RefersIff(providers: Providers, ref: string, isAgentCli: bool)
    ensures ResolveModel(providers, ref) == Some(isAgentCli) <==> Refers(providers, ref, isAgentCli)
  {
    hide IsBlank, SplitModel;
    if ResolveModel(providers, ref) == Some(isAgentCli) { JoinIs(ref); }
    forall provider: string, profile: string |
      && ref == provider + "/" + profile && '/' !in provider && '/' !in profile
      && !IsBlank(provider) && !IsBlank(profile)
      ensures SplitModel(ref) == Some((provider, profile))
    {
      SplitIs(provider, profile);
    }
  }

  // ---- Steps -------------------------------------------------------------

  /** exit_loop stands in loops alone; other tools only read, or are agents. */
  predicate ToolHolds(tool: Tool, inLoop: bool) {
    && !tool.hasArgs && (tool.name == "exit_loop" ==> inLoop)
    && (tool.name in READ_ONLY
        || (3 <= |tool.name| <= 64 && 'a' <= tool.name[0] <= 'z'
            && forall c | c in tool.name :: 'a' <= c <= 'z' || '0' <= c <= '9' || c in "_-"))
  }

  lemma ToolIff(tool: Tool, inLoop: bool)
    ensures ToolValid(tool, inLoop) <==> ToolHolds(tool, inLoop)
  {
    assert forall i | 0 <= i < |tool.name| :: tool.name[i] in tool.name;
    assert 'e' in "exit_loop" && !IsSpace('e');
    if tool.name != "" && ToolHolds(tool, inLoop) { assert !IsSpace(tool.name[0]); }
  }

  /** A step of an external agent: alone, without tools, in the target project or
      in none. */
  predicate ExternalHolds(llm: Llm) {
    && llm.includeContents == "none" && llm.tools == []
    && (IsBlank(llm.project) ==> llm.directories == [] && llm.outputSchema == "")
    && (!IsBlank(llm.project) ==>
          && llm.project == "{target_project}" && (forall d | d in llm.directories :: d == "{worktree_root}")
          && llm.outputSchema in {"", "git_delivery_result"}
          && (llm.outputSchema == "git_delivery_result" ==> !IsBlank(llm.outputKey)))
  }

  ghost predicate StepHolds(providers: Providers, llm: Llm, inLoop: bool) {
    && !IsBlank(llm.model) && !IsBlank(llm.instruction) && llm.includeContents in CONTENTS
    && (|| (Refers(providers, llm.model, true) && ExternalHolds(llm))
        || (Refers(providers, llm.model, false)
            && IsBlank(llm.project) && llm.directories == [] && IsBlank(llm.outputSchema)))
    && (forall i, j | 0 <= i < j < |llm.tools| :: llm.tools[i].name != llm.tools[j].name)
    && forall tool | tool in llm.tools :: ToolHolds(tool, inLoop)
  }

  lemma ToolsIff(tools: seq<Tool>, inLoop: bool)
    ensures (forall i | 0 <= i < |tools| :: ToolValid(tools[i], inLoop)) <==>
            forall tool | tool in tools :: ToolHolds(tool, inLoop)
  {
    hide ToolValid, ToolHolds;
    forall tool: Tool ensures ToolValid(tool, inLoop) == ToolHolds(tool, inLoop) { ToolIff(tool, inLoop); }
    assert forall i | 0 <= i < |tools| :: tools[i] in tools;
  }

  lemma ExternalIff(llm: Llm)
    ensures llm.includeContents == "none" && llm.tools == [] && ExternalStepValid(llm) <==> ExternalHolds(llm)
  {
    hide IsBlank;
    assert forall i | 0 <= i < |llm.directories| :: llm.directories[i] in llm.directories;
  }

  lemma StepIff(providers: Providers, llm: Llm, inLoop: bool)
    ensures LlmValid(providers, llm, inLoop) <==> StepHolds(providers, llm, inLoop)
  {
    hide IsBlank, ResolveModel, Refers, ToolValid, ToolHolds, ExternalStepValid, ExternalHolds;
    RefersIff(providers, llm.model, true);
    RefersIff(providers, llm.model, false);
    ToolsIff(llm.tools, inLoop);
    ExternalIff(llm);
  }

  /** A step keeps the rules of its kind, a sequence has children, and a loop has
      children and a bounded number of iterations. */
  lemma NodeIff(providers: Providers, doc: Document, inLoop: bool)
    ensures NodeValid(providers, doc, inLoop) <==>
            && doc.class_ in {LlmAgent, SequentialAgent, LoopAgent}
            && (doc.class_ == LlmAgent ==> doc.llm.Some? && StepHolds(providers, doc.llm.value, inLoop))
            && (doc.class_ != LlmAgent ==> |doc.refs| > 0)
            && (doc.class_ == LoopAgent ==> doc.maxIterations.Some? && 1 <= doc.maxIterations.value <= 100)
  {
    hide LlmValid, StepHolds;
    if doc.llm.Some? { StepIff(providers, doc.llm.value, inLoop); }
  }
}

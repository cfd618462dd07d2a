/** What a workflow is built into, position by position
    (internal/app/workflow_tools.go). */
module WorkflowAgents {
  import opened Basics
  import opened Text
  import opened Workflow
  import opened WorkflowTree
  import opened WorkflowBuild
  import opened WorkflowPositions

  function Children(agent: Agent): seq<Agent> {
    match agent
    case Sequence(_, _, children) => children
    case Loop(_, _, children, _) => children
    case _ => []
  }

  /** The agent at some positions. */
  function AgentAt(agent: Agent, p: Positions): Option<Agent>
    decreases |p|
  {
    if p == [] then Some(agent)
    else if p[0] >= |Children(agent)| then None
    else AgentAt(Children(agent)[p[0]], p[1..])
  }

  /** A loop document stands strictly above. */
  predicate UnderLoop(documents: Documents, doc: Document, p: Positions)
    decreases |p|
  {
    p != [] && (doc.class_.LoopAgent?
                || (p[0] < |doc.refs| && doc.refs[p[0]].path in documents
                    && UnderLoop(documents, documents[doc.refs[p[0]].path], p[1..])))
  }

  /** Only sequential and loop documents stand strictly above. */
  predicate UnderComposites(documents: Documents, doc: Document, p: Positions)
    decreases |p|
  {
    p == [] || ((doc.class_.SequentialAgent? || doc.class_.LoopAgent?)
                && p[0] < |doc.refs| && doc.refs[p[0]].path in documents
                && UnderComposites(documents, documents[doc.refs[p[0]].path], p[1..]))
  }

  function Names(tools: seq<Tool>): seq<string> {
    seq(|tools|, i requires 0 <= i < |tools| => tools[i].name)
  }

  /** The declared tools, in order; only checking leaves exit_loop of them. */
  ghost predicate ToolsBuilt(built: seq<string>, tools: seq<Tool>, validateOnly: bool) {
    if validateOnly then (forall t | t in built :: t == EXIT_LOOP) && |built| == multiset(Names(tools))[EXIT_LOOP]
    else built == Names(tools)
  }

  /** The agent is what the document says. */
  ghost predicate BuiltFrom(agent: Agent, doc: Document, validateOnly: bool) {
    && agent.name == doc.name && agent.description == doc.description
    && match doc.class_
       case SequentialAgent => agent.Sequence? && |agent.children| == |doc.refs|
       case LoopAgent =>
         agent.Loop? && |agent.children| == |doc.refs| && doc.maxIterations == Some(agent.maxIterations)
       case LlmAgent =>
         && doc.llm.Some? && (agent.Chat? || agent.Cli?)
         && (agent.Cli? <==> !IsBlank(doc.llm.value.project))
         && agent.model == doc.llm.value.model && agent.instruction == doc.llm.value.instruction
         && agent.outputKey == doc.llm.value.outputKey
         && (agent.Cli? ==> (agent.delivery <==> doc.llm.value.outputSchema == "git_delivery_result"))
         && (agent.Chat? ==> (agent.alone <==> doc.llm.value.includeContents == "none"))
         && (agent.Chat? ==> ToolsBuilt(agent.tools, doc.llm.value.tools, validateOnly))
       case OtherClass(_) => false
  }

  // ---- Tools -------------------------------------------------------------

  lemma {:induction false} ToolsAreBuilt(tools: seq<Tool>, scope: Scope, inLoop: bool)
    requires ToolList(tools, scope, inLoop).Some?
    ensures ToolsBuilt(ToolList(tools, scope, inLoop).value, tools, scope.validateOnly)
    ensures EXIT_LOOP in ToolList(tools, scope, inLoop).value ==> inLoop
  {
    if tools == [] {
      assert Names(tools) == [];
    } else {
      ToolsAreBuilt(tools[1..], scope, inLoop);
      assert Names(tools) == [tools[0].name] + Names(tools[1..]);
    }
  }

  // ---- Children ----------------------------------------------------------

  lemma {:induction false} ChildBuilt(documents: Documents, refs: seq<Ref>, ts: seq<Tree>, scope: Scope, inLoop: bool,
                                      i: nat)
    requires AllHang(documents, refs, ts) && BuildAll(documents, refs, ts, scope, inLoop).Some?
    ensures |BuildAll(documents, refs, ts, scope, inLoop).value| == |refs|
    ensures i < |refs| ==> BuildNode(documents, documents[refs[i].path], ts[i], scope, inLoop) ==
                           Some(BuildAll(documents, refs, ts, scope, inLoop).value[i])
  {
    hide BuildNode, Hangs;
    if ts != [] {
      ChildBuilt(documents, refs[1..], ts[1..], scope, inLoop, if i == 0 then 0 else i - 1);
    }
  }

  lemma BuiltHere(documents: Documents, doc: Document, t: Tree, scope: Scope, inLoop: bool)
    requires Hangs(documents, doc, t) && BuildNode(documents, doc, t, scope, inLoop).Some?
    ensures BuiltFrom(BuildNode(documents, doc, t, scope, inLoop).value, doc, scope.validateOnly)
    ensures var agent := BuildNode(documents, doc, t, scope, inLoop).value;
            agent.Chat? && EXIT_LOOP in agent.tools ==> inLoop
  {
    hide IsBlank, ToolList, BuildAll, ToolsBuilt;
    match doc.class_
    case LlmAgent =>
      if IsBlank(doc.llm.value.project) { ToolsAreBuilt(doc.llm.value.tools, scope, inLoop); }
    case SequentialAgent =>
      ChildBuilt(documents, doc.refs, t.children, scope, inLoop, 0);
    case LoopAgent =>
      ChildBuilt(documents, doc.refs, t.children, scope, true, 0);
    case OtherClass(_) =>
  }

  /** One step down, in the document and in the agent alike. */
  lemma BuiltBelow(documents: Documents, doc: Document, t: Tree, scope: Scope, inLoop: bool, i: nat)
    requires Hangs(documents, doc, t) && BuildNode(documents, doc, t, scope, inLoop).Some?
    requires doc.class_.SequentialAgent? || doc.class_.LoopAgent?
    ensures var agent := BuildNode(documents, doc, t, scope, inLoop).value;
            && |Children(agent)| == |doc.refs| == |t.children|
            && (i < |doc.refs| ==>
                  && doc.refs[i].path in documents && Hangs(documents, documents[doc.refs[i].path], t.children[i])
                  && BuildNode(documents, documents[doc.refs[i].path], t.children[i], scope,
                               inLoop || doc.class_.LoopAgent?) == Some(Children(agent)[i]))
  {
    hide BuildAll;
    ChildBuilt(documents, doc.refs, t.children, scope, inLoop || doc.class_.LoopAgent?, i);
  }

  /** At every position the agent is what the document there says, and an agent
      stands wherever a document does below sequential and loop documents alone.
      exit_loop is given to steps below a loop only. */
  lemma {:induction false} BuiltAt(documents: Documents, doc: Document, t: Tree, scope: Scope, inLoop: bool,
                                   p: Positions)
    requires Hangs(documents, doc, t) && BuildNode(documents, doc, t, scope, inLoop).Some?
    ensures var agent := BuildNode(documents, doc, t, scope, inLoop).value;
            && (AgentAt(agent, p).Some? <==> UnderComposites(documents, doc, p))
            && (AgentAt(agent, p).Some? ==>
                  && DocAt(documents, doc, p).Some?
                  && BuiltFrom(AgentAt(agent, p).value, DocAt(documents, doc, p).value, scope.validateOnly)
                  && (AgentAt(agent, p).value.Chat? && EXIT_LOOP in AgentAt(agent, p).value.tools ==>
                        inLoop || UnderLoop(documents, doc, p)))
    decreases |p|
  {
    hide BuildNode, BuiltFrom, Hangs;
    BuiltHere(documents, doc, t, scope, inLoop);
    if p != [] {
      if doc.class_.SequentialAgent? || doc.class_.LoopAgent? {
        BuiltBelow(documents, doc, t, scope, inLoop, p[0]);
        if p[0] < |doc.refs| {
          BuiltAt(documents, documents[doc.refs[p[0]].path], t.children[p[0]], scope,
                  inLoop || doc.class_.LoopAgent?, p[1..]);
        }
      } else {
        LeafHasNone(BuildNode(documents, doc, t, scope, inLoop).value, doc, scope.validateOnly);
      }
    }
  }

  lemma LeafHasNone(agent: Agent, doc: Document, validateOnly: bool)
    requires BuiltFrom(agent, doc, validateOnly) && !doc.class_.SequentialAgent? && !doc.class_.LoopAgent?
    ensures Children(agent) == []
  {
  }

  /** The whole agent is what the documents say. */
  ghost predicate BuiltAsLoaded(documents: Documents, root: Document, agent: Agent, validateOnly: bool) {
    forall p: Positions ::
      && (AgentAt(agent, p).Some? <==> UnderComposites(documents, root, p))
      && (AgentAt(agent, p).Some? ==>
            && DocAt(documents, root, p).Some?
            && BuiltFrom(AgentAt(agent, p).value, DocAt(documents, root, p).value, validateOnly)
            && (AgentAt(agent, p).value.Chat? && EXIT_LOOP in AgentAt(agent, p).value.tools ==>
                  UnderLoop(documents, root, p)))
  }

  lemma AllBuilt(documents: Documents, root: Document, t: Tree, scope: Scope)
    requires Hangs(documents, root, t) && BuildNode(documents, root, t, scope, false).Some?
    ensures BuiltAsLoaded(documents, root, BuildNode(documents, root, t, scope, false).value, scope.validateOnly)
  {
    hide BuildNode, BuiltFrom, Hangs, AgentAt, DocAt, UnderComposites, UnderLoop;
    forall p: Positions
      ensures var agent := BuildNode(documents, root, t, scope, false).value;
              && (AgentAt(agent, p).Some? <==> UnderComposites(documents, root, p))
              && (AgentAt(agent, p).Some? ==>
                    && DocAt(documents, root, p).Some?
                    && BuiltFrom(AgentAt(agent, p).value, DocAt(documents, root, p).value, scope.validateOnly)
                    && (AgentAt(agent, p).value.Chat? && EXIT_LOOP in AgentAt(agent, p).value.tools ==>
                          UnderLoop(documents, root, p)))
    {
      BuiltAt(documents, root, t, scope, false, p);
    }
  }
}

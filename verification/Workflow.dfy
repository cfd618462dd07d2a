/** Workflow documents, the files they are read from, and the tree their
    references unfold to (internal/agentdef/workflow.go, workflow_loader.go). */
module Workflow {
  import opened Basics

  const MAX_NODES := 50
  const MAX_DEPTH := 15

  datatype AgentClass = LlmAgent | SequentialAgent | LoopAgent | OtherClass(name: string)

  datatype Ref = Ref(configPath: string, path: string)

  datatype Tool = Tool(name: string, hasArgs: bool)

  datatype Llm = Llm(model: string, instruction: string, includeContents: string, outputKey: string,
                     tools: seq<Tool>, project: string, directories: seq<string>, outputSchema: string)

  datatype Document = Document(path: string, class_: AgentClass, name: string, description: string,
                               refs: seq<Ref>, llm: Option<Llm>, maxIterations: Option<int>)

  type Documents = map<string, Document>

  /** One fixed file system: path resolution, the directory bound, and the
      decoded content of regular readable files, by canonical path. */
  datatype Files = Files(
    isYaml: string -> bool,
    canonical: string -> Option<string>,
    inside: string -> bool,
    decoded: string -> Option<Document>,
    isAbsolute: string -> bool,
    join: (string, string) -> string)

  datatype Tree = Node(path: string, children: seq<Tree>)

  // ---- References --------------------------------------------------------

  function RefPath(files: Files, from: string, ref: Ref): string {
    files.join(from, ref.configPath)
  }

  /** Where a reference leads, when it may be followed at all. */
  function Target(files: Files, path: string): Option<string> {
    if !files.isYaml(path) then None
    else
      var c := files.canonical(path);
      if c.None? || !files.isYaml(c.value) || !files.inside(c.value) then None else c
  }

  predicate Links(files: Files, from: string, path: string) {
    files.decoded(from).Some? &&
    var refs := files.decoded(from).value.refs;
    exists i | 0 <= i < |refs| :: RefPath(files, from, refs[i]) == path
  }

  /** Some reference of one document resolves to the other. */
  ghost predicate Edge(files: Files, from: string, to: string) {
    exists path :: Links(files, from, path) && files.canonical(path) == Some(to)
  }

  ghost predicate IsChain(files: Files, stack: seq<string>) {
    forall i | 0 <= i < |stack| - 1 :: Edge(files, stack[i], stack[i + 1])
  }

  /** A closed chain of references. */
  ghost predicate IsCycle(files: Files, chain: seq<string>) {
    |chain| >= 2 && chain[0] == chain[|chain| - 1] && IsChain(files, chain)
  }

  // ---- Unfolding ---------------------------------------------------------

  predicate Unfolds(files: Files, path: string, depth: nat)
    decreases MAX_DEPTH + 1 - depth, 1
  {
    depth <= MAX_DEPTH && Target(files, path).Some? &&
    var c := Target(files, path).value;
    files.decoded(c).Some? && RefsUnfold(files, c, files.decoded(c).value.refs, depth)
  }

  predicate RefsUnfold(files: Files, from: string, refs: seq<Ref>, depth: nat)
    requires depth <= MAX_DEPTH
    decreases MAX_DEPTH + 1 - depth, 0
  {
    forall i | 0 <= i < |refs| :: !files.isAbsolute(refs[i].configPath)
      && Unfolds(files, RefPath(files, from, refs[i]), depth + 1)
  }

  /** The tree of canonical paths the references unfold to. */
  function Unfold(files: Files, path: string, depth: nat): Tree
    requires Unfolds(files, path, depth)
    decreases MAX_DEPTH + 1 - depth
  {
    var c := Target(files, path).value;
    var refs := files.decoded(c).value.refs;
    assert RefsUnfold(files, c, refs, depth);
    assert forall i | 0 <= i < |refs| :: Unfolds(files, RefPath(files, c, refs[i]), depth + 1);
    Node(c, seq(|refs|, i requires 0 <= i < |refs| => Unfold(files, RefPath(files, c, refs[i]), depth + 1)))
  }

  /** Preorder. */
  function Paths(t: Tree): (p: seq<string>)
    ensures p != [] && p[0] == t.path
  {
    [t.path] + AllPaths(t.children)
  }

  function AllPaths(ts: seq<Tree>): seq<string> {
    if ts == [] then [] else Paths(ts[0]) + AllPaths(ts[1..])
  }

  function Elements(s: seq<string>): set<string> {
    set x | x in s
  }

  // ---- Loaded documents --------------------------------------------------

  /** The document of a tree node with its references resolved. */
  function Resolved(files: Files, t: Tree): Document {
    var raw := files.decoded(t.path);
    if raw.None? || |raw.value.refs| != |t.children| then Document(t.path, OtherClass(""), "", "", [], None, None)
    else raw.value.(path := t.path,
                    refs := seq(|t.children|, i requires 0 <= i < |t.children| =>
                              raw.value.refs[i].(path := t.children[i].path)))
  }

  function Loaded(files: Files, t: Tree): (d: Documents)
    ensures t.path in d
  {
    AllLoaded(files, t.children)[t.path := Resolved(files, t)]
  }

  function AllLoaded(files: Files, ts: seq<Tree>): Documents {
    if ts == [] then map[] else Loaded(files, ts[0]) + AllLoaded(files, ts[1..])
  }

  // ---- Sequence facts ----------------------------------------------------

  lemma {:induction false} AllPathsAppend(ts: seq<Tree>, t: Tree)
    ensures AllPaths(ts + [t]) == AllPaths(ts) + Paths(t)
  {
    hide Paths;
    if ts == [] {
      assert [t][1..] == [] && ts + [t] == [t];
    } else {
      AllPathsAppend(ts[1..], t);
      assert (ts + [t])[1..] == ts[1..] + [t];
    }
  }

  lemma {:induction false} AllPathsSplit(ts: seq<Tree>, i: nat)
    requires i < |ts|
    ensures AllPaths(ts) == AllPaths(ts[..i]) + (Paths(ts[i]) + AllPaths(ts[i + 1..]))
  {
    hide Paths;
    if i == 0 {
      assert ts[..0] == [];
    } else {
      AllPathsSplit(ts[1..], i - 1);
      assert ts[1..][..i - 1] == ts[..i][1..] && ts[1..][i - 1] == ts[i] && ts[1..][i..] == ts[i + 1..];
      assert ts[..i][0] == ts[0];
    }
  }

  lemma {:induction false} AllLoadedAppend(files: Files, ts: seq<Tree>, t: Tree)
    ensures AllLoaded(files, ts + [t]) == AllLoaded(files, ts) + Loaded(files, t)
  {
    hide Loaded;
    if ts == [] {
      assert [t][1..] == [] && ts + [t] == [t];
    } else {
      AllLoadedAppend(files, ts[1..], t);
      assert (ts + [t])[1..] == ts[1..] + [t];
    }
  }

  lemma {:induction false} LoadedKeys(files: Files, t: Tree)
    ensures Loaded(files, t).Keys == Elements(Paths(t))
    decreases t, 1
  {
    AllLoadedKeys(files, t.children);
  }

  lemma {:induction false} AllLoadedKeys(files: Files, ts: seq<Tree>)
    ensures AllLoaded(files, ts).Keys == Elements(AllPaths(ts))
    decreases ts, 0
  {
    hide Paths, Loaded;
    if ts != [] {
      LoadedKeys(files, ts[0]);
      AllLoadedKeys(files, ts[1..]);
    }
  }

  lemma {:induction false} DistinctSize(s: seq<string>)
    requires Distinct(s)
    ensures |Elements(s)| == |s|
  {
    if s != [] {
      DistinctSize(s[1..]);
      assert Elements(s) == Elements(s[1..]) + {s[0]};
      assert s[0] !in Elements(s[1..]);
    }
  }

  lemma ElementsAppend(a: seq<string>, b: seq<string>)
    ensures Elements(a + b) == Elements(a) + Elements(b)
  {
  }

  lemma DistinctAppend(a: seq<string>, b: seq<string>)
    ensures Distinct(a + b) <==> Distinct(a) && Distinct(b) && Elements(a) !! Elements(b)
  {
    var s := a + b;
    assert forall i | 0 <= i < |a| :: s[i] == a[i] && a[i] in Elements(a);
    assert forall i | 0 <= i < |b| :: s[|a| + i] == b[i] && b[i] in Elements(b);
    if Distinct(a) && Distinct(b) && Elements(a) !! Elements(b) {
      forall i, j | 0 <= i < j < |s|
        ensures s[i] != s[j]
      {
        assert i < |a| ==> s[i] in Elements(a);
        assert j >= |a| ==> s[j] == b[j - |a|] && s[j] in Elements(b);
        assert i >= |a| ==> s[i] == b[i - |a|];
      }
    }
  }

  lemma Single(c: string)
    ensures Elements([c]) == {c} && Distinct([c])
  {
  }

  lemma MapAssoc<V>(a: map<string, V>, b: map<string, V>, c: map<string, V>)
    ensures a + b + c == a + (b + c)
  {
  }

  lemma MapUpdate<V>(a: map<string, V>, b: map<string, V>, k: string, v: V)
    ensures (a + b)[k := v] == a + b[k := v]
  {
  }

  lemma MapRestore<V>(a: map<string, V>, k: string, v: V)
    requires k !in a
    ensures a[k := v] - {k} == a && a[k := v].Keys == a.Keys + {k}
  {
  }

  lemma MapSumKeys<V>(a: map<string, V>, b: map<string, V>)
    ensures (a + b).Keys == a.Keys + b.Keys
  {
  }

  lemma LoadedNode(files: Files, c: string, ts: seq<Tree>)
    ensures Loaded(files, Node(c, ts)) == AllLoaded(files, ts)[c := Resolved(files, Node(c, ts))]
  {
  }

  lemma LoadedNone(files: Files, documents: Documents)
    ensures documents + AllLoaded(files, []) == documents
  {
  }
}

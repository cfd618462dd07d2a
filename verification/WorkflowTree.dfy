/** Walking a loaded workflow: the walks have no guard of their own and end
    because the loader established a tree (internal/agentdef/workflow_loader.go). */
module WorkflowTree {
  import opened Basics
  import opened Workflow

  /** The documents hang together as the tree t under doc. */
  predicate Hangs(documents: Documents, doc: Document, t: Tree)
    decreases t
  {
    && doc.path == t.path && |doc.refs| == |t.children|
    && forall i | 0 <= i < |t.children| ::
         && doc.refs[i].path == t.children[i].path && doc.refs[i].path in documents
         && Hangs(documents, documents[doc.refs[i].path], t.children[i])
  }

  predicate AllHang(documents: Documents, refs: seq<Ref>, ts: seq<Tree>) {
    |refs| == |ts| && forall i | 0 <= i < |ts| ::
      refs[i].path == ts[i].path && refs[i].path in documents && Hangs(documents, documents[refs[i].path], ts[i])
  }

  // ---- What loading establishes ------------------------------------------

  predicate Shaped(files: Files, t: Tree) {
    && files.decoded(t.path).Some? && |files.decoded(t.path).value.refs| == |t.children|
    && forall i | 0 <= i < |t.children| :: Shaped(files, t.children[i])
  }

  lemma {:induction false} UnfoldShaped(files: Files, path: string, depth: nat)
    requires Unfolds(files, path, depth)
    ensures Shaped(files, Unfold(files, path, depth))
    decreases MAX_DEPTH + 1 - depth
  {
    var c := Target(files, path).value;
    var refs := files.decoded(c).value.refs;
    assert RefsUnfold(files, c, refs, depth);
    forall i | 0 <= i < |refs|
      ensures Shaped(files, Unfold(files, path, depth).children[i])
    {
      UnfoldShaped(files, RefPath(files, c, refs[i]), depth + 1);
    }
  }

  predicate Within(a: Documents, b: Documents) {
    forall p | p in a :: p in b && b[p] == a[p]
  }

  lemma {:induction false} LoadedWithinAll(files: Files, ts: seq<Tree>, i: nat)
    requires i < |ts| && Distinct(AllPaths(ts))
    ensures Within(Loaded(files, ts[i]), AllLoaded(files, ts))
    ensures Distinct(Paths(ts[i]))
  {
    hide Loaded, Paths, Distinct;
    DistinctAppend(Paths(ts[0]), AllPaths(ts[1..]));
    LoadedKeys(files, ts[0]);
    AllLoadedKeys(files, ts[1..]);
    if i > 0 {
      LoadedWithinAll(files, ts[1..], i - 1);
    }
  }

  lemma {:induction false} LoadedHangs(files: Files, documents: Documents, t: Tree)
    requires Shaped(files, t) && Distinct(Paths(t)) && Within(Loaded(files, t), documents)
    ensures Hangs(documents, Resolved(files, t), t) && t.path in documents && documents[t.path] == Resolved(files, t)
    decreases t
  {
    hide Distinct, AllPaths, AllLoaded;
    var doc := Resolved(files, t);
    DistinctAppend([t.path], AllPaths(t.children));
    AllLoadedKeys(files, t.children);
    Single(t.path);
    forall i | 0 <= i < |t.children|
      ensures doc.refs[i].path == t.children[i].path && doc.refs[i].path in documents
      ensures Hangs(documents, documents[doc.refs[i].path], t.children[i])
    {
      LoadedWithinAll(files, t.children, i);
      LoadedHangs(files, documents, t.children[i]);
    }
  }

  // ---- Preorder ----------------------------------------------------------

  function Preorder(documents: Documents, doc: Document, t: Tree): seq<Document>
    requires Hangs(documents, doc, t)
    decreases t, 1
  {
    [doc] + AllPreorder(documents, doc.refs, t.children)
  }

  function AllPreorder(documents: Documents, refs: seq<Ref>, ts: seq<Tree>): seq<Document>
    requires AllHang(documents, refs, ts)
    decreases ts, 0
  {
    if ts == [] then []
    else Preorder(documents, documents[refs[0].path], ts[0]) + AllPreorder(documents, refs[1..], ts[1..])
  }

  function PathList(docs: seq<Document>): seq<string> {
    seq(|docs|, i requires 0 <= i < |docs| => docs[i].path)
  }

  lemma PathListAppend(a: seq<Document>, b: seq<Document>)
    ensures PathList(a + b) == PathList(a) + PathList(b)
  {
  }

  /** The walk lists exactly the paths of the tree, in preorder. */
  lemma {:induction false} PreorderPaths(documents: Documents, doc: Document, t: Tree)
    requires Hangs(documents, doc, t)
    ensures PathList(Preorder(documents, doc, t)) == Paths(t)
    decreases t, 1
  {
    hide AllPreorder, AllPaths;
    AllPreorderPaths(documents, doc.refs, t.children);
    PathListAppend([doc], AllPreorder(documents, doc.refs, t.children));
    assert PathList([doc]) == [t.path];
  }

  lemma {:induction false} AllPreorderPaths(documents: Documents, refs: seq<Ref>, ts: seq<Tree>)
    requires AllHang(documents, refs, ts)
    ensures PathList(AllPreorder(documents, refs, ts)) == AllPaths(ts)
    decreases ts, 0
  {
    hide Preorder, Paths;
    if ts != [] {
      PreorderPaths(documents, documents[refs[0].path], ts[0]);
      AllPreorderPaths(documents, refs[1..], ts[1..]);
      PathListAppend(Preorder(documents, documents[refs[0].path], ts[0]), AllPreorder(documents, refs[1..], ts[1..]));
    }
  }

  /** Every listed document but the root is the one stored under its path. */
  lemma {:induction false} PreorderStored(documents: Documents, doc: Document, t: Tree, i: nat)
    requires Hangs(documents, doc, t) && i < |Preorder(documents, doc, t)|
    ensures var d := Preorder(documents, doc, t)[i];
            d == doc || (d.path in documents && documents[d.path] == d)
    decreases t, 1
  {
    hide AllPreorder;
    if i > 0 {
      AllPreorderStored(documents, doc.refs, t.children, i - 1);
    }
  }

  lemma {:induction false} AllPreorderStored(documents: Documents, refs: seq<Ref>, ts: seq<Tree>, i: nat)
    requires AllHang(documents, refs, ts) && i < |AllPreorder(documents, refs, ts)|
    ensures var d := AllPreorder(documents, refs, ts)[i];
            d.path in documents && documents[d.path] == d
    decreases ts, 0
  {
    hide Preorder;
    var first := documents[refs[0].path];
    var head := Preorder(documents, first, ts[0]);
    if i < |head| {
      PreorderStored(documents, first, ts[0], i);
    } else {
      AllPreorderStored(documents, refs[1..], ts[1..], i - |head|);
    }
  }

  /** OrderedDocuments: the closure appends to one shared list. */
  method OrderedDocuments(documents: Documents, root: Document, ghost t: Tree) returns (result: seq<Document>)
    requires Hangs(documents, root, t)
    ensures result == Preorder(documents, root, t)
  {
    result := Walk(documents, root, [], t);
  }

  method Walk(documents: Documents, doc: Document, result: seq<Document>, ghost t: Tree)
    returns (result': seq<Document>)
    requires Hangs(documents, doc, t)
    ensures result' == result + Preorder(documents, doc, t)
    decreases t
  {
    hide Preorder;
    result' := result + [doc];
    ghost var refs, ts := doc.refs, t.children;
    assert refs[0..] == refs && ts[0..] == ts;
    PreorderIs(documents, doc, t);
    for i := 0 to |doc.refs|
      invariant AllHang(documents, refs[i..], ts[i..])
      invariant result + Preorder(documents, doc, t) == result' + AllPreorder(documents, refs[i..], ts[i..])
    {
      assert refs[i..][1..] == refs[i + 1..] && ts[i..][1..] == ts[i + 1..];
      var path := doc.refs[i].path;
      if path in documents {
        ghost var before := result';
        result' := Walk(documents, documents[path], result', ts[i]);
        assert before + (Preorder(documents, documents[path], ts[i]) +
               AllPreorder(documents, refs[i + 1..], ts[i + 1..])) ==
               result' + AllPreorder(documents, refs[i + 1..], ts[i + 1..]);
      }
    }
    assert ts[|doc.refs|..] == [];
  }

  lemma PreorderIs(documents: Documents, doc: Document, t: Tree)
    requires Hangs(documents, doc, t)
    ensures Preorder(documents, doc, t) == [doc] + AllPreorder(documents, doc.refs, t.children)
  {
  }

  // ---- Loop ancestors ----------------------------------------------------

  datatype Flagged = Flagged(doc: Document, inLoop: bool)

  /** Every document with whether it is, or stands under, a loop agent. */
  function Flags(documents: Documents, doc: Document, t: Tree, inLoop: bool): seq<Flagged>
    requires Hangs(documents, doc, t)
    decreases t, 1
  {
    var here := inLoop || doc.class_.LoopAgent?;
    [Flagged(doc, here)] + AllFlags(documents, doc.refs, t.children, here)
  }

  function AllFlags(documents: Documents, refs: seq<Ref>, ts: seq<Tree>, inLoop: bool): seq<Flagged>
    requires AllHang(documents, refs, ts)
    decreases ts, 0
  {
    if ts == [] then []
    else Flags(documents, documents[refs[0].path], ts[0], inLoop) + AllFlags(documents, refs[1..], ts[1..], inLoop)
  }

  function Docs(flags: seq<Flagged>): seq<Document> {
    seq(|flags|, i requires 0 <= i < |flags| => flags[i].doc)
  }

  lemma DocsAppend(a: seq<Flagged>, b: seq<Flagged>)
    ensures Docs(a + b) == Docs(a) + Docs(b)
  {
  }

  lemma {:induction false} FlagsFollowPreorder(documents: Documents, doc: Document, t: Tree, inLoop: bool)
    requires Hangs(documents, doc, t)
    ensures Docs(Flags(documents, doc, t, inLoop)) == Preorder(documents, doc, t)
    decreases t, 1
  {
    hide AllFlags, AllPreorder;
    var here := inLoop || doc.class_.LoopAgent?;
    AllFlagsFollowPreorder(documents, doc.refs, t.children, here);
    DocsAppend([Flagged(doc, here)], AllFlags(documents, doc.refs, t.children, here));
    assert Docs([Flagged(doc, here)]) == [doc];
  }

  lemma {:induction false} AllFlagsFollowPreorder(documents: Documents, refs: seq<Ref>, ts: seq<Tree>, inLoop: bool)
    requires AllHang(documents, refs, ts)
    ensures Docs(AllFlags(documents, refs, ts, inLoop)) == AllPreorder(documents, refs, ts)
    decreases ts, 0
  {
    hide Flags, Preorder;
    if ts != [] {
      FlagsFollowPreorder(documents, documents[refs[0].path], ts[0], inLoop);
      AllFlagsFollowPreorder(documents, refs[1..], ts[1..], inLoop);
      DocsAppend(Flags(documents, documents[refs[0].path], ts[0], inLoop),
        AllFlags(documents, refs[1..], ts[1..], inLoop));
    }
  }

  /** The name-keyed map after recording a list of flags in order. */
  function Record(result: map<string, bool>, flags: seq<Flagged>): map<string, bool>
    decreases flags
  {
    if flags == [] then result else Record(result[flags[0].doc.name := flags[0].inLoop], flags[1..])
  }

  lemma {:induction false} RecordAppend(result: map<string, bool>, a: seq<Flagged>, b: seq<Flagged>)
    ensures Record(result, a + b) == Record(Record(result, a), b)
    decreases a
  {
    if a == [] {
      assert a + b == b;
    } else {
      RecordAppend(result[a[0].doc.name := a[0].inLoop], a[1..], b);
      assert (a + b)[1..] == a[1..] + b;
    }
  }

  predicate UniqueNames(docs: seq<Document>) {
    forall i, j | 0 <= i < j < |docs| :: docs[i].name != docs[j].name
  }

  /** With unique names the name-keyed map is the flag of the node itself. */
  lemma {:induction false} RecordIsFlag(result: map<string, bool>, flags: seq<Flagged>, i: nat)
    requires UniqueNames(Docs(flags)) && i < |flags|
    ensures flags[i].doc.name in Record(result, flags) && Record(result, flags)[flags[i].doc.name] == flags[i].inLoop
    decreases flags
  {
    var next := result[flags[0].doc.name := flags[0].inLoop];
    assert forall k | 0 <= k < |flags| - 1 :: Docs(flags[1..])[k] == Docs(flags)[k + 1];
    if i > 0 {
      RecordIsFlag(next, flags[1..], i - 1);
    } else {
      forall k | 0 <= k < |flags| - 1
        ensures flags[1..][k].doc.name != flags[0].doc.name
      {
        assert Docs(flags)[0].name != Docs(flags)[k + 1].name;
      }
      RecordKeeps(next, flags[1..], flags[0].doc.name);
    }
  }

  lemma {:induction false} RecordKeeps(result: map<string, bool>, flags: seq<Flagged>, name: string)
    requires name in result && forall k | 0 <= k < |flags| :: flags[k].doc.name != name
    ensures name in Record(result, flags) && Record(result, flags)[name] == result[name]
    decreases flags
  {
    if flags != [] {
      RecordKeeps(result[flags[0].doc.name := flags[0].inLoop], flags[1..], name);
    }
  }

  /** buildLoopAncestorMap. */
  method WalkLoops(documents: Documents, doc: Document, inLoop: bool, result: map<string, bool>, ghost t: Tree)
    returns (result': map<string, bool>)
    requires Hangs(documents, doc, t)
    ensures result' == Record(result, Flags(documents, doc, t, inLoop))
    decreases t
  {
    hide Record, Flags, AllFlags;
    var here := inLoop || doc.class_.LoopAgent?;
    result' := result[doc.name := here];
    ghost var refs, ts := doc.refs, t.children;
    assert refs[0..] == refs && ts[0..] == ts;
    FlagsAre(documents, doc, t, inLoop, result);
    for i := 0 to |doc.refs|
      invariant AllHang(documents, refs[i..], ts[i..])
      invariant Record(result, Flags(documents, doc, t, inLoop)) ==
                Record(result', AllFlags(documents, refs[i..], ts[i..], here))
    {
      assert refs[i..][1..] == refs[i + 1..] && ts[i..][1..] == ts[i + 1..];
      var path := doc.refs[i].path;
      if path in documents {
        AllFlagsStep(documents, refs[i..], ts[i..], here, result');
        result' := WalkLoops(documents, documents[path], here, result', ts[i]);
      }
    }
    assert ts[|doc.refs|..] == [];
    AllFlagsEnd(documents, refs[|doc.refs|..], ts[|doc.refs|..], here, result');
  }

  lemma FlagsAre(documents: Documents, doc: Document, t: Tree, inLoop: bool, result: map<string, bool>)
    requires Hangs(documents, doc, t)
    ensures var here := inLoop || doc.class_.LoopAgent?;
            Record(result, Flags(documents, doc, t, inLoop)) ==
            Record(result[doc.name := here], AllFlags(documents, doc.refs, t.children, here))
  {
    var here := inLoop || doc.class_.LoopAgent?;
    var flags := Flags(documents, doc, t, inLoop);
    assert flags[1..] == AllFlags(documents, doc.refs, t.children, here);
  }

  lemma AllFlagsStep(documents: Documents, refs: seq<Ref>, ts: seq<Tree>, inLoop: bool, result: map<string, bool>)
    requires AllHang(documents, refs, ts) && ts != []
    ensures Record(result, AllFlags(documents, refs, ts, inLoop)) ==
            Record(Record(result, Flags(documents, documents[refs[0].path], ts[0], inLoop)),
              AllFlags(documents, refs[1..], ts[1..], inLoop))
  {
    hide Record, Flags;
    RecordAppend(result, Flags(documents, documents[refs[0].path], ts[0], inLoop),
      AllFlags(documents, refs[1..], ts[1..], inLoop));
  }

  lemma AllFlagsEnd(documents: Documents, refs: seq<Ref>, ts: seq<Tree>, inLoop: bool, result: map<string, bool>)
    requires AllHang(documents, refs, ts) && ts == []
    ensures Record(result, AllFlags(documents, refs, ts, inLoop)) == result
  {
  }
}

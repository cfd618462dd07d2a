/** Which workflows load, and what they are loaded as, position by position
    (internal/agentdef/workflow_loader.go). */
module WorkflowPositions {
  import opened Basics
  import opened Workflow
  import opened WorkflowTree
  import opened WorkflowLoader

  /** Child positions from the root down. */
  type Positions = seq<nat>

  /** The document at some positions, through the references of those above. */
  function DocAt(documents: Documents, doc: Document, p: Positions): Option<Document>
    decreases |p|
  {
    if p == [] then Some(doc)
    else if p[0] >= |doc.refs| || doc.refs[p[0]].path !in documents then None
    else DocAt(documents, documents[doc.refs[p[0]].path], p[1..])
  }

  // ---- What is loaded ----------------------------------------------------

  /** The file at some positions below another: reference by reference, joined to
      the file it stands in and resolved. */
  function FileAt(files: Files, file: string, p: Positions): Option<string>
    decreases |p|
  {
    if p == [] then Some(file)
    else if files.decoded(file).None? || p[0] >= |files.decoded(file).value.refs| then None
    else
      var next := files.canonical(files.join(file, files.decoded(file).value.refs[p[0]].configPath));
      if next.None? then None else FileAt(files, next.value, p[1..])
  }

  /** The document of a file, except that its references know where they lead. */
  predicate ReadFrom(doc: Document, files: Files, file: string) {
    && files.decoded(file).Some? && doc.path == file
    && var raw := files.decoded(file).value;
    && doc.class_ == raw.class_ && doc.name == raw.name && doc.description == raw.description
    && doc.llm == raw.llm && doc.maxIterations == raw.maxIterations && |doc.refs| == |raw.refs|
    && forall i | 0 <= i < |raw.refs| ::
         && doc.refs[i].configPath == raw.refs[i].configPath
         && files.canonical(files.join(file, raw.refs[i].configPath)) == Some(doc.refs[i].path)
  }

  lemma ReadHere(files: Files, path: string, depth: nat)
    requires Unfolds(files, path, depth)
    ensures var t := Unfold(files, path, depth);
            && files.canonical(path) == Some(t.path) && ReadFrom(Resolved(files, t), files, t.path)
  {
    hide Unfold;
    UnfoldIs(files, path, depth);
  }

  lemma UnfoldIs(files: Files, path: string, depth: nat)
    requires Unfolds(files, path, depth)
    ensures var t := Unfold(files, path, depth);
            && Target(files, path) == Some(t.path) && files.decoded(t.path).Some?
            && var refs := files.decoded(t.path).value.refs;
            && |t.children| == |refs| && forall i | 0 <= i < |refs| ::
                 Unfolds(files, RefPath(files, t.path, refs[i]), depth + 1)
                 && t.children[i] == Unfold(files, RefPath(files, t.path, refs[i]), depth + 1)
                 && Target(files, RefPath(files, t.path, refs[i])) == Some(t.children[i].path)
  {
    var c := Target(files, path).value;
    assert RefsUnfold(files, c, files.decoded(c).value.refs, depth);
  }

  /** At every position the loaded document is the file the references lead to. */
  lemma {:induction false} LoadedAt(files: Files, path: string, depth: nat, documents: Documents, p: Positions)
    requires Unfolds(files, path, depth)
    requires var t := Unfold(files, path, depth);
             Distinct(Paths(t)) && Within(Loaded(files, t), documents)
    ensures var t := Unfold(files, path, depth);
            var file, doc := FileAt(files, t.path, p), DocAt(documents, Resolved(files, t), p);
            && (doc.Some? <==> file.Some?) && (doc.Some? ==> ReadFrom(doc.value, files, file.value))
    decreases |p|
  {
    hide Unfold, Loaded, Resolved, Paths, Distinct, ReadFrom, Target, Within;
    var t := Unfold(files, path, depth);
    ReadHere(files, path, depth);
    if p != [] {
      UnfoldIs(files, path, depth);
      ResolvedRefs(files, t);
      if p[0] < |t.children| {
        var ref := files.decoded(t.path).value.refs[p[0]];
        ChildLoaded(files, documents, t, p[0]);
        TargetIsCanonical(files, RefPath(files, t.path, ref));
        LoadedAt(files, RefPath(files, t.path, ref), depth + 1, documents, p[1..]);
      }
    }
  }

  lemma TargetIsCanonical(files: Files, path: string)
    ensures Target(files, path).Some? ==> files.canonical(path) == Target(files, path)
  {
  }

  lemma ResolvedRefs(files: Files, t: Tree)
    requires files.decoded(t.path).Some? && |files.decoded(t.path).value.refs| == |t.children|
    ensures |Resolved(files, t).refs| == |t.children|
    ensures forall i | 0 <= i < |t.children| :: Resolved(files, t).refs[i].path == t.children[i].path
  {
  }

  lemma ChildLoaded(files: Files, documents: Documents, t: Tree, i: nat)
    requires Distinct(Paths(t)) && Within(Loaded(files, t), documents) && i < |t.children|
    ensures var child := t.children[i];
            Distinct(Paths(child)) && Within(Loaded(files, child), documents)
            && child.path in documents && documents[child.path] == Resolved(files, child)
  {
    hide Distinct, AllPaths, AllLoaded, Resolved;
    DistinctAppend([t.path], AllPaths(t.children));
    AllLoadedKeys(files, t.children);
    Single(t.path);
    LoadedWithinAll(files, t.children, i);
  }

  // ---- Which workflows load ----------------------------------------------

  /** The reference at some positions, before it is resolved. */
  function PathAt(files: Files, path: string, p: Positions): Option<string>
    decreases |p|
  {
    if p == [] then Some(path)
    else
      var file := files.canonical(path);
      if file.None? || files.decoded(file.value).None? || p[0] >= |files.decoded(file.value).value.refs| then None
      else PathAt(files, files.join(file.value, files.decoded(file.value).value.refs[p[0]].configPath), p[1..])
  }

  /** The path leads to a YAML document inside the directory, and the references
      in it are relative. */
  predicate Sound(files: Files, path: string) {
    && files.isYaml(path) && files.canonical(path).Some?
    && var file := files.canonical(path).value;
    && files.isYaml(file) && files.inside(file) && files.decoded(file).Some?
    && forall i | 0 <= i < |files.decoded(file).value.refs| ::
         !files.isAbsolute(files.decoded(file).value.refs[i].configPath)
  }

  /** Whatever is referred to is sound, and no deeper than the bound. */
  ghost predicate AllSound(files: Files, path: string, depth: nat) {
    forall p: Positions | PathAt(files, path, p).Some? ::
      Sound(files, PathAt(files, path, p).value) && depth + |p| <= 15
  }

  lemma AllSoundBelow(files: Files, path: string, depth: nat, i: nat)
    requires AllSound(files, path, depth) && Sound(files, path)
    requires i < |files.decoded(files.canonical(path).value).value.refs|
    ensures var file := files.canonical(path).value;
            AllSound(files, files.join(file, files.decoded(file).value.refs[i].configPath), depth + 1)
  {
    var file := files.canonical(path).value;
    var next := files.join(file, files.decoded(file).value.refs[i].configPath);
    forall p: Positions | PathAt(files, next, p).Some?
      ensures Sound(files, PathAt(files, next, p).value) && depth + 1 + |p| <= 15
    {
      var q := [i] + p;
      assert q[1..] == p;
      assert PathAt(files, path, q) == PathAt(files, next, p);
    }
  }

  /** A tree unfolds exactly when all of it is sound. */
  lemma {:induction false} UnfoldsIff(files: Files, path: string, depth: nat)
    ensures Unfolds(files, path, depth) <==> AllSound(files, path, depth)
    decreases MAX_DEPTH + 1 - depth
  {
    hide Unfolds, Sound, PathAt;
    if Unfolds(files, path, depth) {
      forall p: Positions | PathAt(files, path, p).Some?
        ensures Sound(files, PathAt(files, path, p).value) && depth + |p| <= 15
      {
        UnfoldsSound(files, path, depth, p);
      }
    }
    if AllSound(files, path, depth) {
      SoundUnfolds(files, path, depth);
    }
  }

  lemma {:induction false} UnfoldsSound(files: Files, path: string, depth: nat, p: Positions)
    requires Unfolds(files, path, depth) && PathAt(files, path, p).Some?
    ensures Sound(files, PathAt(files, path, p).value) && depth + |p| <= 15
    decreases |p|
  {
    var c := Target(files, path).value;
    var refs := files.decoded(c).value.refs;
    assert RefsUnfold(files, c, refs, depth);
    if p != [] {
      UnfoldsSound(files, RefPath(files, c, refs[p[0]]), depth + 1, p[1..]);
    }
  }

  lemma {:induction false} SoundUnfolds(files: Files, path: string, depth: nat)
    requires AllSound(files, path, depth)
    ensures Unfolds(files, path, depth)
    decreases MAX_DEPTH + 1 - depth
  {
    hide AllSound;
    SoundHere(files, path, depth);
    var c := files.canonical(path).value;
    var refs := files.decoded(c).value.refs;
    forall i | 0 <= i < |refs|
      ensures !files.isAbsolute(refs[i].configPath) && Unfolds(files, RefPath(files, c, refs[i]), depth + 1)
    {
      AllSoundBelow(files, path, depth, i);
      SoundUnfolds(files, RefPath(files, c, refs[i]), depth + 1);
    }
    assert RefsUnfold(files, c, refs, depth);
  }

  lemma SoundHere(files: Files, path: string, depth: nat)
    requires AllSound(files, path, depth)
    ensures Sound(files, path) && depth <= 15
  {
    hide Sound;
    var here: Positions := [];
    assert PathAt(files, path, here) == Some(path);
  }

  // ---- One document, one position ----------------------------------------

  function NodeAt(t: Tree, p: Positions): Option<Tree>
    decreases |p|
  {
    if p == [] then Some(t) else if p[0] >= |t.children| then None else NodeAt(t.children[p[0]], p[1..])
  }

  /** No path stands at two positions. */
  ghost predicate OncePlaced(t: Tree) {
    forall p: Positions, q: Positions | NodeAt(t, p).Some? && NodeAt(t, q).Some?
      && NodeAt(t, p).value.path == NodeAt(t, q).value.path :: p == q
  }

  lemma {:induction false} AllPathsHold(ts: seq<Tree>, c: string)
    ensures c in AllPaths(ts) <==> exists i | 0 <= i < |ts| :: c in Paths(ts[i])
  {
    hide Paths;
    if ts != [] {
      AllPathsHold(ts[1..], c);
      assert forall i | 0 < i < |ts| :: ts[i] == ts[1..][i - 1];
      assert forall i | 0 <= i < |ts| - 1 :: ts[1..][i] == ts[i + 1];
    }
  }

  /** The listed paths are those of the nodes at some position. */
  lemma {:induction false} PathsHold(t: Tree, c: string)
    ensures c in Paths(t) <==> exists p: Positions :: NodeAt(t, p).Some? && NodeAt(t, p).value.path == c
    decreases t
  {
    hide Paths, NodeAt;
    if c in Paths(t) {
      var p := PlaceOf(t, c);
      assert NodeAt(t, p).Some? && NodeAt(t, p).value.path == c;
    }
    if p: Positions :| NodeAt(t, p).Some? && NodeAt(t, p).value.path == c { PathHeld(t, p); }
  }

  lemma {:induction false} PlaceOf(t: Tree, c: string) returns (p: Positions)
    requires c in Paths(t)
    ensures NodeAt(t, p).Some? && NodeAt(t, p).value.path == c
    decreases t
  {
    hide AllPaths;
    if c == t.path {
      p := [];
    } else {
      AllPathsHold(t.children, c);
      var i :| 0 <= i < |t.children| && c in Paths(t.children[i]);
      p := PlaceOf(t.children[i], c);
      Down(t, i, p);
      p := [i] + p;
    }
  }

  lemma {:induction false} PathHeld(t: Tree, p: Positions)
    requires NodeAt(t, p).Some?
    ensures NodeAt(t, p).value.path in Paths(t)
    decreases |p|
  {
    hide AllPaths;
    if p != [] {
      PathHeld(t.children[p[0]], p[1..]);
      AllPathsHold(t.children, NodeAt(t, p).value.path);
    }
  }

  lemma Down(t: Tree, i: nat, p: Positions)
    requires i < |t.children|
    ensures NodeAt(t, [i] + p) == NodeAt(t.children[i], p)
  {
    assert ([i] + p)[1..] == p;
  }

  lemma {:induction false} AllDistinctIff(ts: seq<Tree>)
    ensures Distinct(AllPaths(ts)) <==>
            && (forall i | 0 <= i < |ts| :: Distinct(Paths(ts[i])))
            && (forall i, j | 0 <= i < j < |ts| :: Elements(Paths(ts[i])) !! Elements(Paths(ts[j])))
  {
    hide Paths, Distinct;
    if ts == [] {
      NoneDistinct();
    } else {
      var rest := ts[1..];
      AllDistinctIff(rest);
      DistinctAppend(Paths(ts[0]), AllPaths(rest));
      assert forall i | 0 < i < |ts| :: ts[i] == rest[i - 1];
      assert forall i | 0 <= i < |rest| :: rest[i] == ts[i + 1];
      forall c
        ensures c in AllPaths(rest) <==> exists i | 0 <= i < |rest| :: c in Paths(rest[i])
      {
        AllPathsHold(rest, c);
      }
      assert Elements(Paths(ts[0])) !! Elements(AllPaths(rest)) <==>
             forall j | 0 < j < |ts| :: Elements(Paths(ts[0])) !! Elements(Paths(ts[j]));
    }
  }

  lemma NoneDistinct()
    ensures Distinct([])
  {
  }

  lemma {:induction false} DistinctIff(t: Tree)
    ensures Distinct(Paths(t)) <==> OncePlaced(t)
    decreases t
  {
    hide AllPaths, Distinct, OncePlaced, NodeAt;
    var ts := t.children;
    DistinctAppend([t.path], AllPaths(ts));
    Single(t.path);
    AllPathsHold(ts, t.path);
    AllDistinctIff(ts);
    forall i | 0 <= i < |ts|
      ensures Distinct(Paths(ts[i])) <==> OncePlaced(ts[i])
    {
      DistinctIff(ts[i]);
    }
    OnceIff(t);
  }

  /** Once placed: the root stands apart from the children's trees, and these from
      each other. */
  lemma OnceIff(t: Tree)
    ensures OncePlaced(t) <==>
            && (forall i | 0 <= i < |t.children| :: t.path !in Paths(t.children[i]))
            && (forall i | 0 <= i < |t.children| :: OncePlaced(t.children[i]))
            && (forall i, j | 0 <= i < j < |t.children| ::
                  Elements(Paths(t.children[i])) !! Elements(Paths(t.children[j])))
  {
    hide Paths, OncePlaced;
    if OncePlaced(t) { OnceGives(t); }
    if && (forall i | 0 <= i < |t.children| :: t.path !in Paths(t.children[i]))
       && (forall i | 0 <= i < |t.children| :: OncePlaced(t.children[i]))
       && (forall i, j | 0 <= i < j < |t.children| ::
             Elements(Paths(t.children[i])) !! Elements(Paths(t.children[j]))) {
      OnceFrom(t);
    }
  }

  lemma OnceGives(t: Tree)
    requires OncePlaced(t)
    ensures forall i | 0 <= i < |t.children| :: t.path !in Paths(t.children[i]) && OncePlaced(t.children[i])
    ensures forall i, j | 0 <= i < j < |t.children| ::
              Elements(Paths(t.children[i])) !! Elements(Paths(t.children[j]))
  {
    hide Paths;
    var root: Positions := [];
    assert NodeAt(t, root) == Some(t);
    forall i | 0 <= i < |t.children|
      ensures t.path !in Paths(t.children[i]) && OncePlaced(t.children[i])
    {
      PathsHold(t.children[i], t.path);
      if p: Positions :| NodeAt(t.children[i], p).Some? && NodeAt(t.children[i], p).value.path == t.path {
        Down(t, i, p);
      }
      OnceChild(t, i);
    }
    forall i, j | 0 <= i < j < |t.children|
      ensures Elements(Paths(t.children[i])) !! Elements(Paths(t.children[j]))
    {
      OnceApart(t, i, j);
    }
  }

  lemma OnceChild(t: Tree, i: nat)
    requires OncePlaced(t) && i < |t.children|
    ensures OncePlaced(t.children[i])
  {
    forall p: Positions, q: Positions | NodeAt(t.children[i], p).Some? && NodeAt(t.children[i], q).Some?
      && NodeAt(t.children[i], p).value.path == NodeAt(t.children[i], q).value.path
      ensures p == q
    {
      Down(t, i, p);
      Down(t, i, q);
      assert ([i] + p)[1..] == p && ([i] + q)[1..] == q;
    }
  }

  lemma OnceApart(t: Tree, i: nat, j: nat)
    requires OncePlaced(t) && i < j < |t.children|
    ensures Elements(Paths(t.children[i])) !! Elements(Paths(t.children[j]))
  {
    hide Paths;
    forall c | c in Paths(t.children[i])
      ensures c !in Paths(t.children[j])
    {
      PathsHold(t.children[i], c);
      PathsHold(t.children[j], c);
      var p: Positions :| NodeAt(t.children[i], p).Some? && NodeAt(t.children[i], p).value.path == c;
      Down(t, i, p);
      if q: Positions :| NodeAt(t.children[j], q).Some? && NodeAt(t.children[j], q).value.path == c {
        Down(t, j, q);
      }
    }
  }

  lemma Below(t: Tree, p: Positions)
    requires p != [] && NodeAt(t, p).Some?
    ensures p[0] < |t.children| && NodeAt(t.children[p[0]], p[1..]) == NodeAt(t, p)
    ensures NodeAt(t, p).value.path in Paths(t.children[p[0]])
  {
    hide Paths;
    PathHeld(t.children[p[0]], p[1..]);
  }

  lemma OnceFrom(t: Tree)
    requires forall i | 0 <= i < |t.children| :: t.path !in Paths(t.children[i]) && OncePlaced(t.children[i])
    requires forall i, j | 0 <= i < j < |t.children| ::
               Elements(Paths(t.children[i])) !! Elements(Paths(t.children[j]))
    ensures OncePlaced(t)
  {
    hide Paths;
    forall p: Positions, q: Positions | NodeAt(t, p).Some? && NodeAt(t, q).Some?
      && NodeAt(t, p).value.path == NodeAt(t, q).value.path
      ensures p == q
    {
      var c := NodeAt(t, p).value.path;
      if p != [] { Below(t, p); }
      if q != [] { Below(t, q); }
      if p != [] && q != [] {
        var i, j := p[0], q[0];
        assert c in Elements(Paths(t.children[i])) && c in Elements(Paths(t.children[j]));
        assert i == j;
        assert p == [i] + p[1..] && q == [j] + q[1..];
      }
    }
  }

  // ---- The whole condition -----------------------------------------------

  lemma {:induction false} NodeIsFile(files: Files, path: string, depth: nat, p: Positions)
    requires Unfolds(files, path, depth)
    ensures var t := Unfold(files, path, depth);
            && (NodeAt(t, p).Some? <==> FileAt(files, t.path, p).Some?)
            && (NodeAt(t, p).Some? ==> FileAt(files, t.path, p) == Some(NodeAt(t, p).value.path))
    decreases |p|
  {
    hide Unfold, Target;
    var t := Unfold(files, path, depth);
    UnfoldIs(files, path, depth);
    if p != [] && p[0] < |t.children| {
      var ref := files.decoded(t.path).value.refs[p[0]];
      TargetIsCanonical(files, RefPath(files, t.path, ref));
      NodeIsFile(files, RefPath(files, t.path, ref), depth + 1, p[1..]);
    }
  }

  /** The file at some positions below a path. */
  function FileFrom(files: Files, path: string, p: Positions): Option<string> {
    if files.canonical(path).None? then None else FileAt(files, files.canonical(path).value, p)
  }

  ghost predicate Reached(files: Files, path: string, c: string) {
    exists p: Positions :: FileFrom(files, path, p) == Some(c)
  }

  ghost predicate AllReached(files: Files, path: string, s: set<string>) {
    forall c | c in s :: Reached(files, path, c)
  }

  /** A workflow loads exactly when every reference in it is sound and at most 15
      deep, no file is reached twice, and at most 50 are. */
  lemma FitsIff(files: Files, path: string)
    ensures Fits(files, path, 1, {}) <==>
            && AllSound(files, path, 1)
            && (forall p: Positions, q: Positions | FileFrom(files, path, p).Some?
                  && FileFrom(files, path, p) == FileFrom(files, path, q) :: p == q)
            && (forall s: set<string> | AllReached(files, path, s) :: |s| <= 50)
  {
    hide AllSound, Unfolds, Unfold, Paths, Distinct, OncePlaced, FileAt, NodeAt;
    UnfoldsIff(files, path, 1);
    if Unfolds(files, path, 1) {
      var t := Unfold(files, path, 1);
      DistinctIff(t);
      PlacedIff(files, path);
      FilesOf(files, path);
      if Distinct(Paths(t)) {
        DistinctSize(Paths(t));
        SizesIff(files, path, Elements(Paths(t)));
      }
    }
  }

  lemma PlacedIff(files: Files, path: string)
    requires Unfolds(files, path, 1)
    ensures OncePlaced(Unfold(files, path, 1)) <==>
            forall p: Positions, q: Positions | FileFrom(files, path, p).Some?
              && FileFrom(files, path, p) == FileFrom(files, path, q) :: p == q
  {
    hide Unfold, FileAt, NodeAt;
    ReadHere(files, path, 1);
    forall p: Positions
      ensures var t := Unfold(files, path, 1);
              && (NodeAt(t, p).Some? <==> FileFrom(files, path, p).Some?)
              && (NodeAt(t, p).Some? ==> FileFrom(files, path, p) == Some(NodeAt(t, p).value.path))
    {
      NodeIsFile(files, path, 1, p);
    }
  }

  lemma FilesOf(files: Files, path: string)
    requires Unfolds(files, path, 1)
    ensures forall c :: c in Elements(Paths(Unfold(files, path, 1))) <==> Reached(files, path, c)
  {
    hide Unfold, FileAt, NodeAt, Paths;
    var t := Unfold(files, path, 1);
    ReadHere(files, path, 1);
    forall c
      ensures c in Elements(Paths(t)) <==> Reached(files, path, c)
    {
      PathsHold(t, c);
      if p: Positions :| NodeAt(t, p).Some? && NodeAt(t, p).value.path == c {
        NodeIsFile(files, path, 1, p);
        assert FileFrom(files, path, p) == Some(c);
      }
      if p: Positions :| FileFrom(files, path, p) == Some(c) {
        NodeIsFile(files, path, 1, p);
        assert NodeAt(t, p).Some? && NodeAt(t, p).value.path == c;
      }
    }
  }

  lemma SizesIff(files: Files, path: string, all: set<string>)
    requires forall c :: c in all <==> Reached(files, path, c)
    ensures |all| <= 50 <==> forall s: set<string> | AllReached(files, path, s) :: |s| <= 50
  {
    hide Reached;
    assert AllReached(files, path, all);
    forall s: set<string> | AllReached(files, path, s)
      ensures |s| <= |all|
    {
      SubsetSize(s, all);
    }
  }

  lemma {:induction false} SubsetSize(a: set<string>, b: set<string>)
    requires a <= b
    ensures |a| <= |b|
  {
    if a != {} {
      var x :| x in a;
      SubsetSize(a - {x}, b - {x});
    }
  }
}

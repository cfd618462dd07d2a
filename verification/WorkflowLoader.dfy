/** The depth-first loader over shared maps, proved against the unfolding of the
    references (internal/agentdef/workflow_loader.go). */
module WorkflowLoader {
  import opened Basics
  import opened Workflow
  import Walks = WorkflowTree

  datatype LoadError =
    | TooDeep(path: string)
    | NotYaml(path: string)
    | Unresolved(path: string)
    | Escapes(path: string)
    | Cyclic(chain: seq<string>)
    | Duplicate(path: string, first: string)
    | TooMany(path: string)
    | Unreadable(path: string)
    | AbsoluteRef(path: string, index: nat)

  datatype LoadResult = Success(doc: Document) | Failure(error: LoadError)

  /** The subtree at path fits beside what is already loaded or being loaded. */
  predicate Fits(files: Files, path: string, depth: nat, taken: set<string>) {
    && Unfolds(files, path, depth)
    && var paths := Paths(Unfold(files, path, depth));
    Distinct(paths) && Elements(paths) !! taken && |taken| + |paths| <= MAX_NODES
  }

  /** active maps each document on the stack to its position. */
  predicate ActiveIs(active: map<string, nat>, stack: seq<string>) {
    && active.Keys == Elements(stack)
    && forall i | 0 <= i < |stack| :: stack[i] in active && active[stack[i]] == i
  }

  // ---- How the children of one document add up ---------------------------

  /** The first i references are loaded as ts. */
  predicate Children(files: Files, from: string, refs: seq<Ref>, depth: nat, ts: seq<Tree>) {
    |ts| <= |refs| && forall k | 0 <= k < |ts| ::
      !files.isAbsolute(refs[k].configPath) && Unfolds(files, RefPath(files, from, refs[k]), depth)
      && ts[k] == Unfold(files, RefPath(files, from, refs[k]), depth)
  }

  lemma UnfoldChildren(files: Files, path: string, depth: nat)
    requires Unfolds(files, path, depth)
    ensures var t, c := Unfold(files, path, depth), Target(files, path).value;
            && t.path == c && |t.children| == |files.decoded(c).value.refs|
            && Children(files, c, files.decoded(c).value.refs, depth + 1, t.children)
  {
    var c := Target(files, path).value;
    assert RefsUnfold(files, c, files.decoded(c).value.refs, depth);
  }

  lemma FromChildren(files: Files, path: string, depth: nat, c: string, ts: seq<Tree>)
    requires depth <= MAX_DEPTH && Target(files, path) == Some(c) && files.decoded(c).Some?
    requires |ts| == |files.decoded(c).value.refs| && Children(files, c, files.decoded(c).value.refs, depth + 1, ts)
    ensures Unfolds(files, path, depth) && Unfold(files, path, depth) == Node(c, ts)
  {
    var refs := files.decoded(c).value.refs;
    assert RefsUnfold(files, c, refs, depth);
    UnfoldChildren(files, path, depth);
    assert Unfold(files, path, depth).children == ts;
  }

  /** If the whole subtree fits, the next child fits beside its elder siblings
      and the open document. */
  lemma NextChildFits(files: Files, path: string, depth: nat, taken: set<string>, c: string, ts: seq<Tree>)
    requires Fits(files, path, depth, taken) && Target(files, path) == Some(c) && files.decoded(c).Some?
    requires |ts| < |files.decoded(c).value.refs| && Children(files, c, files.decoded(c).value.refs, depth + 1, ts)
    ensures !files.isAbsolute(files.decoded(c).value.refs[|ts|].configPath)
    ensures Fits(files, RefPath(files, c, files.decoded(c).value.refs[|ts|]), depth + 1, taken + {c} +
            Elements(AllPaths(ts)))
  {
    hide Unfolds, Unfold, Paths, AllPaths, Distinct, Elements;
    UnfoldChildren(files, path, depth);
    var t := Unfold(files, path, depth);
    var i := |ts|;
    assert t.children[..i] == ts;
    AllPathsSplit(t.children, i);
    PathsOf(t);
    Spread(c, AllPaths(ts), Paths(t.children[i]), AllPaths(t.children[i + 1..]), taken);
  }

  lemma PathsOf(t: Tree)
    ensures Paths(t) == [t.path] + AllPaths(t.children)
  {
  }

  lemma Spread(c: string, b: seq<string>, mine: seq<string>, after: seq<string>, taken: set<string>)
    requires var all := [c] + (b + (mine + after));
             Distinct(all) && Elements(all) !! taken && |taken| + |all| <= MAX_NODES
    ensures Distinct(mine) && Elements(mine) !! taken + {c} + Elements(b)
    ensures |taken + {c} + Elements(b)| + |mine| <= MAX_NODES
  {
    hide Distinct, Elements;
    Single(c);
    DistinctAppend([c], b + (mine + after));
    DistinctAppend(b, mine + after);
    DistinctAppend(mine, after);
    ElementsAppend([c], b + (mine + after));
    ElementsAppend(b, mine + after);
    ElementsAppend(mine, after);
    DistinctSize(b);
    assert |taken + {c} + Elements(b)| == |taken| + 1 + |b|;
  }

  /** A child that fits extends the fitting prefix. */
  lemma Extend(c: string, done: seq<string>, mine: seq<string>, taken: set<string>)
    requires Distinct([c] + done) && Elements([c] + done) !! taken
    requires Distinct(mine) && Elements(mine) !! taken + {c} + Elements(done)
    requires |taken + {c} + Elements(done)| + |mine| <= MAX_NODES
    ensures Distinct([c] + (done + mine)) && Elements([c] + (done + mine)) !! taken
    ensures |taken| + |[c] + (done + mine)| <= MAX_NODES
  {
    hide Distinct, Elements;
    Single(c);
    DistinctAppend([c], done);
    DistinctAppend(done, mine);
    DistinctAppend([c], done + mine);
    ElementsAppend([c], done);
    ElementsAppend(done, mine);
    ElementsAppend([c], done + mine);
    DistinctSize(done);
    assert |taken + {c} + Elements(done)| == |taken| + 1 + |done|;
  }

  lemma FitsUnfolds(files: Files, path: string, depth: nat, taken: set<string>)
    requires Fits(files, path, depth, taken)
    ensures Unfolds(files, path, depth)
  {
  }

  lemma FitsNeeds(files: Files, path: string, depth: nat, taken: set<string>)
    requires Fits(files, path, depth, taken)
    ensures depth <= MAX_DEPTH && Target(files, path).Some? && files.decoded(Target(files, path).value).Some?
    ensures Target(files, path).value !in taken && |taken| < MAX_NODES
  {
    hide AllPaths;
    UnfoldChildren(files, path, depth);
    var t := Unfold(files, path, depth);
    assert t.path in Paths(t);
  }

  lemma ClosesCycle(files: Files, stack: seq<string>, active: map<string, nat>, path: string, c: string)
    requires ActiveIs(active, stack) && IsChain(files, stack) && c in active
    requires (stack != [] ==> Links(files, stack[|stack| - 1], path)) && files.canonical(path) == Some(c)
    ensures active[c] < |stack| && IsCycle(files, stack[active[c]..] + [c])
  {
    hide Links;
    var start := active[c];
    var i :| 0 <= i < |stack| && stack[i] == c;
    var chain := stack[start..] + [c];
    assert Edge(files, stack[|stack| - 1], c);
    forall k | 0 <= k < |chain| - 1
      ensures Edge(files, chain[k], chain[k + 1])
    {
      assert chain[k] == stack[start + k];
      assert k < |chain| - 2 ==> chain[k + 1] == stack[start + k + 1];
    }
  }

  lemma PushActive(files: Files, active: map<string, nat>, stack: seq<string>, path: string, c: string)
    requires ActiveIs(active, stack) && c !in active && IsChain(files, stack)
    requires (stack != [] ==> Links(files, stack[|stack| - 1], path)) && files.canonical(path) == Some(c)
    ensures ActiveIs(active[c := |stack|], stack + [c]) && IsChain(files, stack + [c])
  {
    hide Links;
    var stack' := stack + [c];
    assert stack != [] ==> Edge(files, stack[|stack| - 1], c);
    forall k | 0 <= k < |stack'| - 1
      ensures Edge(files, stack'[k], stack'[k + 1])
    {
      assert stack'[k] == stack[k];
    }
    assert Elements(stack') == Elements(stack) + {c};
  }

  /** What the child loop keeps: the first references are loaded as ts. */
  predicate Progress(files: Files, c: string, refs: seq<Ref>, depth: nat, taken: set<string>, ts: seq<Tree>,
                     refs': seq<Ref>) {
    && Children(files, c, refs, depth + 1, ts) && |refs'| == |ts|
    && (forall k | 0 <= k < |ts| :: refs'[k] == refs[k].(path := ts[k].path))
    && Distinct([c] + AllPaths(ts)) && Elements([c] + AllPaths(ts)) !! taken
    && |taken| + |[c] + AllPaths(ts)| <= MAX_NODES
  }

  lemma ProgressStep(files: Files, c: string, refs: seq<Ref>, depth: nat, taken: set<string>, ts: seq<Tree>,
                     refs': seq<Ref>)
    requires Progress(files, c, refs, depth, taken, ts, refs') && |ts| < |refs|
    requires !files.isAbsolute(refs[|ts|].configPath)
    requires Fits(files, RefPath(files, c, refs[|ts|]), depth + 1, taken + {c} + Elements(AllPaths(ts)))
    ensures var t := Unfold(files, RefPath(files, c, refs[|ts|]), depth + 1);
            Progress(files, c, refs, depth, taken, ts + [t], refs' + [refs[|ts|].(path := t.path)])
  {
    hide Unfolds, Unfold, Paths, AllPaths;
    var t := Unfold(files, RefPath(files, c, refs[|ts|]), depth + 1);
    AllPathsAppend(ts, t);
    Extend(c, AllPaths(ts), Paths(t), taken);
  }

  lemma ProgressDone(files: Files, path: string, depth: nat, c: string, taken: set<string>, ts: seq<Tree>,
                     refs': seq<Ref>)
    requires depth <= MAX_DEPTH && Target(files, path) == Some(c) && files.decoded(c).Some?
    requires Progress(files, c, files.decoded(c).value.refs, depth, taken, ts, refs')
    requires |ts| == |files.decoded(c).value.refs|
    ensures Fits(files, path, depth, taken) && Unfold(files, path, depth) == Node(c, ts)
    ensures Resolved(files, Node(c, ts)) == files.decoded(c).value.(path := c, refs := refs')
  {
    hide Unfolds, Unfold, Paths, AllPaths;
    FromChildren(files, path, depth, c, ts);
    PathsOf(Node(c, ts));
    assert Resolved(files, Node(c, ts)).refs == refs';
  }

  // ---- The loader --------------------------------------------------------

  /** What one load does to the document map and reports. */
  ghost predicate Outcome(files: Files, path: string, depth: nat, taken: set<string>, before: Documents,
                          after: Documents, r: LoadResult) {
    && (r.Success? <==> Fits(files, path, depth, taken))
    && (r.Success? ==>
          after == before + Loaded(files, Unfold(files, path, depth))
            && r.doc == Resolved(files, Unfold(files, path, depth)))
    && (r.Failure? ==> Grounded(files, r.error) && Repeats(r.error, after))
  }

  /** A document reported as a duplicate is one of those loaded. */
  predicate Repeats(error: LoadError, documents: Documents) {
    error.Duplicate? ==> error.first in documents && documents[error.first].path == error.first
  }

  /** A chain of references as long as the depth bound leads to path. */
  ghost predicate DeepChain(files: Files, chain: seq<string>, path: string) {
    |chain| == MAX_DEPTH && IsChain(files, chain) && Links(files, chain[MAX_DEPTH - 1], path)
  }

  /** As many other documents as the node bound allows. */
  ghost predicate ManyOthers(files: Files, others: set<string>, path: string) {
    |others| >= MAX_NODES && Target(files, path).Some? && Target(files, path).value !in others
    && forall c | c in others :: files.decoded(c).Some?
  }

  /** The files bear out the error: a cyclic chain is a genuine cycle, a path too
      deep ends a chain of references, one too many comes on top of 50 others. */
  ghost predicate Grounded(files: Files, error: LoadError) {
    match error
    case Cyclic(chain) => IsCycle(files, chain)
    case NotYaml(path) => !files.isYaml(path) || (files.canonical(path).Some?
      && !files.isYaml(files.canonical(path).value))
    case Unresolved(path) => files.canonical(path).None?
    case Escapes(path) => files.canonical(path).Some? && !files.inside(files.canonical(path).value)
    case Unreadable(path) => Target(files, path).Some? && files.decoded(Target(files, path).value).None?
    case AbsoluteRef(path, index) =>
      && Target(files, path).Some? && files.decoded(Target(files, path).value).Some?
      && index < |files.decoded(Target(files, path).value).value.refs|
      && files.isAbsolute(files.decoded(Target(files, path).value).value.refs[index].configPath)
    case Duplicate(path, first) => Target(files, path) == Some(first) && files.decoded(first).Some?
    case TooDeep(path) => exists chain :: DeepChain(files, chain, path)
    case TooMany(path) => exists others :: ManyOthers(files, others, path)
  }

  /** The state between two children of one document. */
  ghost predicate Midway(files: Files, c: string, refs: seq<Ref>, depth: nat, taken: set<string>, before: Documents,
                         documents: Documents, ts: seq<Tree>, refs': seq<Ref>) {
    Progress(files, c, refs, depth, taken, ts, refs') && documents == before + AllLoaded(files, ts)
  }

  lemma MidwayStart(files: Files, c: string, refs: seq<Ref>, depth: nat, taken: set<string>, documents: Documents)
    requires c !in taken && |taken| < MAX_NODES
    ensures Midway(files, c, refs, depth, taken, documents, documents, [], [])
  {
    ProgressStart(files, c, refs, depth, taken);
    LoadedNone(files, documents);
  }

  /** The next child loaded: the loop state advances. */
  lemma MidwayStep(files: Files, c: string, refs: seq<Ref>, depth: nat, taken: set<string>, before: Documents,
                   mid: Documents, after: Documents, ts: seq<Tree>, refs': seq<Ref>, r: LoadResult) returns (t: Tree)
    requires Midway(files, c, refs, depth, taken, before, mid, ts, refs') && |ts| < |refs|
    requires !files.isAbsolute(refs[|ts|].configPath) && r.Success?
    requires Outcome(files, RefPath(files, c, refs[|ts|]), depth + 1, taken + {c} + Elements(AllPaths(ts)), mid,
             after, r)
    ensures Midway(files, c, refs, depth, taken, before, after, ts + [t], refs' + [refs[|ts|].(path := r.doc.path)])
  {
    hide Progress, Loaded, AllLoaded, Fits, Resolved, Unfold, Unfolds;
    var path := RefPath(files, c, refs[|ts|]);
    FitsUnfolds(files, path, depth + 1, taken + {c} + Elements(AllPaths(ts)));
    t := Unfold(files, path, depth + 1);
    ProgressStep(files, c, refs, depth, taken, ts, refs');
    AddLoaded(files, before, ts, t);
    ResolvedPath(files, t);
  }

  /** A child that did not load, or may not be followed: neither does the parent. */
  lemma MidwayFails(files: Files, path: string, depth: nat, c: string, taken: set<string>, before: Documents,
                    mid: Documents, after: Documents, ts: seq<Tree>, refs': seq<Ref>, r: LoadResult)
    requires Target(files, path) == Some(c) && files.decoded(c).Some?
    requires Midway(files, c, files.decoded(c).value.refs, depth, taken, before, mid, ts, refs')
    requires |ts| < |files.decoded(c).value.refs|
    requires r.Failure?
    requires var ref := files.decoded(c).value.refs[|ts|];
             (files.isAbsolute(ref.configPath) && r.error == AbsoluteRef(path, |ts|))
             || Outcome(files, RefPath(files, c, ref), depth + 1, taken + {c} + Elements(AllPaths(ts)), mid, after, r)
    ensures Outcome(files, path, depth, taken, before, after, r)
  {
    hide Progress, Fits, Unfold, Unfolds, IsCycle, Target;
    if Fits(files, path, depth, taken) {
      ProgressNext(files, path, depth, taken, c, ts, refs');
    }
  }

  lemma MidwayDone(files: Files, path: string, depth: nat, c: string, taken: set<string>, before: Documents,
                   mid: Documents, ts: seq<Tree>, refs': seq<Ref>)
    requires depth <= MAX_DEPTH && Target(files, path) == Some(c) && files.decoded(c).Some?
    requires Midway(files, c, files.decoded(c).value.refs, depth, taken, before, mid, ts, refs')
    requires |ts| == |files.decoded(c).value.refs|
    ensures var doc := files.decoded(c).value.(path := c, refs := refs');
            Outcome(files, path, depth, taken, before, mid[c := doc], Success(doc))
  {
    hide Progress, Loaded, AllLoaded, Fits, Resolved, Unfold, Unfolds;
    ProgressDone(files, path, depth, c, taken, ts, refs');
    AddRoot(files, before, c, ts);
  }

  lemma NotLoaded(files: Files, path: string, depth: nat, taken: set<string>, documents: Documents, error: LoadError)
    requires !Fits(files, path, depth, taken) && Grounded(files, error) && Repeats(error, documents)
    ensures Outcome(files, path, depth, taken, documents, documents, Failure(error))
  {
    hide Fits, Grounded;
  }

  /** Every document is stored under its own path and was decoded from it. */
  predicate Stored(files: Files, documents: Documents) {
    forall c | c in documents :: documents[c].path == c && files.decoded(c).Some?
  }

  lemma {:induction false} LoadedStored(files: Files, t: Tree)
    requires Walks.Shaped(files, t)
    ensures Stored(files, Loaded(files, t))
    decreases t, 1
  {
    hide AllLoaded;
    AllLoadedStored(files, t.children);
  }

  lemma {:induction false} AllLoadedStored(files: Files, ts: seq<Tree>)
    requires forall i | 0 <= i < |ts| :: Walks.Shaped(files, ts[i])
    ensures Stored(files, AllLoaded(files, ts))
    decreases ts, 0
  {
    hide Loaded, Walks.Shaped;
    if ts != [] {
      LoadedStored(files, ts[0]);
      AllLoadedStored(files, ts[1..]);
    }
  }

  lemma MidwayStored(files: Files, c: string, refs: seq<Ref>, depth: nat, taken: set<string>, before: Documents,
                     documents: Documents, ts: seq<Tree>, refs': seq<Ref>)
    requires Midway(files, c, refs, depth, taken, before, documents, ts, refs') && Stored(files, before)
    ensures Stored(files, documents)
  {
    hide AllLoaded, Unfold, Unfolds, Walks.Shaped;
    forall i | 0 <= i < |ts|
      ensures Walks.Shaped(files, ts[i])
    {
      Walks.UnfoldShaped(files, RefPath(files, c, refs[i]), depth + 1);
    }
    AllLoadedStored(files, ts);
  }

  lemma DeepGround(files: Files, stack: seq<string>, path: string)
    requires |stack| == MAX_DEPTH && IsChain(files, stack) && Links(files, stack[|stack| - 1], path)
    ensures Grounded(files, TooDeep(path))
  {
    hide IsChain, Links;
    assert DeepChain(files, stack, path);
  }

  lemma ActiveDecoded(files: Files, active: map<string, nat>, stack: seq<string>, path: string, a: string)
    requires ActiveIs(active, stack) && IsChain(files, stack) && a in active
    requires stack != [] && Links(files, stack[|stack| - 1], path)
    ensures files.decoded(a).Some?
  {
    assert a in Elements(stack);
    var i :| 0 <= i < |stack| && stack[i] == a;
    if i < |stack| - 1 {
      EdgeDecoded(files, stack, i);
    }
  }

  lemma NotEmpty(active: map<string, nat>, stack: seq<string>, a: string)
    requires ActiveIs(active, stack) && a in active
    ensures stack != []
  {
  }

  lemma EdgeDecoded(files: Files, stack: seq<string>, i: nat)
    requires IsChain(files, stack) && i < |stack| - 1
    ensures files.decoded(stack[i]).Some?
  {
    assert Edge(files, stack[i], stack[i + 1]);
  }

  lemma FullGround(files: Files, documents: Documents, active: map<string, nat>, stack: seq<string>, path: string,
                   c: string)
    requires Stored(files, documents) && ActiveIs(active, stack) && IsChain(files, stack)
    requires (stack != [] ==> Links(files, stack[|stack| - 1], path)) && Target(files, path) == Some(c)
    requires c !in documents && c !in active && |documents.Keys + active.Keys| >= MAX_NODES
    ensures Grounded(files, TooMany(path))
  {
    hide Target, ActiveIs, IsChain, Links;
    forall a | a in active
      ensures files.decoded(a).Some?
    {
      NotEmpty(active, stack, a);
      ActiveDecoded(files, active, stack, path, a);
    }
    assert ManyOthers(files, documents.Keys + active.Keys, path);
  }

  lemma NoRepeat(error: LoadError, documents: Documents)
    requires !error.Duplicate?
    ensures Repeats(error, documents)
  {
  }

  lemma GroundedHere(files: Files, documents: Documents, path: string, c: string)
    requires Target(files, path) == Some(c) && Stored(files, documents)
    ensures c in documents ==>
              documents[c].path == c && Grounded(files, Duplicate(path, c)) && Repeats(Duplicate(path, c), documents)
    ensures files.decoded(c).None? ==> Grounded(files, Unreadable(path))
    ensures forall chain :: IsCycle(files, chain) ==> Grounded(files, Cyclic(chain))
  {
    hide Target, IsCycle;
  }

  datatype Located = Located(canonical: string) | Misplaced(error: LoadError)

  /** The checks on a path before anything is read. */
  method Locate(files: Files, path: string, depth: nat) returns (r: Located)
    ensures r.Located? ==> depth <= MAX_DEPTH && Target(files, path) == files.canonical(path) == Some(r.canonical)
    ensures r.Misplaced? ==> if depth > MAX_DEPTH then r.error == TooDeep(path)
                             else Target(files, path).None? && Grounded(files, r.error) && !r.error.Duplicate?
  {
    if depth > MAX_DEPTH { return Misplaced(TooDeep(path)); }
    if !files.isYaml(path) { return Misplaced(NotYaml(path)); }
    if files.canonical(path).None? { return Misplaced(Unresolved(path)); }
    var c := files.canonical(path).value;
    if !files.isYaml(c) { return Misplaced(NotYaml(path)); }
    if !files.inside(c) { return Misplaced(Escapes(path)); }
    return Located(c);
  }

  class Loader {
    var documents: Documents
    var active: map<string, nat>

    constructor ()
      ensures documents == map[] && active == map[]
    {
      documents, active := map[], map[];
    }

    /** loadWorkflowDocument. It succeeds exactly when the subtree fits; a reported
        cyclic chain is a genuine cycle; active is restored on every path. */
    method Load(files: Files, path: string, stack: seq<string>, depth: nat) returns (r: LoadResult)
      requires ActiveIs(active, stack) && documents.Keys !! active.Keys
      requires IsChain(files, stack) && (stack != [] ==> Links(files, stack[|stack| - 1], path))
      requires |stack| + 1 == depth <= MAX_DEPTH + 1 && Stored(files, documents)
      modifies this
      ensures active == old(active)
      ensures Outcome(files, path, depth, old(documents.Keys + active.Keys), old(documents), documents, r)
      decreases MAX_DEPTH + 1 - depth, 1
    {
      hide Unfold, Loaded, Resolved, Fits, IsChain, IsCycle, Links, Target, Outcome, Grounded, ActiveIs, Stored,
        Repeats;
      ghost var taken := documents.Keys + active.Keys;
      if Fits(files, path, depth, taken) { FitsNeeds(files, path, depth, taken); }
      var located := Locate(files, path, depth);
      if located.Misplaced? {
        if depth > MAX_DEPTH { DeepGround(files, stack, path); }
        NoRepeat(located.error, documents);
        NotLoaded(files, path, depth, taken, documents, located.error);
        return Failure(located.error);
      }
      var c := located.canonical;
      GroundedHere(files, documents, path, c);
      if c in active {
        ClosesCycle(files, stack, active, path, c);
        r := Failure(Cyclic(stack[active[c]..] + [c]));
        NoRepeat(r.error, documents);
      } else if c in documents {
        r := Failure(Duplicate(path, documents[c].path));
      } else if |documents| + |active| >= MAX_NODES {
        assert |documents.Keys + active.Keys| == |documents| + |active|;
        FullGround(files, documents, active, stack, path, c);
        r := Failure(TooMany(path));
        NoRepeat(r.error, documents);
      } else if files.decoded(c).None? {
        r := Failure(Unreadable(path));
        NoRepeat(r.error, documents);
      } else {
        assert |documents.Keys + active.Keys| == |documents| + |active|;
        r := LoadChildren(files, path, c, stack, depth);
        return;
      }
      NotLoaded(files, path, depth, taken, documents, r.error);
    }

    method LoadChildren(files: Files, path: string, c: string, stack: seq<string>, depth: nat) returns (r: LoadResult)
      requires ActiveIs(active, stack) && documents.Keys !! active.Keys
      requires IsChain(files, stack) && (stack != [] ==> Links(files, stack[|stack| - 1], path))
      requires |stack| + 1 == depth && Stored(files, documents)
      requires depth <= MAX_DEPTH && Target(files, path) == Some(c)
      requires files.canonical(path) == Some(c) && files.decoded(c).Some?
      requires c !in active && c !in documents && |documents.Keys + active.Keys| < MAX_NODES
      modifies this
      ensures active == old(active)
      ensures Outcome(files, path, depth, old(documents.Keys + active.Keys), old(documents), documents, r)
      decreases MAX_DEPTH + 1 - depth, 0
    {
      hide *;
      var doc := files.decoded(c).value;
      ghost var documents0, active0, taken := documents, active, documents.Keys + active.Keys;
      PushActive(files, active, stack, path, c);
      MapRestore(active, c, |stack|);
      active := active[c := |stack|];
      var refs: seq<Ref> := [];
      ghost var ts: seq<Tree> := [];
      MidwayStart(files, c, doc.refs, depth, taken, documents);
      for i := 0 to |doc.refs|
        invariant |ts| == i && active == active0[c := |stack|]
        invariant Midway(files, c, doc.refs, depth, taken, documents0, documents, ts, refs)
      {
        var ref := doc.refs[i];
        ghost var mid := documents;
        if files.isAbsolute(ref.configPath) {
          active := active - {c};
          r := Failure(AbsoluteRef(path, i));
          MidwayFails(files, path, depth, c, taken, documents0, mid, documents, ts, refs, r);
          return;
        }
        TakenNow(files, c, doc.refs, depth, taken, ts, refs, documents0, active0, |stack|, mid);
        LinksTo(files, c, i);
        MidwayStored(files, c, doc.refs, depth, taken, documents0, mid, ts, refs);
        r := Load(files, RefPath(files, c, ref), stack + [c], depth + 1);
        if r.Failure? {
          active := active - {c};
          MidwayFails(files, path, depth, c, taken, documents0, mid, documents, ts, refs, r);
          return;
        }
        ghost var t := MidwayStep(files, c, doc.refs, depth, taken, documents0, mid, documents, ts, refs, r);
        refs := refs + [ref.(path := r.doc.path)];
        ts := ts + [t];
      }
      MidwayDone(files, path, depth, c, taken, documents0, documents, ts, refs);
      doc := doc.(path := c, refs := refs);
      documents := documents[c := doc];
      active := active - {c};
      return Success(doc);
    }
  }

  lemma AddLoaded(files: Files, documents0: Documents, ts: seq<Tree>, t: Tree)
    ensures documents0 + AllLoaded(files, ts) + Loaded(files, t) == documents0 + AllLoaded(files, ts + [t])
  {
    hide AllLoaded, Loaded;
    AllLoadedAppend(files, ts, t);
    MapAssoc(documents0, AllLoaded(files, ts), Loaded(files, t));
  }

  lemma AddRoot(files: Files, documents0: Documents, c: string, ts: seq<Tree>)
    ensures (documents0 + AllLoaded(files, ts))[c := Resolved(files, Node(c, ts))] ==
            documents0 + Loaded(files, Node(c, ts))
  {
    hide AllLoaded, Loaded, Resolved;
    LoadedNode(files, c, ts);
    MapUpdate(documents0, AllLoaded(files, ts), c, Resolved(files, Node(c, ts)));
  }

  lemma LinksTo(files: Files, c: string, i: nat)
    requires files.decoded(c).Some? && i < |files.decoded(c).value.refs|
    ensures Links(files, c, RefPath(files, c, files.decoded(c).value.refs[i]))
  {
  }

  lemma ResolvedPath(files: Files, t: Tree)
    ensures Resolved(files, t).path == t.path
  {
  }

  lemma ProgressStart(files: Files, c: string, refs: seq<Ref>, depth: nat, taken: set<string>)
    requires c !in taken && |taken| < MAX_NODES
    ensures Progress(files, c, refs, depth, taken, [], [])
  {
    assert [c] + AllPaths([]) == [c];
  }

  lemma ProgressNext(files: Files, path: string, depth: nat, taken: set<string>, c: string, ts: seq<Tree>,
                     refs': seq<Ref>)
    requires Fits(files, path, depth, taken) && Target(files, path) == Some(c) && files.decoded(c).Some?
    requires Progress(files, c, files.decoded(c).value.refs, depth, taken, ts, refs')
    requires |ts| < |files.decoded(c).value.refs|
    ensures !files.isAbsolute(files.decoded(c).value.refs[|ts|].configPath)
    ensures Fits(files, RefPath(files, c, files.decoded(c).value.refs[|ts|]), depth + 1, taken + {c} +
            Elements(AllPaths(ts)))
  {
    hide Fits;
    NextChildFits(files, path, depth, taken, c, ts);
  }

  /** The names in use when the next child is loaded. */
  lemma TakenNow(files: Files, c: string, refs: seq<Ref>, depth: nat, taken: set<string>, ts: seq<Tree>,
                 refs': seq<Ref>,
                 documents0: Documents, active0: map<string, nat>, position: nat, documents: Documents)
    requires Midway(files, c, refs, depth, taken, documents0, documents, ts, refs')
    requires taken == documents0.Keys + active0.Keys
    requires documents0.Keys !! active0.Keys && c !in taken
    ensures var active := active0[c := position];
            documents.Keys !! active.Keys && documents.Keys + active.Keys == taken + {c} + Elements(AllPaths(ts))
  {
    hide AllPaths, Children, Distinct, Elements, AllLoaded;
    AllLoadedKeys(files, ts);
    Single(c);
    DistinctAppend([c], AllPaths(ts));
    ElementsAppend([c], AllPaths(ts));
    TakenSets(documents0.Keys, active0.Keys, Elements(AllPaths(ts)), c);
    MapSumKeys(documents0, AllLoaded(files, ts));
    MapRestore(active0, c, position);
  }

  lemma TakenSets(documents: set<string>, active: set<string>, loaded: set<string>, c: string)
    requires documents !! active && c !in documents + active && c !in loaded && loaded !! documents + active
    ensures documents + loaded !! active + {c}
    ensures documents + loaded + (active + {c}) == documents + active + {c} + loaded
  {
  }
}

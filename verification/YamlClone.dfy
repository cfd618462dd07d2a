/** Copying a graph of nodes: content children, and alias edges that may share
    and close cycles (cloneNodeWithMemo in internal/config/yaml.go). */
module YamlClone {
  import opened Basics
  import opened YamlTree
  import opened YamlNode

  ghost predicate Closed(nodes: set<Node>)
    reads nodes
  {
    forall n | n in nodes :: (n.alias == null || n.alias in nodes) && ChildrenIn(n, nodes)
  }

  ghost predicate ChildrenIn(n: Node, nodes: set<Node>)
    reads n
  {
    forall i | 0 <= i < |n.content| :: n.content[i] == null || n.content[i] in nodes
  }

  /** The nodes reachable from root: the least closed set that holds it. */
  ghost predicate Reachable(root: Node, nodes: set<Node>)
    reads nodes
  {
    root in nodes && Closed(nodes) && forall part | part <= nodes && root in part && Closed(part) :: part == nodes
  }

  ghost predicate Injective(memo: map<Node, Node>) {
    forall m, n | m in memo && n in memo && m != n :: memo[m] != memo[n]
  }

  /** The copy stands for the original: both absent, or paired in the memo. */
  ghost predicate Stands(memo: map<Node, Node>, original: Node?, copy: Node?) {
    if original == null then copy == null else original in memo && memo[original] == copy
  }

  /** copy has the payload of n, and its edges lead to the copies. */
  ghost predicate Finished(memo: map<Node, Node>, n: Node, copy: Node)
    reads n`kind, n`tag, n`value, n`look, n`content, n`alias
    reads copy`kind, copy`tag, copy`value, copy`look, copy`content, copy`alias
  {
    SamePayload(n, copy) && Stands(memo, n.alias, copy.alias) && CopiesContent(memo, n, copy, |n.content|)
  }

  ghost predicate CopiesContent(memo: map<Node, Node>, n: Node, copy: Node, upTo: nat)
    reads n`content, copy`content
  {
    upTo <= |n.content| && |copy.content| == upTo
    && forall i | 0 <= i < upTo :: Stands(memo, n.content[i], copy.content[i])
  }

  ghost predicate Extends(before: map<Node, Node>, after: map<Node, Node>) {
    forall n | n in before :: n in after && after[n] == before[n]
  }

  /** The memo maps nodes of the graph, one to one, to copies outside it. */
  ghost predicate Sound(memo: map<Node, Node>, nodes: set<Node>) {
    memo.Keys <= nodes && Injective(memo) && memo.Values !! nodes
  }

  lemma FinishedExtends(before: map<Node, Node>, after: map<Node, Node>, n: Node, copy: Node)
    requires Finished(before, n, copy) && Extends(before, after)
    ensures Finished(after, n, copy)
  {
  }

  lemma ContentExtends(before: map<Node, Node>, after: map<Node, Node>, n: Node, copy: Node, i: nat)
    requires CopiesContent(before, n, copy, i) && Extends(before, after)
    ensures CopiesContent(after, n, copy, i)
  {
  }

  class Cloner {
    var memo: map<Node, Node>

    constructor ()
      ensures memo == map[]
    {
      memo := map[];
    }

    /** cloneNodeWithMemo. It ends on every graph: each call that goes deeper has
        first put a new node of the graph into the memo. */
    method CloneNode(node: Node?, ghost nodes: set<Node>) returns (copy: Node?)
      requires Closed(nodes) && Sound(memo, nodes) && (node != null ==> node in nodes)
      modifies this
      ensures Extends(old(memo), memo) && Sound(memo, nodes) && Stands(memo, node, copy)
      ensures forall n | n in memo && n !in old(memo) :: fresh(memo[n]) && Finished(memo, n, memo[n])
      ensures node == null ==> memo == old(memo)
      decreases nodes - memo.Keys, 0
    {
      hide CopiesContent, Finished;
      if node == null { return null; }
      if node in memo { return memo[node]; }
      ghost var before := memo;
      var fresh_ := new Node.Like(node);
      memo := memo[node := fresh_];
      SoundNew(before, nodes, node, fresh_);
      assert node in nodes - before.Keys;
      Fill(node, fresh_, nodes);
      copy := fresh_;
    }

    /** The edges of the copy, content first, then the alias. */
    method Fill(node: Node, copy: Node, ghost nodes: set<Node>)
      requires Closed(nodes) && Sound(memo, nodes) && node in nodes && node in memo && memo[node] == copy
      requires copy.content == [] && copy.alias == null && SamePayload(node, copy)
      modifies this, copy
      ensures Extends(old(memo), memo) && Sound(memo, nodes)
      ensures forall n | n in memo && n !in old(memo) :: fresh(memo[n]) && Finished(memo, n, memo[n])
      ensures Finished(memo, node, copy)
      decreases nodes - memo.Keys, 2
    {
      hide CopiesContent, Closed, Finished;
      assert copy in memo.Values;
      NoContent(memo, node, copy);
      ghost var start := memo;
      for i := 0 to |node.content|
        invariant Extends(start, memo) && Sound(memo, nodes) && Closed(nodes) && node.content == old(node.content)
        invariant CopiesContent(memo, node, copy, i) && copy.alias == null && SamePayload(node, copy)
        invariant forall n | n in memo && n !in start :: fresh(memo[n]) && Finished(memo, n, memo[n])
      {
        ghost var mid := memo;
        CloneChild(node, copy, i, nodes);
        forall n | n in mid && n !in start
          ensures Finished(memo, n, memo[n])
        {
          assert mid[n] != mid[node];
          assert Finished(mid, n, mid[n]);
          FinishedExtends(mid, memo, n, mid[n]);
        }
      }
      ghost var mid := memo;
      CloneAlias(node, copy, nodes);
      forall n | n in mid && n !in start
        ensures Finished(memo, n, memo[n])
      {
        assert mid[n] != mid[node];
        assert Finished(mid, n, mid[n]);
        FinishedExtends(mid, memo, n, mid[n]);
      }
    }

    method CloneAlias(node: Node, copy: Node, ghost nodes: set<Node>)
      requires Closed(nodes) && Sound(memo, nodes) && node in nodes
      requires node in memo && memo[node] == copy && SamePayload(node, copy)
      requires CopiesContent(memo, node, copy, |node.content|) && copy.alias == null
      modifies this, copy`alias
      ensures Extends(old(memo), memo) && Sound(memo, nodes) && Finished(memo, node, copy)
      ensures forall n | n in memo && n !in old(memo) :: fresh(memo[n]) && Finished(memo, n, memo[n])
      decreases nodes - memo.Keys, 1
    {
      hide Injective, CopiesContent;
      assert copy in memo.Values;
      ghost var before := memo;
      var alias := CloneNode(node.alias, nodes);
      ContentExtends(before, memo, node, copy, |node.content|);
      copy.alias := alias;
    }

    method CloneChild(node: Node, copy: Node, i: nat, ghost nodes: set<Node>)
      requires Closed(nodes) && Sound(memo, nodes) && node in nodes && node in memo && memo[node] == copy
      requires i < |node.content| && CopiesContent(memo, node, copy, i)
      modifies this, copy`content
      ensures Extends(old(memo), memo) && Sound(memo, nodes) && CopiesContent(memo, node, copy, i + 1)
      ensures forall n | n in memo && n !in old(memo) :: fresh(memo[n]) && Finished(memo, n, memo[n])
      decreases nodes - memo.Keys, 1
    {
      hide Closed, Finished, Injective;
      assert copy in memo.Values;
      ghost var before := memo;
      ChildIn(node, nodes, i);
      var child := CloneNode(node.content[i], nodes);
      ContentExtends(before, memo, node, copy, i);
      copy.content := copy.content + [child];
    }
  }

  lemma ChildIn(n: Node, nodes: set<Node>, i: nat)
    requires Closed(nodes) && n in nodes && i < |n.content|
    ensures n.content[i] == null || n.content[i] in nodes
  {
    assert ChildrenIn(n, nodes);
  }

  lemma SoundNew(before: map<Node, Node>, nodes: set<Node>, node: Node, copy: Node)
    requires Sound(before, nodes) && node in nodes && copy !in nodes && copy !in before.Values
    ensures Sound(before[node := copy], nodes)
  {
    var after := before[node := copy];
    assert forall n | n in before :: before[n] in before.Values;
    assert after.Values <= before.Values + {copy};
  }

  lemma NoContent(memo: map<Node, Node>, n: Node, copy: Node)
    requires copy.content == []
    ensures CopiesContent(memo, n, copy, 0)
  {
  }

  // ---- The whole graph ---------------------------------------------------

  /** Every closed set holding root contains the nodes reachable from it. */
  lemma {:induction false} LeastClosed(root: Node, all: set<Node>) returns (nodes: set<Node>)
    requires Closed(all) && root in all
    ensures nodes <= all && Reachable(root, nodes)
    decreases all
  {
    if part :| part < all && root in part && Closed(part) {
      nodes := LeastClosed(root, part);
    } else {
      nodes := all;
    }
  }

  /** A copy of the graph that pairs its nodes one to one with new ones. */
  ghost predicate Isomorphic(image: map<Node, Node>)
    reads image.Keys, image.Values
  {
    Injective(image) && image.Values !! image.Keys && forall n | n in image :: Finished(image, n, image[n])
  }

  /** Copies show the trees of their originals, over the copies of their nodes. */
  ghost predicate Settled(image: map<Node, Node>)
    reads image.Keys, image.Values
  {
    forall n | n in image :: image[n].tree == n.tree && image[n].repr == Copies(image, n.repr)
  }

  ghost function Copies(image: map<Node, Node>, nodes: set<Node>): set<Node> {
    set n | n in nodes && n in image :: image[n]
  }

  ghost method SetTrees(image: map<Node, Node>)
    requires Isomorphic(image)
    modifies image.Values`tree
    ensures Isomorphic(image) && forall n | n in image :: image[n].tree == n.tree
  {
    hide Finished;
    assert forall n | n in image :: image[n] in image.Values && n !in image.Values;
    forall n | n in image { image[n].tree := n.tree; }
  }

  ghost method SetReprs(image: map<Node, Node>)
    requires Isomorphic(image)
    modifies image.Values`repr
    ensures Isomorphic(image) && forall n | n in image :: image[n].repr == Copies(image, n.repr)
  {
    hide Finished, Copies;
    assert forall n | n in image :: image[n] in image.Values && n !in image.Values;
    forall n | n in image { image[n].repr := Copies(image, n.repr); }
  }

  ghost method Settle(image: map<Node, Node>)
    requires Isomorphic(image)
    modifies image.Values`tree, image.Values`repr
    ensures Isomorphic(image) && Settled(image)
  {
    hide Finished, Copies, Injective;
    SetTrees(image);
    SetReprs(image);
  }

  lemma ChildStands(image: map<Node, Node>, n: Node, i: nat)
    requires Isomorphic(image) && n in image && i < |n.content| && n.content[i] != null
    ensures n.content[i] in image && |image[n].content| == |n.content| && image[n].content[i] == image[n.content[i]]
  {
    assert Finished(image, n, image[n]);
    assert Stands(image, n.content[i], image[n].content[i]);
  }

  lemma CopiesWithin(image: map<Node, Node>, part: set<Node>, whole: set<Node>)
    requires part <= whole
    ensures Copies(image, part) <= Copies(image, whole)
  {
  }

  lemma CopiesApart(image: map<Node, Node>, a: set<Node>, b: set<Node>)
    requires a !! b && Injective(image)
    ensures Copies(image, a) !! Copies(image, b)
  {
  }

  lemma ChildCopied(image: map<Node, Node>, n: Node, i: nat)
    requires Isomorphic(image) && Settled(image) && n in image && n.Valid() && i < |n.content|
    ensures n.content[i] != null && n.content[i] in image && n.content[i].Valid() && n.content[i].repr < n.repr
    ensures var copy, child := image[n], image[n.content[i]];
            && i < |copy.content| && copy.content[i] == child && child in copy.repr && child.repr <= copy.repr
            && copy !in child.repr && child.repr == Copies(image, n.content[i].repr)
            && i < |copy.tree.content| && child.tree == copy.tree.content[i]
  {
    hide Finished;
    var child := n.content[i];
    ChildStands(image, n, i);
    CopiesWithin(image, child.repr, n.repr);
    assert n in n.repr && n !in child.repr;
    assert image[n] !in Copies(image, child.repr);
  }

  lemma CopyShows(image: map<Node, Node>, n: Node)
    requires Isomorphic(image) && Settled(image) && n in image && n.Valid()
    ensures image[n].Shows() && image[n] in image[n].repr && |image[n].content| == |n.content|
  {
    assert Finished(image, n, image[n]);
  }

  /** The copy of a tree is a tree and shows the same. */
  lemma {:induction false} CopyIsTree(image: map<Node, Node>, n: Node)
    requires Isomorphic(image) && Settled(image) && n in image && n.Valid()
    ensures image[n].Valid()
    decreases n.repr
  {
    hide Settled, Isomorphic, Finished, Copies;
    var copy := image[n];
    CopyShows(image, n);
    forall i | 0 <= i < |copy.content|
      ensures copy.content[i] != null && copy.content[i] in copy.repr && copy.content[i].repr <= copy.repr
      ensures copy !in copy.content[i].repr && copy.content[i].tree == copy.tree.content[i] && copy.content[i].Valid()
    {
      ChildCopied(image, n, i);
      CopyIsTree(image, n.content[i]);
    }
    forall i, j | 0 <= i < j < |copy.content|
      ensures copy.content[i].repr !! copy.content[j].repr
    {
      ChildCopied(image, n, i);
      ChildCopied(image, n, j);
      OneToOne(image);
      CopiesApart(image, n.content[i].repr, n.content[j].repr);
    }
  }

  lemma OneToOne(image: map<Node, Node>)
    requires Isomorphic(image)
    ensures Injective(image)
  {
  }

  method CopyGraph(root: Node, ghost all: set<Node>) returns (copy: Node, ghost image: map<Node, Node>)
    requires Closed(all) && root in all
    ensures root in image && image[root] == copy
    ensures Reachable(root, image.Keys) && Isomorphic(image) && fresh(image.Values)
  {
    ghost var nodes := LeastClosed(root, all);
    var cloner := new Cloner();
    Empty(nodes);
    var cloned := cloner.CloneNode(root, nodes);
    copy, image := cloned, cloner.memo;
    MemoClosed(image);
    assert image.Keys == nodes;
  }

  /** cloneNode. The copy is disjoint from the original and isomorphic to it, and
      where the content edges form a tree it shows the same tree. */
  method CloneGraph(root: Node, ghost all: set<Node>) returns (copy: Node, ghost image: map<Node, Node>)
    requires Closed(all) && root in all
    ensures root in image && image[root] == copy
    ensures Reachable(root, image.Keys) && Isomorphic(image) && fresh(image.Values)
    ensures root.Valid() ==> copy.Valid() && copy.tree == root.tree && fresh(copy.repr)
  {
    hide Isomorphic, Reachable, Copies;
    copy, image := CopyGraph(root, all);
    ghost var valid := root.Valid();
    Settle(image);
    if valid {
      CopyIsTree(image, root);
      CopiesAre(image, root.repr);
    }
  }

  lemma CopiesAre(image: map<Node, Node>, nodes: set<Node>)
    ensures Copies(image, nodes) <= image.Values
  {
  }

  lemma Empty(nodes: set<Node>)
    ensures Sound(map[], nodes)
  {
  }

  lemma MemoClosed(memo: map<Node, Node>)
    requires forall n | n in memo :: Finished(memo, n, memo[n])
    ensures Closed(memo.Keys)
  {
    forall n | n in memo.Keys
      ensures (n.alias == null || n.alias in memo.Keys) && ChildrenIn(n, memo.Keys)
    {
      assert Finished(memo, n, memo[n]);
      forall i | 0 <= i < |n.content|
        ensures n.content[i] == null || n.content[i] in memo.Keys
      {
        assert Stands(memo, n.content[i], memo[n].content[i]);
      }
    }
  }

  // ---- Paths through the graph and through its copy ----------------------

  datatype Step = Child(index: nat) | Alias

  ghost function Next(n: Node, step: Step): Node?
    reads n
  {
    match step
    case Child(i) => if i < |n.content| then n.content[i] else null
    case Alias => n.alias
  }

  /** Where a path of edges leads; null when it leaves the graph. */
  ghost function Walk(n: Node?, path: seq<Step>, nodes: set<Node>): Node?
    reads nodes
    decreases path
  {
    if n == null || n !in nodes then null
    else if path == [] then n
    else Walk(Next(n, path[0]), path[1..], nodes)
  }

  lemma NextImage(image: map<Node, Node>, n: Node, step: Step)
    requires Isomorphic(image) && n in image
    ensures Stands(image, Next(n, step), Next(image[n], step))
  {
    assert Finished(image, n, image[n]);
  }

  ghost function Image(image: map<Node, Node>, n: Node?): Node? {
    if n == null || n !in image then null else image[n]
  }

  /** Every path leads in the copy to the copy of where it leads. */
  lemma {:induction false} WalkImage(image: map<Node, Node>, n: Node?, path: seq<Step>)
    requires Isomorphic(image) && (n != null ==> n in image)
    ensures Walk(Image(image, n), path, image.Values) == Image(image, Walk(n, path, image.Keys))
    decreases path
  {
    hide Isomorphic, Finished;
    if n != null && path != [] {
      NextImage(image, n, path[0]);
      WalkImage(image, Next(n, path[0]), path[1..]);
    }
  }

  /** Sharing is preserved: two paths meet in the copy exactly when they meet in
      the original. */
  lemma MeetIff(image: map<Node, Node>, root: Node, p: seq<Step>, q: seq<Step>)
    requires Isomorphic(image) && root in image
    ensures Walk(image[root], p, image.Values) == Walk(image[root], q, image.Values) <==>
            Walk(root, p, image.Keys) == Walk(root, q, image.Keys)
  {
    WalkImage(image, root, p);
    WalkImage(image, root, q);
    WalkStays(root, p, image.Keys);
    WalkStays(root, q, image.Keys);
  }

  lemma {:induction false} WalkStays(n: Node?, path: seq<Step>, nodes: set<Node>)
    ensures Walk(n, path, nodes) == null || Walk(n, path, nodes) in nodes
    decreases path
  {
    if n != null && n in nodes && path != [] {
      WalkStays(Next(n, path[0]), path[1..], nodes);
    }
  }
}

/** Nodes of a document: mapping entries are found, replaced, removed and
    appended in place (internal/config/yaml.go). */
module YamlNode {
  import opened Basics
  import opened YamlTree

  // ---- Positions in mapping content --------------------------------------

  /** The first entry named so starts at i. */
  predicate FirstAt(c: seq<Tree>, name: string, i: nat) {
    i % 2 == 0 && i + 1 < |c| && c[i].value == name && NotBefore(c, name, i)
  }

  predicate NotBefore(c: seq<Tree>, name: string, i: nat) {
    forall j | 0 <= j < i && j < |c| && j % 2 == 0 :: c[j].value != name
  }

  lemma {:induction false} FirstIsGot(c: seq<Tree>, name: string, i: nat)
    requires FirstAt(c, name, i)
    ensures Get(c, name) == Some(c[i + 1]) && KeyNode(c, name) == c[i]
  {
    if i > 0 {
      FirstInRest(c, name, i);
      FirstIsGot(c[2..], name, i - 2);
    }
  }

  lemma {:induction false} FirstIsPut(c: seq<Tree>, name: string, i: nat, value: Tree)
    requires FirstAt(c, name, i)
    ensures Put(c, name, value) == c[i + 1 := value]
  {
    hide NotBefore;
    if i > 0 {
      FirstInRest(c, name, i);
      FirstIsPut(c[2..], name, i - 2, value);
      assert c[..2] + c[2..][i - 1 := value] == c[i + 1 := value];
    } else {
      assert [c[0], value] + c[2..] == c[1 := value];
    }
  }

  lemma {:induction false} FirstIsRemoved(c: seq<Tree>, name: string, i: nat)
    requires FirstAt(c, name, i)
    ensures Remove(c, name) == c[..i] + c[i + 2..]
  {
    hide NotBefore;
    if i > 0 {
      FirstInRest(c, name, i);
      FirstIsRemoved(c[2..], name, i - 2);
      Splice(c, i);
    }
  }

  lemma Splice<T>(c: seq<T>, i: nat)
    requires 2 <= i <= |c| - 2
    ensures c[..2] + (c[2..][..i - 2] + c[2..][i..]) == c[..i] + c[i + 2..]
  {
  }

  lemma FirstInRest(c: seq<Tree>, name: string, i: nat)
    requires FirstAt(c, name, i) && i > 0
    ensures i >= 2 && c[0].value != name && FirstAt(c[2..], name, i - 2)
    ensures c[2..][i - 2] == c[i] && c[2..][i - 1] == c[i + 1]
  {
    assert forall j | 0 <= j < |c[2..]| :: c[2..][j] == c[j + 2];
  }

  lemma {:induction false} NowhereLaw(c: seq<Tree>, name: string, i: nat)
    requires NotBefore(c, name, i) && i + 1 >= |c|
    ensures Get(c, name).None?
    ensures Remove(c, name) == c && forall value :: Put(c, name, value) == c
  {
    if |c| >= 2 {
      var rest := c[2..];
      assert c[0].value != name;
      assert forall j | 0 <= j < |rest| :: rest[j] == c[j + 2];
      NowhereLaw(rest, name, if i < 2 then 0 else i - 2);
    }
  }

  // ---- Nodes -------------------------------------------------------------

  ghost predicate SamePayload(a: Node, b: Node)
    reads a`kind, a`tag, a`value, a`look, b`kind, b`tag, b`value, b`look
  {
    a.payload == b.payload && a.kind == b.kind && a.tag == b.tag && a.value == b.value && a.look == b.look
  }

  /** content edges form a tree and alias edges lead anywhere. payload is the
      anchor and the position. */
  class Node {
    const payload: string
    var kind: Kind
    var tag: string
    var value: string
    var look: Look
    var content: seq<Node?>
    var alias: Node?
    ghost var tree: Tree
    ghost var repr: set<Node>

    /** A node like another, without edges. */
    constructor Like(node: Node)
      ensures SamePayload(node, this) && content == [] && alias == null
    {
      payload, kind, tag, value, look := node.payload, node.kind, node.tag, node.value, node.look;
      content, alias := [], null;
    }

    /** The content edges form a tree, and tree shows it. */
    ghost predicate Valid()
      reads this, repr
      decreases repr
    {
      && this in repr
      && Shows()
      && (forall i | 0 <= i < |content| ::
            content[i] != null && content[i] in repr && content[i].repr <= repr && this !in content[i].repr
            && content[i].tree == tree.content[i] && content[i].Valid())
      && (forall i, j | 0 <= i < j < |content| :: content[i].repr !! content[j].repr)
    }

    /** The fields of the node itself are those of its tree. */
    ghost predicate Shows()
      reads this
    {
      tree.kind == kind && tree.tag == tag && tree.value == value && tree.look == look && |tree.content| == |content|
    }

    /** mappingEntry, as the position of the key. */
    method MappingEntry(name: string) returns (index: Option<nat>)
      requires Valid()
      ensures kind.Mapping? ==> index.Some? == Get(tree.content, name).Some?
      ensures !kind.Mapping? ==> index.None?
      ensures index.Some? ==> FirstAt(tree.content, name, index.value)
      ensures index.Some? ==> Get(tree.content, name) == Some(tree.content[index.value + 1])
                              && KeyNode(tree.content, name) == tree.content[index.value]
    {
      if !kind.Mapping? { return None; }
      var i := 0;
      while i + 1 < |content|
        invariant i % 2 == 0 && NotBefore(tree.content, name, i)
      {
        if content[i].Named(name) {
          FirstIsGot(tree.content, name, i);
          return Some(i);
        }
        i := i + 2;
      }
      NowhereLaw(tree.content, name, i);
      return None;
    }

    predicate Named(name: string)
      requires Valid()
      reads this, repr
      ensures Named(name) <==> tree.value == name
    {
      value == name
    }

    /** replaceMappingValue. */
    method ReplaceMappingValue(name: string, node: Node)
      requires Valid() && node.Valid() && node.repr !! repr
      modifies this
      ensures Valid() && repr == old(repr) + if Get(old(tree.content), name).Some? then node.repr else {}
      ensures tree == old(tree).(content := Put(old(tree.content), name, node.tree))
    {
      var i := 0;
      while i + 1 < |content|
        invariant i % 2 == 0 && NotBefore(tree.content, name, i)
        invariant Valid() && tree == old(tree) && repr == old(repr)
        invariant content == old(content) && node.Valid() && node.tree == old(node.tree)
      {
        if content[i].Named(name) {
          FirstIsGot(tree.content, name, i);
          FirstIsPut(tree.content, name, i, node.tree);
          SetChild(i + 1, node);
          return;
        }
        i := i + 2;
      }
      NowhereLaw(tree.content, name, i);
    }

    method SetChild(i: nat, node: Node)
      requires Valid() && node.Valid() && node.repr !! repr && i < |content|
      modifies this
      ensures Valid() && repr == old(repr) + node.repr
      ensures tree == old(tree).(content := old(tree.content)[i := node.tree])
    {
      content := content[i := node];
      tree := tree.(content := tree.content[i := node.tree]);
      repr := repr + node.repr;
    }

    /** removeMappingEntry. */
    method RemoveMappingEntry(name: string)
      requires Valid()
      modifies this
      ensures Valid() && repr == old(repr) && tree == old(tree).(content := Remove(old(tree.content), name))
    {
      var i := 0;
      while i + 1 < |content|
        invariant i % 2 == 0 && NotBefore(tree.content, name, i)
        invariant Valid() && tree == old(tree) && repr == old(repr) && content == old(content)
      {
        if content[i].Named(name) {
          FirstIsRemoved(tree.content, name, i);
          DropPair(i);
          return;
        }
        i := i + 2;
      }
      NowhereLaw(tree.content, name, i);
    }

    method DropPair(i: nat)
      requires Valid() && i + 1 < |content|
      modifies this
      ensures Valid() && repr == old(repr)
      ensures tree == old(tree).(content := old(tree.content)[..i] + old(tree.content)[i + 2..])
    {
      content := content[..i] + content[i + 2..];
      tree := tree.(content := tree.content[..i] + tree.content[i + 2..]);
    }

    method Append(key: Node, node: Node)
      requires Valid() && key.Valid() && node.Valid() && key.repr !! repr && node.repr !! repr && key.repr !! node.repr
      modifies this
      ensures Valid() && repr == old(repr) + key.repr + node.repr
      ensures tree == old(tree).(content := old(tree.content) + [key.tree, node.tree])
    {
      content := content + [key, node];
      tree := tree.(content := tree.content + [key.tree, node.tree]);
      repr := repr + key.repr + node.repr;
    }

    /** preservePresentation. */
    method PreservePresentation(original: Node)
      requires Valid() && original.Valid() && original !in repr
      modifies this
      ensures Valid() && repr == old(repr) && tree == Dress(old(tree), original.tree)
    {
      look := original.look.(style := if kind == original.kind then original.look.style else look.style);
      tree := tree.(look := look);
    }
  }
}

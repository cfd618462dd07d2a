/** The overlay and the merge as they run: nodes are edited in place
    (internal/config/yaml.go). */
module YamlMerge {
  import opened Basics
  import opened YamlTree
  import opened YamlNode
  import opened YamlClone

  // ---- The two writers in place ------------------------------------------

  /** What an edit of dst in place leaves: only its own nodes change. */
  twostate predicate Edited(dst: Node, content: seq<Tree>)
    reads dst, dst.repr
  {
    dst.Valid() && fresh(dst.repr - old(dst.repr)) && dst.tree == old(dst.tree).(content := content)
  }

  /** Both are trees, and dst's nodes lie outside the graph that src is in, alias
      edges included. */
  ghost predicate Separate(dst: Node, src: Node, all: set<Node>)
    reads dst, dst.repr, src, src.repr, all
  {
    dst.Valid() && src.Valid() && dst.repr !! src.repr && Closed(all) && src in all && dst.repr !! all
  }

  /** mergeKnownFields. */
  method MergeKnownFields(dst: Node, src: Node, schema: seq<Field>, ghost all: set<Node>)
    requires Separate(dst, src, all) && dst.kind.Mapping? && src.kind.Mapping?
    modifies dst.repr
    ensures Edited(dst, Merge(old(dst.tree.content), src.tree.content, schema))
    decreases schema, 0
  {
    hide MergeField;
    for i := 0 to |schema|
      invariant Separate(dst, src, all) && fresh(dst.repr - old(dst.repr))
      invariant src.tree == old(src.tree) && src.repr == old(src.repr)
      invariant dst.tree == old(dst.tree).(content := dst.tree.content)
      invariant Merge(dst.tree.content, src.tree.content, schema[i..]) ==
                Merge(old(dst.tree.content), src.tree.content, schema)
    {
      assert schema[i..][0] == schema[i] && schema[i..][1..] == schema[i + 1..];
      MergeFieldIn(dst, src, schema[i], all);
    }
  }

  method MergeFieldIn(dst: Node, src: Node, field: Field, ghost all: set<Node>)
    requires Separate(dst, src, all) && dst.kind.Mapping? && src.kind.Mapping?
    modifies dst.repr
    ensures Edited(dst, MergeField(old(dst.tree.content), src.tree.content, field))
    decreases field, 0
  {
    hide Merge, Put, Remove, Get, KeyNode, Dress, FirstAt, Closed;
    var s := src.MappingEntry(field.name);
    var d := dst.MappingEntry(field.name);
    if s.None? {
      if d.Some? { dst.RemoveMappingEntry(field.name); }
      return;
    }
    InRange(src, field.name, s.value);
    if d.None? {
      AppendClone(dst, src, s.value, all);
      return;
    }
    InRange(dst, field.name, d.value);
    InGraph(dst, src, s.value + 1, all);
    var dstValue, srcValue := dst.content[d.value + 1], src.content[s.value + 1];
    if field.children != [] && dstValue.kind.Mapping? && srcValue.kind.Mapping? {
      MergeSection(dst, srcValue, field.name, d.value, field.children, all);
    } else {
      ReplaceDressed(dst, srcValue, field.name, d.value, all);
    }
  }

  lemma InGraph(dst: Node, src: Node, i: nat, all: set<Node>)
    requires Separate(dst, src, all) && i < |src.content|
    ensures src.content[i] != null && Separate(dst, src.content[i], all)
  {
    hide Closed;
    ChildIn(src, all, i);
  }

  lemma InRange(node: Node, name: string, i: nat)
    requires node.Valid() && FirstAt(node.tree.content, name, i)
    ensures i + 1 < |node.content| && node.content[i + 1] != null
    ensures node.content[i + 1].Valid() && node.content[i + 1].tree == node.tree.content[i + 1]
    ensures node.content[i + 1].repr <= node.repr && node.content[i + 1].tree.kind == node.content[i + 1].kind
  {
  }

  method ReplaceDressed(dst: Node, src: Node, name: string, d: nat, ghost all: set<Node>)
    requires Separate(dst, src, all) && d + 1 < |dst.content|
    requires Get(dst.tree.content, name) == Some(dst.tree.content[d + 1])
    modifies dst
    ensures Edited(dst, Put(old(dst.tree.content), name, Dress(src.tree, old(dst.tree.content[d + 1]))))
  {
    hide Put, Get, Dress, Closed, Reachable, Isomorphic;
    var replacement, image := CloneGraph(src, all);
    replacement.PreservePresentation(dst.content[d + 1]);
    dst.ReplaceMappingValue(name, replacement);
  }

  method ReplaceClone(dst: Node, src: Node, name: string, d: nat, ghost all: set<Node>)
    requires Separate(dst, src, all) && d + 1 < |dst.content|
    requires Get(dst.tree.content, name) == Some(dst.tree.content[d + 1])
    modifies dst
    ensures Edited(dst, Put(old(dst.tree.content), name, src.tree))
  {
    hide Put, Get, Closed, Reachable, Isomorphic;
    var replacement, image := CloneGraph(src, all);
    dst.ReplaceMappingValue(name, replacement);
  }

  method AppendClone(dst: Node, src: Node, at: nat, ghost all: set<Node>)
    requires Separate(dst, src, all) && at + 1 < |src.content|
    modifies dst.repr
    ensures Edited(dst, old(dst.tree.content) + [src.tree.content[at], src.tree.content[at + 1]])
  {
    hide Closed, Reachable, Isomorphic;
    ChildIn(src, all, at);
    ChildIn(src, all, at + 1);
    var first, second := src.content[at], src.content[at + 1];
    var key, keyImage := CloneGraph(first, all);
    var node, image := CloneGraph(second, all);
    dst.Append(key, node);
  }

  /** The nested call changes the child's nodes; the parent follows. */
  method MergeSection(dst: Node, src: Node, name: string, d: nat, schema: seq<Field>, ghost all: set<Node>)
    requires Separate(dst, src, all) && FirstAt(dst.tree.content, name, d)
    requires dst.content[d + 1].kind.Mapping? && src.kind.Mapping?
    modifies dst.repr
    ensures var was := old(dst.tree.content[d + 1]);
            Edited(dst, Put(old(dst.tree.content), name, was.(content := Merge(was.content, src.tree.content, schema))))
    decreases schema, 1
  {
    hide Merge, Put, Closed;
    ghost var before := dst.tree.content;
    var child := dst.content[d + 1];
    forall j | 0 <= j < |dst.content| && j != d + 1
      ensures dst.content[j] != null && dst.content[j].Valid() && dst.content[j].repr !! child.repr
    {
    }
    MergeKnownFields(child, src, schema, all);
    forall j | 0 <= j < |dst.content| && j != d + 1
      ensures dst.content[j].Valid() && dst.content[j].repr !! child.repr
      ensures dst.content[j].repr == old(dst.content[j].repr) && dst.content[j].tree == old(dst.content[j].tree)
    {
      assert dst.content[j] == old(dst.content[j]) && dst.content[j] in old(dst.content[j].repr);
    }
    FirstIsPut(before, name, d, child.tree);
    Follow(dst, d + 1);
  }

  method OverlayPresentFields(dst: Node, src: Node, schema: seq<Field>, ghost all: set<Node>)
    requires Separate(dst, src, all) && dst.kind.Mapping? && src.kind.Mapping?
    modifies dst.repr
    ensures Edited(dst, Overlay(old(dst.tree.content), src.tree.content, schema))
    decreases schema, 0
  {
    hide OverlayField;
    for i := 0 to |schema|
      invariant Separate(dst, src, all) && fresh(dst.repr - old(dst.repr))
      invariant src.tree == old(src.tree) && src.repr == old(src.repr)
      invariant dst.tree == old(dst.tree).(content := dst.tree.content)
      invariant Overlay(dst.tree.content, src.tree.content, schema[i..]) ==
                Overlay(old(dst.tree.content), src.tree.content, schema)
    {
      assert schema[i..][0] == schema[i] && schema[i..][1..] == schema[i + 1..];
      OverlayFieldIn(dst, src, schema[i], all);
    }
  }

  method OverlayFieldIn(dst: Node, src: Node, field: Field, ghost all: set<Node>)
    requires Separate(dst, src, all) && dst.kind.Mapping? && src.kind.Mapping?
    modifies dst.repr
    ensures Edited(dst, OverlayField(old(dst.tree.content), src.tree.content, field))
    decreases field, 0
  {
    hide Overlay, Put, Get, KeyNode, FirstAt, Closed;
    var s := src.MappingEntry(field.name);
    if s.None? { return; }
    InRange(src, field.name, s.value);
    var d := dst.MappingEntry(field.name);
    if d.None? {
      AppendClone(dst, src, s.value, all);
      return;
    }
    InRange(dst, field.name, d.value);
    InGraph(dst, src, s.value + 1, all);
    var dstValue, srcValue := dst.content[d.value + 1], src.content[s.value + 1];
    if field.children != [] && srcValue.kind.Mapping? && dstValue.kind.Mapping? {
      OverlaySection(dst, srcValue, field.name, d.value, field.children, all);
    } else {
      ReplaceClone(dst, srcValue, field.name, d.value, all);
    }
  }

  method OverlaySection(dst: Node, src: Node, name: string, d: nat, schema: seq<Field>, ghost all: set<Node>)
    requires Separate(dst, src, all) && FirstAt(dst.tree.content, name, d)
    requires dst.content[d + 1].kind.Mapping? && src.kind.Mapping?
    modifies dst.repr
    ensures var was := old(dst.tree.content[d + 1]);
            Edited(dst, Put(old(dst.tree.content), name,
              was.(content := Overlay(was.content, src.tree.content, schema))))
    decreases schema, 1
  {
    hide Overlay, Put, Closed;
    ghost var before := dst.tree.content;
    var child := dst.content[d + 1];
    forall j | 0 <= j < |dst.content| && j != d + 1
      ensures dst.content[j] != null && dst.content[j].Valid() && dst.content[j].repr !! child.repr
    {
    }
    OverlayPresentFields(child, src, schema, all);
    forall j | 0 <= j < |dst.content| && j != d + 1
      ensures dst.content[j].Valid() && dst.content[j].repr !! child.repr
      ensures dst.content[j].repr == old(dst.content[j].repr) && dst.content[j].tree == old(dst.content[j].tree)
    {
      assert dst.content[j] == old(dst.content[j]) && dst.content[j] in old(dst.content[j].repr);
    }
    FirstIsPut(before, name, d, child.tree);
    Follow(dst, d + 1);
  }

  /** After child i changed on its own, its parent's tree and footprint follow. */
  ghost method Follow(dst: Node, i: nat)
    requires i < |dst.content| && dst in dst.repr && dst.Shows() && dst.content[i] != null
    requires dst !in dst.content[i].repr && dst.content[i].Valid()
    requires forall j | 0 <= j < |dst.content| && j != i ::
               dst.content[j] != null && dst.content[j] in dst.repr && dst.content[j].repr <= dst.repr
                 && dst !in dst.content[j].repr
               && dst.content[j].tree == dst.tree.content[j] && dst.content[j].Valid()
                 && dst.content[j].repr !! dst.content[i].repr
    requires forall j, k | 0 <= j < k < |dst.content| && j != i && k != i :: dst.content[j].repr !! dst.content[k].repr
    modifies dst`tree, dst`repr
    ensures dst.Valid() && dst.repr == old(dst.repr) + dst.content[i].repr
    ensures dst.tree == old(dst.tree).(content := old(dst.tree.content)[i := dst.content[i].tree])
  {
    dst.tree := dst.tree.(content := dst.tree.content[i := dst.content[i].tree]);
    dst.repr := dst.repr + dst.content[i].repr;
  }

  // ---- Retired sections --------------------------------------------------

  /** The entries whose key is not retired; a key without a value goes too. */
  function DropKeys(c: seq<Tree>, names: set<string>): seq<Tree> {
    if |c| < 2 then []
    else if c[0].value in names then DropKeys(c[2..], names)
    else c[..2] + DropKeys(c[2..], names)
  }

  lemma {:induction false} DropKeysLaw(c: seq<Tree>, names: set<string>, name: string)
    ensures Get(DropKeys(c, names), name) == if name in names then None else Get(c, name)
    ensures name in Keys(DropKeys(c, names)) <==> name in Keys(c) && name !in names
    ensures |DropKeys(c, names)| % 2 == 0
  {
    if |c| >= 2 {
      DropKeysLaw(c[2..], names, name);
      assert (c[..2] + DropKeys(c[2..], names))[2..] == DropKeys(c[2..], names);
    }
  }

  /** removeMappingEntries: it filters into the content's own backing array. */
  method RemoveMappingEntries(content: array<Tree>, names: set<string>) returns (kept: nat)
    modifies content
    ensures kept <= content.Length && content[..kept] == DropKeys(old(content[..]), names)
  {
    ghost var was := content[..];
    kept := 0;
    var i := 0;
    assert was[0..] == was && content[..0] == [];
    while i + 1 < content.Length
      invariant kept <= i <= content.Length
      invariant forall j | i <= j < content.Length :: content[j] == was[j]
      invariant DropKeys(was, names) == content[..kept] + DropKeys(was[i..], names)
    {
      assert was[i..][2..] == was[i + 2..] && was[i..][0] == was[i] && was[i..][..2] == [was[i], was[i + 1]];
      if content[i].value !in names {
        ghost var front := content[..kept];
        content[kept], content[kept + 1] := content[i], content[i + 1];
        assert content[..kept + 2] == front + [was[i], was[i + 1]];
        Reassociate(front, [was[i], was[i + 1]], DropKeys(was[i + 2..], names));
        kept := kept + 2;
      }
      i := i + 2;
    }
    assert content[..kept] + [] == content[..kept];
  }

  lemma Reassociate<T>(a: seq<T>, b: seq<T>, c: seq<T>)
    ensures a + (b + c) == a + b + c
  {
  }
}

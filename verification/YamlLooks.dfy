/** Comments, styles and key nodes over a merge (internal/config/yaml.go). */
module YamlLooks {
  import opened Basics
  import opened YamlTree
  import opened YamlLaws

  // ---- Values ------------------------------------------------------------

  predicate SameComments(a: Look, b: Look) {
    a.head == b.head && a.line == b.line && a.foot == b.foot
  }

  /** A value that stays keeps its comments, and its style where its kind stays; a
      new one comes as it is; and so it is in every section that is merged. */
  predicate Clothed(before: seq<Tree>, after: seq<Tree>, src: seq<Tree>, schema: seq<Field>)
    decreases schema
  {
    forall i | 0 <= i < |schema| ::
      var name := schema[i].name;
      ClothedAt(Get(before, name), Get(after, name), Get(src, name), schema[i])
  }

  predicate ClothedAt(before: Option<Tree>, after: Option<Tree>, src: Option<Tree>, field: Field)
    decreases field
  {
    after.Some? ==>
      && src.Some?
      && (before.None? ==> after == src)
      && (before.Some? ==>
            && SameComments(after.value.look, before.value.look)
            && (after.value.kind == before.value.kind ==> after.value.look.style == before.value.look.style)
            && (after.value.kind != before.value.kind ==> after.value.look.style == src.value.look.style)
            && (Sections(field, before.value, src.value) ==>
                  Clothed(before.value.content, after.value.content, src.value.content, field.children)))
  }

  lemma {:induction false} LooksKept(doc: seq<Tree>, known: seq<Tree>, schema: seq<Field>)
    requires Paired(doc) && AllWellFormed(doc) && UniqueNames(schema)
    ensures Clothed(doc, Merge(doc, known, schema), known, schema)
    decreases schema
  {
    hide Get, Merge, Paired, AllWellFormed;
    forall i | 0 <= i < |schema|
      ensures var name := schema[i].name;
              ClothedAt(Get(doc, name), Get(Merge(doc, known, schema), name), Get(known, name), schema[i])
    {
      var field := schema[i];
      var d, s := Get(doc, field.name), Get(known, field.name);
      MergeAt(doc, known, schema, i);
      if d.Some? && s.Some? && Sections(field, d.value, s.value) {
        GetWellFormed(doc, field.name);
        LooksKept(d.value.content, s.value.content, field.children);
      }
    }
  }

  // ---- Keys --------------------------------------------------------------

  lemma {:induction false} KeyAfterPut(c: seq<Tree>, name: string, value: Tree, other: string)
    requires Get(c, name).Some? && Get(c, other).Some?
    ensures Get(Put(c, name, value), other).Some? && KeyNode(Put(c, name, value), other) == KeyNode(c, other)
  {
    if c[0].value != name {
      var put := Put(c, name, value);
      assert put[2..] == Put(c[2..], name, value) && put[0] == c[0];
      if c[0].value != other { KeyAfterPut(c[2..], name, value, other); }
    }
  }

  lemma {:induction false} KeyAfterRemove(c: seq<Tree>, name: string, other: string)
    requires Get(c, other).Some? && other != name
    ensures Get(Remove(c, name), other).Some? && KeyNode(Remove(c, name), other) == KeyNode(c, other)
  {
    if c[0].value != name {
      var rest := Remove(c, name);
      assert rest[2..] == Remove(c[2..], name) && rest[0] == c[0];
      if c[0].value != other { KeyAfterRemove(c[2..], name, other); }
    }
  }

  lemma {:induction false} KeyAfterAppend(c: seq<Tree>, key: Tree, value: Tree, other: string)
    requires |c| % 2 == 0 && Get(c, key.value).None? && Get(c + [key, value], other).Some?
    ensures other == key.value ==> KeyNode(c + [key, value], other) == key
    ensures Get(c, other).Some? ==> KeyNode(c + [key, value], other) == KeyNode(c, other)
  {
    if c == [] {
      assert c + [key, value] == [key, value];
    } else {
      assert (c + [key, value])[2..] == c[2..] + [key, value];
      if c[0].value != other { KeyAfterAppend(c[2..], key, value, other); }
    }
  }

  /** One field more: every key that stays keeps its node, a new one has the node it
      had in the source. */
  lemma KeyStep(dst: seq<Tree>, src: seq<Tree>, field: Field, name: string)
    requires Paired(dst) && Get(MergeField(dst, src, field), name).Some?
    ensures Get(dst, name).Some? ==> KeyNode(MergeField(dst, src, field), name) == KeyNode(dst, name)
    ensures Get(dst, name).None? ==>
              name == field.name && Get(src, name).Some?
              && KeyNode(MergeField(dst, src, field), name) == KeyNode(src, name)
  {
    hide Merge, Dress, Distinct, Put, Remove, Get, Keys, KeyNode;
    MergeFieldLaws(dst, src, field, name);
    var s, d := Get(src, field.name), Get(dst, field.name);
    if s.None? {
      if d.Some? && name != field.name { KeyAfterRemove(dst, field.name, name); }
    } else if d.None? {
      KeyNodeNamed(src, field.name);
      KeyAfterAppend(dst, KeyNode(src, field.name), s.value, name);
    } else if Get(dst, name).Some? {
      KeyAfterPut(dst, field.name, Merged(d, s, field).value, name);
    }
  }

  lemma {:induction false} KeysKept(doc: seq<Tree>, known: seq<Tree>, schema: seq<Field>, name: string)
    requires Paired(doc) && UniqueNames(schema) && Get(Merge(doc, known, schema), name).Some?
    ensures Get(doc, name).Some? ==> KeyNode(Merge(doc, known, schema), name) == KeyNode(doc, name)
    ensures Get(doc, name).None? ==>
              Get(known, name).Some? && KeyNode(Merge(doc, known, schema), name) == KeyNode(known, name)
    decreases schema
  {
    hide MergeField, Get, KeyNode, Paired;
    if schema != [] {
      var next := MergeField(doc, known, schema[0]);
      MergeFieldLaws(doc, known, schema[0], name);
      if name == schema[0].name { MergeElsewhere(next, known, schema[1..], name); }
      KeysKept(next, known, schema[1..], name);
      if Get(next, name).Some? { KeyStep(doc, known, schema[0], name); }
    }
  }
}

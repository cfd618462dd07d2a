/** Configuration documents as ordered trees, and the two functions that read
    them over defaults and write typed values back (internal/config/yaml.go). */
module YamlTree {
  import opened Basics

  datatype Kind = Mapping | Sequence | Scalar | Other

  /** Style and comments of a node. */
  datatype Look = Look(style: int, head: string, line: string, foot: string)

  /** A mapping's content holds its keys and values in turn. */
  datatype Tree = Tree(kind: Kind, tag: string, value: string, look: Look, content: seq<Tree>)

  datatype Field = Field(name: string, children: seq<Field>)

  // ---- Mapping content ---------------------------------------------------

  /** mappingEntry: the value of the first entry named so. */
  function Get(c: seq<Tree>, name: string): Option<Tree> {
    if |c| < 2 then None
    else if c[0].value == name then Some(c[1])
    else Get(c[2..], name)
  }

  /** replaceMappingValue. */
  function Put(c: seq<Tree>, name: string, value: Tree): seq<Tree> {
    if |c| < 2 then c
    else if c[0].value == name then [c[0], value] + c[2..]
    else c[..2] + Put(c[2..], name, value)
  }

  /** removeMappingEntry. */
  function Remove(c: seq<Tree>, name: string): seq<Tree> {
    if |c| < 2 then c
    else if c[0].value == name then c[2..]
    else c[..2] + Remove(c[2..], name)
  }

  /** The key node of the first entry named so. */
  function KeyNode(c: seq<Tree>, name: string): Tree
    requires Get(c, name).Some?
  {
    if c[0].value == name then c[0] else KeyNode(c[2..], name)
  }

  function Keys(c: seq<Tree>): seq<string> {
    if |c| < 2 then [] else [c[0].value] + Keys(c[2..])
  }

  /** Keys and values pair up and no key repeats; decoding rejects the rest. */
  predicate Paired(c: seq<Tree>) {
    |c| % 2 == 0 && Distinct(Keys(c))
  }

  predicate WellFormed(t: Tree) {
    (t.kind.Mapping? ==> Paired(t.content)) && AllWellFormed(t.content)
  }

  predicate AllWellFormed(c: seq<Tree>) {
    forall i | 0 <= i < |c| :: WellFormed(c[i])
  }

  // ---- Schema ------------------------------------------------------------

  predicate UniqueNames(schema: seq<Field>) {
    (forall i, j | 0 <= i < j < |schema| :: schema[i].name != schema[j].name)
    && forall i | 0 <= i < |schema| :: UniqueNames(schema[i].children)
  }

  /** No other field of this level has field i's name. */
  predicate Sole(schema: seq<Field>, i: nat)
    requires i < |schema|
  {
    forall j | 0 <= j < |schema| && j != i :: schema[j].name != schema[i].name
  }

  predicate Listed(schema: seq<Field>, name: string) {
    exists i | 0 <= i < |schema| :: schema[i].name == name
  }

  /** Both values are sections of the schema to go into. */
  predicate Sections(field: Field, a: Tree, b: Tree) {
    field.children != [] && a.kind.Mapping? && b.kind.Mapping?
  }

  lemma SoleTail(schema: seq<Field>, i: nat)
    requires i < |schema| && Sole(schema, i)
    ensures if i == 0 then !Listed(schema[1..], schema[0].name)
            else Sole(schema[1..], i - 1) && schema[0].name != schema[i].name && schema[1..][i - 1] == schema[i]
  {
  }

  // ---- The two writers ---------------------------------------------------

  /** preservePresentation. */
  function Dress(replacement: Tree, original: Tree): Tree {
    replacement.(look := original.look.(style := if replacement.kind == original.kind then original.look.style
      else replacement.look.style))
  }

  /** mergeKnownFields. */
  function Merge(dst: seq<Tree>, src: seq<Tree>, schema: seq<Field>): seq<Tree>
    decreases schema
  {
    if schema == [] then dst else Merge(MergeField(dst, src, schema[0]), src, schema[1..])
  }

  function MergeField(dst: seq<Tree>, src: seq<Tree>, field: Field): seq<Tree>
    decreases field
  {
    var s, d := Get(src, field.name), Get(dst, field.name);
    if s.None? then if d.None? then dst else Remove(dst, field.name)
    else if d.None? then dst + [KeyNode(src, field.name), s.value]
    else if Sections(field, d.value, s.value) then
      Put(dst, field.name, d.value.(content := Merge(d.value.content, s.value.content, field.children)))
    else Put(dst, field.name, Dress(s.value, d.value))
  }

  /** overlayPresentFields. */
  function Overlay(dst: seq<Tree>, src: seq<Tree>, schema: seq<Field>): seq<Tree>
    decreases schema
  {
    if schema == [] then dst else Overlay(OverlayField(dst, src, schema[0]), src, schema[1..])
  }

  function OverlayField(dst: seq<Tree>, src: seq<Tree>, field: Field): seq<Tree>
    decreases field
  {
    var s, d := Get(src, field.name), Get(dst, field.name);
    if s.None? then dst
    else if d.None? then dst + [KeyNode(src, field.name), s.value]
    else if Sections(field, d.value, s.value) then
      Put(dst, field.name, d.value.(content := Overlay(d.value.content, s.value.content, field.children)))
    else Put(dst, field.name, s.value)
  }

  // ---- Entry laws --------------------------------------------------------

  lemma {:induction false} PutLaws(c: seq<Tree>, name: string, value: Tree, other: string)
    requires Get(c, name).Some?
    ensures Get(Put(c, name, value), other) == if other == name then Some(value) else Get(c, other)
    ensures Keys(Put(c, name, value)) == Keys(c) && |Put(c, name, value)| == |c|
  {
    if c[0].value != name {
      PutLaws(c[2..], name, value, other);
      assert Put(c, name, value)[2..] == Put(c[2..], name, value);
    }
  }

  lemma {:induction false} PutSame(c: seq<Tree>, name: string)
    requires Get(c, name).Some?
    ensures Put(c, name, Get(c, name).value) == c
  {
    if c[0].value != name {
      PutSame(c[2..], name);
    }
  }

  lemma {:induction false} AppendLaws(c: seq<Tree>, key: Tree, value: Tree, other: string)
    requires |c| % 2 == 0 && Get(c, key.value).None?
    ensures Get(c + [key, value], other) == if other == key.value then Some(value) else Get(c, other)
    ensures Keys(c + [key, value]) == Keys(c) + [key.value]
  {
    if c == [] {
      assert c + [key, value] == [key, value];
    } else {
      AppendLaws(c[2..], key, value, other);
      assert (c + [key, value])[2..] == c[2..] + [key, value];
    }
  }

  lemma {:induction false} GetIffKey(c: seq<Tree>, name: string)
    ensures Get(c, name).Some? <==> name in Keys(c)
  {
    if |c| >= 2 {
      GetIffKey(c[2..], name);
    }
  }

  function Without(keys: seq<string>, name: string): seq<string> {
    if keys == [] then []
    else if keys[0] == name then Without(keys[1..], name)
    else [keys[0]] + Without(keys[1..], name)
  }

  lemma {:induction false} WithoutAbsent(keys: seq<string>, name: string)
    requires name !in keys
    ensures Without(keys, name) == keys
  {
    if keys != [] {
      WithoutAbsent(keys[1..], name);
    }
  }

  lemma DistinctTail(keys: seq<string>)
    requires keys != [] && Distinct(keys)
    ensures Distinct(keys[1..]) && keys[0] !in keys[1..]
  {
  }

  lemma {:induction false} RemoveLaws(c: seq<Tree>, name: string, other: string)
    requires Paired(c)
    ensures Get(Remove(c, name), other) == if other == name then None else Get(c, other)
    ensures Keys(Remove(c, name)) == Without(Keys(c), name) && |Remove(c, name)| % 2 == 0
  {
    hide Distinct;
    if |c| >= 2 {
      DistinctTail(Keys(c));
      if c[0].value == name {
        GetIffKey(c[2..], name);
        WithoutAbsent(Keys(c[2..]), name);
      } else {
        RemoveLaws(c[2..], name, other);
        assert Remove(c, name)[2..] == Remove(c[2..], name);
      }
    }
  }

  lemma DistinctPrepend(key: string, keys: seq<string>)
    requires Distinct(keys) && key !in keys
    ensures Distinct([key] + keys)
  {
  }

  lemma {:induction false} WithoutDistinct(keys: seq<string>, name: string)
    requires Distinct(keys)
    ensures Distinct(Without(keys, name)) && forall k :: k in Without(keys, name) <==> k in keys && k != name
  {
    if keys != [] {
      DistinctTail(keys);
      WithoutDistinct(keys[1..], name);
      DistinctPrepend(keys[0], Without(keys[1..], name));
      assert forall k :: k in keys <==> k == keys[0] || k in keys[1..];
    }
  }

  lemma {:induction false} KeyNodeNamed(c: seq<Tree>, name: string)
    requires Get(c, name).Some?
    ensures KeyNode(c, name).value == name
  {
    if c[0].value != name {
      KeyNodeNamed(c[2..], name);
    }
  }

  lemma DistinctAppend(keys: seq<string>, name: string)
    requires Distinct(keys) && name !in keys
    ensures Distinct(keys + [name])
  {
  }

  // ---- One field ---------------------------------------------------------

  /** What a merge leaves under one schema name. */
  function Merged(d: Option<Tree>, s: Option<Tree>, field: Field): Option<Tree> {
    if s.None? then None
    else if d.None? then s
    else if Sections(field, d.value, s.value) then
      Some(d.value.(content := Merge(d.value.content, s.value.content, field.children)))
    else Some(Dress(s.value, d.value))
  }

  /** What an overlay leaves under one schema name. */
  function Overlaid(d: Option<Tree>, s: Option<Tree>, field: Field): Option<Tree> {
    if s.None? then d
    else if d.None? then s
    else if Sections(field, d.value, s.value) then
      Some(d.value.(content := Overlay(d.value.content, s.value.content, field.children)))
    else s
  }

  lemma MergeFieldLaws(dst: seq<Tree>, src: seq<Tree>, field: Field, other: string)
    requires Paired(dst)
    ensures Paired(MergeField(dst, src, field))
    ensures Get(MergeField(dst, src, field), other) ==
            if other == field.name then Merged(Get(dst, other), Get(src, other), field) else Get(dst, other)
    ensures Keys(MergeField(dst, src, field)) ==
            if Get(src, field.name).None? then Without(Keys(dst), field.name)
            else if Get(dst, field.name).None? then Keys(dst) + [field.name] else Keys(dst)
  {
    hide Merge, Distinct, Dress;
    var s, d := Get(src, field.name), Get(dst, field.name);
    GetIffKey(dst, field.name);
    if s.None? {
      if d.None? {
        WithoutAbsent(Keys(dst), field.name);
      } else {
        RemoveLaws(dst, field.name, other);
        WithoutDistinct(Keys(dst), field.name);
      }
    } else if d.None? {
      KeyNodeNamed(src, field.name);
      AppendLaws(dst, KeyNode(src, field.name), s.value, other);
      DistinctAppend(Keys(dst), field.name);
    } else {
      PutLaws(dst, field.name, Merged(d, s, field).value, other);
    }
  }

  lemma OverlayFieldLaws(dst: seq<Tree>, src: seq<Tree>, field: Field, other: string)
    requires Paired(dst)
    ensures Paired(OverlayField(dst, src, field))
    ensures Get(OverlayField(dst, src, field), other) ==
            if other == field.name then Overlaid(Get(dst, other), Get(src, other), field) else Get(dst, other)
  {
    hide Overlay, Distinct;
    var s, d := Get(src, field.name), Get(dst, field.name);
    GetIffKey(dst, field.name);
    if s.Some? {
      if d.None? {
        KeyNodeNamed(src, field.name);
        AppendLaws(dst, KeyNode(src, field.name), s.value, other);
        DistinctAppend(Keys(dst), field.name);
      } else {
        PutLaws(dst, field.name, Overlaid(d, s, field).value, other);
      }
    }
  }

  // ---- The whole schema --------------------------------------------------

  lemma {:induction false} MergeAt(dst: seq<Tree>, src: seq<Tree>, schema: seq<Field>, i: nat)
    requires Paired(dst) && i < |schema| && Sole(schema, i)
    ensures var name := schema[i].name;
            Get(Merge(dst, src, schema), name) == Merged(Get(dst, name), Get(src, name), schema[i])
    decreases schema
  {
    hide MergeField, Merged, Paired, Get, Sole, Listed;
    var name := schema[i].name;
    SoleTail(schema, i);
    MergeFieldLaws(dst, src, schema[0], name);
    if i == 0 {
      MergeElsewhere(MergeField(dst, src, schema[0]), src, schema[1..], name);
    } else {
      MergeAt(MergeField(dst, src, schema[0]), src, schema[1..], i - 1);
    }
  }

  /** A merge does not touch names outside the schema. */
  lemma {:induction false} MergeElsewhere(dst: seq<Tree>, src: seq<Tree>, schema: seq<Field>, name: string)
    requires Paired(dst) && !Listed(schema, name)
    ensures Get(Merge(dst, src, schema), name) == Get(dst, name) && Paired(Merge(dst, src, schema))
    decreases schema
  {
    hide MergeField, Paired, Get;
    if schema != [] {
      MergeFieldLaws(dst, src, schema[0], name);
      MergeElsewhere(MergeField(dst, src, schema[0]), src, schema[1..], name);
    }
  }

  lemma {:induction false} OverlayAt(dst: seq<Tree>, src: seq<Tree>, schema: seq<Field>, i: nat)
    requires Paired(dst) && i < |schema| && Sole(schema, i)
    ensures var name := schema[i].name;
            Get(Overlay(dst, src, schema), name) == Overlaid(Get(dst, name), Get(src, name), schema[i])
    decreases schema
  {
    hide OverlayField, Overlaid, Paired, Get, Sole, Listed;
    var name := schema[i].name;
    SoleTail(schema, i);
    OverlayFieldLaws(dst, src, schema[0], name);
    if i == 0 {
      OverlayElsewhere(OverlayField(dst, src, schema[0]), src, schema[1..], name);
    } else {
      OverlayAt(OverlayField(dst, src, schema[0]), src, schema[1..], i - 1);
    }
  }

  /** A name outside the schema keeps its default, whatever the document says. */
  lemma {:induction false} OverlayElsewhere(dst: seq<Tree>, src: seq<Tree>, schema: seq<Field>, name: string)
    requires Paired(dst) && !Listed(schema, name)
    ensures Get(Overlay(dst, src, schema), name) == Get(dst, name)
    decreases schema
  {
    hide OverlayField, Paired, Get;
    if schema != [] {
      OverlayFieldLaws(dst, src, schema[0], name);
      OverlayElsewhere(OverlayField(dst, src, schema[0]), src, schema[1..], name);
    }
  }
}

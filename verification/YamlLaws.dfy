/** Laws of reading over defaults and writing back: what was written is read,
    the rest of the document stays, and writing twice changes nothing. */
module YamlLaws {
  import opened Basics
  import opened YamlTree

  // ---- Agreement on the schema -------------------------------------------

  /** Equal up to style and comments of the node itself. */
  predicate SameData(a: Tree, b: Tree) {
    a.(look := b.look) == b
  }

  /** The two mappings hold the same at every schema path. */
  predicate Agree(a: seq<Tree>, b: seq<Tree>, schema: seq<Field>)
    decreases schema
  {
    forall i | 0 <= i < |schema| :: AgreeAt(Get(a, schema[i].name), Get(b, schema[i].name), schema[i])
  }

  predicate AgreeAt(a: Option<Tree>, b: Option<Tree>, field: Field)
    decreases field
  {
    if a.None? || b.None? then a.None? && b.None?
    else if Sections(field, a.value, b.value) then Agree(a.value.content, b.value.content, field.children)
    else SameData(a.value, b.value)
  }

  lemma {:induction false} AgreeSelf(c: seq<Tree>, schema: seq<Field>)
    ensures Agree(c, c, schema)
    decreases schema
  {
    hide Get;
    forall i | 0 <= i < |schema|
      ensures AgreeAt(Get(c, schema[i].name), Get(c, schema[i].name), schema[i])
    {
      AgreeAtSelf(Get(c, schema[i].name), schema[i]);
    }
  }

  lemma {:induction false} AgreeAtSelf(v: Option<Tree>, field: Field)
    ensures AgreeAt(v, v, field)
    decreases field
  {
    hide Agree;
    if v.Some? {
      AgreeSelf(v.value.content, field.children);
    }
  }

  lemma {:induction false} AgreeFlip(a: seq<Tree>, b: seq<Tree>, schema: seq<Field>)
    requires Agree(a, b, schema)
    ensures Agree(b, a, schema)
    decreases schema
  {
    hide Get;
    forall i | 0 <= i < |schema|
      ensures AgreeAt(Get(b, schema[i].name), Get(a, schema[i].name), schema[i])
    {
      var x, y := Get(a, schema[i].name), Get(b, schema[i].name);
      assert AgreeAt(x, y, schema[i]);
      if x.Some? && y.Some? && Sections(schema[i], x.value, y.value) {
        AgreeFlip(x.value.content, y.value.content, schema[i].children);
      }
    }
  }

  lemma {:induction false} AgreeChain(a: seq<Tree>, b: seq<Tree>, c: seq<Tree>, schema: seq<Field>)
    requires Agree(a, b, schema) && Agree(b, c, schema)
    ensures Agree(a, c, schema)
    decreases schema
  {
    hide Get, Agree;
    forall i | 0 <= i < |schema|
      ensures AgreeAt(Get(a, schema[i].name), Get(c, schema[i].name), schema[i])
    {
      var x, y, z := Get(a, schema[i].name), Get(b, schema[i].name), Get(c, schema[i].name);
      AgreeGives(a, b, schema, i);
      AgreeGives(b, c, schema, i);
      if x.Some? && y.Some? && z.Some? && Sections(schema[i], x.value, y.value)
        && Sections(schema[i], y.value, z.value) {
        AgreeChain(x.value.content, y.value.content, z.value.content, schema[i].children);
      }
    }
    AgreeIs(a, c, schema);
  }

  lemma AgreeGives(a: seq<Tree>, b: seq<Tree>, schema: seq<Field>, i: nat)
    requires Agree(a, b, schema) && i < |schema|
    ensures AgreeAt(Get(a, schema[i].name), Get(b, schema[i].name), schema[i])
  {
  }

  lemma AgreeIs(a: seq<Tree>, b: seq<Tree>, schema: seq<Field>)
    requires forall i | 0 <= i < |schema| :: AgreeAt(Get(a, schema[i].name), Get(b, schema[i].name), schema[i])
    ensures Agree(a, b, schema)
  {
  }

  lemma {:induction false} GetWellFormed(c: seq<Tree>, name: string)
    requires AllWellFormed(c) && Get(c, name).Some?
    ensures WellFormed(Get(c, name).value)
    ensures Get(c, name).value.kind.Mapping? ==> Paired(Get(c, name).value.content)
    ensures AllWellFormed(Get(c, name).value.content)
  {
    hide Paired;
    if c[0].value != name {
      GetWellFormed(c[2..], name);
    } else {
      assert WellFormed(c[1]);
    }
  }

  // ---- What is written is what is known ----------------------------------

  lemma {:induction false} MergeKnown(doc: seq<Tree>, known: seq<Tree>, schema: seq<Field>)
    requires Paired(doc) && AllWellFormed(doc) && UniqueNames(schema)
    ensures Agree(Merge(doc, known, schema), known, schema)
    decreases schema
  {
    hide Get, Agree, Merge, Paired, AllWellFormed;
    forall i | 0 <= i < |schema|
      ensures AgreeAt(Get(Merge(doc, known, schema), schema[i].name), Get(known, schema[i].name), schema[i])
    {
      var field := schema[i];
      var d, s := Get(doc, field.name), Get(known, field.name);
      MergeAt(doc, known, schema, i);
      if s.Some? {
        AgreeAtSelf(s, field);
        AgreeSelf(s.value.content, field.children);
        if d.Some? {
          GetWellFormed(doc, field.name);
          if Sections(field, d.value, s.value) {
            MergeKnown(d.value.content, s.value.content, field.children);
          }
        }
      }
    }
    AgreeIs(Merge(doc, known, schema), known, schema);
  }

  /** Overlays of documents that agree on the schema agree on the schema. */
  lemma {:induction false} OverlayRespects(defaults: seq<Tree>, a: seq<Tree>, b: seq<Tree>, schema: seq<Field>)
    requires Paired(defaults) && AllWellFormed(defaults) && UniqueNames(schema) && Agree(a, b, schema)
    ensures Agree(Overlay(defaults, a, schema), Overlay(defaults, b, schema), schema)
    decreases schema
  {
    hide Get, Agree, Overlay, Paired, AllWellFormed;
    forall i | 0 <= i < |schema|
      ensures AgreeAt(Get(Overlay(defaults, a, schema), schema[i].name),
              Get(Overlay(defaults, b, schema), schema[i].name), schema[i])
    {
      var field := schema[i];
      var d, x, y := Get(defaults, field.name), Get(a, field.name), Get(b, field.name);
      OverlayAt(defaults, a, schema, i);
      OverlayAt(defaults, b, schema, i);
      AgreeGives(a, b, schema, i);
      AgreeAtSelf(d, field);
      if d.Some? && x.Some? && y.Some? {
        GetWellFormed(defaults, field.name);
        if Sections(field, d.value, x.value) && Sections(field, d.value, y.value) {
          OverlayRespects(d.value.content, x.value.content, y.value.content, field.children);
        }
      }
    }
    AgreeIs(Overlay(defaults, a, schema), Overlay(defaults, b, schema), schema);
  }

  /** Writing the known values back and reading over the defaults gives what
      reading the known values alone gives. */
  lemma PutGet(defaults: seq<Tree>, doc: seq<Tree>, known: seq<Tree>, schema: seq<Field>)
    requires Paired(defaults) && AllWellFormed(defaults) && Paired(doc) && AllWellFormed(doc) && UniqueNames(schema)
    ensures Agree(Overlay(defaults, Merge(doc, known, schema), schema), Overlay(defaults, known, schema), schema)
  {
    MergeKnown(doc, known, schema);
    OverlayRespects(defaults, Merge(doc, known, schema), known, schema);
  }

  /** No schema field of the defaults is missing from the known values. */
  predicate Covers(defaults: seq<Tree>, known: seq<Tree>, schema: seq<Field>)
    decreases schema
  {
    forall i | 0 <= i < |schema| :: CoversAt(Get(defaults, schema[i].name), Get(known, schema[i].name), schema[i])
  }

  predicate CoversAt(d: Option<Tree>, s: Option<Tree>, field: Field)
    decreases field
  {
    d.Some? ==> s.Some? && (Sections(field, d.value, s.value) ==>
      Covers(d.value.content, s.value.content, field.children))
  }

  lemma {:induction false} OverlayIsKnownIff(defaults: seq<Tree>, known: seq<Tree>, schema: seq<Field>)
    requires Paired(defaults) && AllWellFormed(defaults) && UniqueNames(schema)
    ensures Agree(Overlay(defaults, known, schema), known, schema) <==> Covers(defaults, known, schema)
    decreases schema
  {
    hide Get, Overlay, Paired, AllWellFormed;
    forall i | 0 <= i < |schema|
      ensures AgreeAt(Get(Overlay(defaults, known, schema), schema[i].name), Get(known, schema[i].name), schema[i]) <==>
              CoversAt(Get(defaults, schema[i].name), Get(known, schema[i].name), schema[i])
    {
      OverlayIsKnownAt(defaults, known, schema, i);
    }
  }

  lemma {:induction false} OverlayIsKnownAt(defaults: seq<Tree>, known: seq<Tree>, schema: seq<Field>, i: nat)
    requires Paired(defaults) && AllWellFormed(defaults) && UniqueNames(schema) && i < |schema|
    ensures AgreeAt(Get(Overlay(defaults, known, schema), schema[i].name), Get(known, schema[i].name), schema[i]) <==>
            CoversAt(Get(defaults, schema[i].name), Get(known, schema[i].name), schema[i])
    decreases schema, 0
  {
    hide Get, Agree, Covers, Overlay, Paired, AllWellFormed;
    var field := schema[i];
    var d, s := Get(defaults, field.name), Get(known, field.name);
    OverlayAt(defaults, known, schema, i);
    AgreeAtSelf(s, field);
    if d.Some? && s.Some? {
      GetWellFormed(defaults, field.name);
      if Sections(field, d.value, s.value) {
        OverlayIsKnownIff(d.value.content, s.value.content, field.children);
      }
    }
  }

  /** The round trip gives back the known values at every schema path exactly
      when no field that has a default was left out of them. */
  lemma PutGetIff(defaults: seq<Tree>, doc: seq<Tree>, known: seq<Tree>, schema: seq<Field>)
    requires Paired(defaults) && AllWellFormed(defaults) && Paired(doc) && AllWellFormed(doc) && UniqueNames(schema)
    ensures Agree(Overlay(defaults, Merge(doc, known, schema), schema), known, schema) <==>
            Covers(defaults, known, schema)
  {
    hide Agree, Covers, Overlay, Merge, Paired, AllWellFormed, UniqueNames;
    var back, plain := Overlay(defaults, Merge(doc, known, schema), schema), Overlay(defaults, known, schema);
    PutGet(defaults, doc, known, schema);
    AgreeFlip(back, plain, schema);
    OverlayIsKnownIff(defaults, known, schema);
    if Agree(plain, known, schema) {
      AgreeChain(back, plain, known, schema);
    }
    if Agree(back, known, schema) {
      AgreeChain(plain, back, known, schema);
    }
  }

  // ---- Writing twice -----------------------------------------------------

  /** Each schema name already holds what a merge would leave. */
  predicate Settled(c: seq<Tree>, src: seq<Tree>, schema: seq<Field>) {
    forall i | 0 <= i < |schema| :: Get(c, schema[i].name) ==
      Merged(Get(c, schema[i].name), Get(src, schema[i].name), schema[i])
  }

  lemma {:induction false} SettledStays(c: seq<Tree>, src: seq<Tree>, schema: seq<Field>)
    requires Settled(c, src, schema)
    ensures Merge(c, src, schema) == c
    decreases schema
  {
    hide Get, Put;
    if schema != [] {
      var name := schema[0].name;
      if Get(c, name).Some? {
        PutSame(c, name);
      }
      assert MergeField(c, src, schema[0]) == c;
      forall i | 0 <= i < |schema[1..]|
        ensures Get(c, schema[1..][i].name) == Merged(Get(c, schema[1..][i].name), Get(src, schema[1..][i].name),
                schema[1..][i])
      {
        assert schema[1..][i] == schema[i + 1];
      }
      SettledStays(c, src, schema[1..]);
    }
  }

  lemma {:induction false} MergeSelf(c: seq<Tree>, schema: seq<Field>)
    requires UniqueNames(schema)
    ensures Merge(c, c, schema) == c
    decreases schema
  {
    hide Get, Merge;
    forall i | 0 <= i < |schema|
      ensures Get(c, schema[i].name) == Merged(Get(c, schema[i].name), Get(c, schema[i].name), schema[i])
    {
      if Get(c, schema[i].name).Some? {
        MergeSelf(Get(c, schema[i].name).value.content, schema[i].children);
      }
    }
    SettledStays(c, c, schema);
  }

  /** A second merge of the same values is the identity. */
  lemma {:induction false} MergeTwice(doc: seq<Tree>, known: seq<Tree>, schema: seq<Field>)
    requires Paired(doc) && AllWellFormed(doc) && UniqueNames(schema)
    ensures Merge(Merge(doc, known, schema), known, schema) == Merge(doc, known, schema)
    decreases schema
  {
    hide Get, Merge, Paired, AllWellFormed, Merged;
    var once := Merge(doc, known, schema);
    forall i | 0 <= i < |schema|
      ensures Get(once, schema[i].name) == Merged(Get(once, schema[i].name), Get(known, schema[i].name), schema[i])
    {
      MergeAt(doc, known, schema, i);
      MergedTwice(doc, known, schema, i);
    }
    SettledStays(once, known, schema);
  }

  lemma {:induction false} MergedTwice(doc: seq<Tree>, known: seq<Tree>, schema: seq<Field>, i: nat)
    requires Paired(doc) && AllWellFormed(doc) && UniqueNames(schema) && i < |schema|
    ensures var d, s := Get(doc, schema[i].name), Get(known, schema[i].name);
            Merged(Merged(d, s, schema[i]), s, schema[i]) == Merged(d, s, schema[i])
    decreases schema, 0
  {
    hide Get, Merge, Paired, AllWellFormed;
    var field := schema[i];
    var d, s := Get(doc, field.name), Get(known, field.name);
    if s.Some? {
      MergeSelf(s.value.content, field.children);
      if d.Some? {
        GetWellFormed(doc, field.name);
        if Sections(field, d.value, s.value) {
          MergeTwice(d.value.content, s.value.content, field.children);
        }
      }
    }
  }

  // ---- What stays --------------------------------------------------------

  /** The entries whose key the schema does not list, in order. */
  function Others(c: seq<Tree>, schema: seq<Field>): seq<Tree> {
    if |c| < 2 then []
    else if Listed(schema, c[0].value) then Others(c[2..], schema)
    else c[..2] + Others(c[2..], schema)
  }

  lemma {:induction false} OthersAfterPut(c: seq<Tree>, name: string, value: Tree, schema: seq<Field>)
    requires Listed(schema, name)
    ensures Others(Put(c, name, value), schema) == Others(c, schema)
  {
    hide Listed;
    if |c| >= 2 {
      OthersAfterPut(c[2..], name, value, schema);
      assert Put(c, name, value)[2..] == if c[0].value == name then c[2..] else Put(c[2..], name, value);
      assert Put(c, name, value)[0] == c[0];
      assert c[0].value != name ==> Put(c, name, value)[..2] == c[..2];
    }
  }

  lemma {:induction false} OthersAfterRemove(c: seq<Tree>, name: string, schema: seq<Field>)
    requires Listed(schema, name)
    ensures Others(Remove(c, name), schema) == Others(c, schema)
  {
    hide Listed;
    if |c| >= 2 && c[0].value != name {
      OthersAfterRemove(c[2..], name, schema);
      assert Remove(c, name)[2..] == Remove(c[2..], name) && Remove(c, name)[..2] == c[..2];
    }
  }

  lemma {:induction false} OthersAfterAppend(c: seq<Tree>, key: Tree, value: Tree, schema: seq<Field>)
    requires |c| % 2 == 0 && Listed(schema, key.value)
    ensures Others(c + [key, value], schema) == Others(c, schema)
  {
    hide Listed;
    if c == [] {
      assert c + [key, value] == [key, value];
    } else {
      OthersAfterAppend(c[2..], key, value, schema);
      assert (c + [key, value])[2..] == c[2..] + [key, value] && (c + [key, value])[..2] == c[..2];
    }
  }

  /** Merging part of a schema keeps every entry outside the whole schema. */
  lemma {:induction false} OthersKept(dst: seq<Tree>, src: seq<Tree>, part: seq<Field>, schema: seq<Field>)
    requires Paired(dst) && forall i | 0 <= i < |part| :: Listed(schema, part[i].name)
    ensures Others(Merge(dst, src, part), schema) == Others(dst, schema)
    decreases part
  {
    hide Get, Put, Remove, KeyNode, Others, Listed, Distinct;
    if part != [] {
      var field := part[0];
      var s, d := Get(src, field.name), Get(dst, field.name);
      MergeFieldLaws(dst, src, field, field.name);
      if s.None? {
        OthersAfterRemove(dst, field.name, schema);
      } else if d.None? {
        KeyNodeNamed(src, field.name);
        OthersAfterAppend(dst, KeyNode(src, field.name), s.value, schema);
      } else {
        OthersAfterPut(dst, field.name, Merged(d, s, field).value, schema);
      }
      assert Others(MergeField(dst, src, field), schema) == Others(dst, schema);
      OthersKept(MergeField(dst, src, field), src, part[1..], schema);
    }
  }

  /** Entries outside the schema keep their keys, values and order, in every
      section that remains a mapping. */
  predicate Kept(before: seq<Tree>, after: seq<Tree>, src: seq<Tree>, schema: seq<Field>)
    decreases schema
  {
    Others(after, schema) == Others(before, schema)
    && forall i | 0 <= i < |schema| :: KeptAt(Get(before, schema[i].name), Get(after, schema[i].name),
      Get(src, schema[i].name), schema[i])
  }

  predicate KeptAt(before: Option<Tree>, after: Option<Tree>, src: Option<Tree>, field: Field)
    decreases field
  {
    before.Some? && src.Some? && Sections(field, before.value, src.value) ==>
      after.Some? && after.value == before.value.(content := after.value.content)
      && Kept(before.value.content, after.value.content, src.value.content, field.children)
  }

  lemma {:induction false} MergeKeeps(doc: seq<Tree>, known: seq<Tree>, schema: seq<Field>)
    requires Paired(doc) && AllWellFormed(doc) && UniqueNames(schema)
    ensures Kept(doc, Merge(doc, known, schema), known, schema)
    decreases schema
  {
    hide Get, Merge, Paired, AllWellFormed, Others;
    OthersKept(doc, known, schema, schema);
    forall i | 0 <= i < |schema|
      ensures KeptAt(Get(doc, schema[i].name), Get(Merge(doc, known, schema), schema[i].name),
              Get(known, schema[i].name), schema[i])
    {
      var field := schema[i];
      var d, s := Get(doc, field.name), Get(known, field.name);
      MergeAt(doc, known, schema, i);
      if d.Some? && s.Some? && Sections(field, d.value, s.value) {
        GetWellFormed(doc, field.name);
        MergeKeeps(d.value.content, s.value.content, field.children);
      }
    }
  }

  // ---- Key order ---------------------------------------------------------

  /** A schema name without a known value. */
  predicate Dropped(src: seq<Tree>, schema: seq<Field>, key: string) {
    Listed(schema, key) && Get(src, key).None?
  }

  function Surviving(keys: seq<string>, src: seq<Tree>, schema: seq<Field>): seq<string> {
    if keys == [] then []
    else if Dropped(src, schema, keys[0]) then Surviving(keys[1..], src, schema)
    else [keys[0]] + Surviving(keys[1..], src, schema)
  }

  /** Known names the document lacks, in schema order. */
  function Added(keys: seq<string>, src: seq<Tree>, schema: seq<Field>): seq<string> {
    if schema == [] then []
    else if schema[0].name !in keys && Get(src, schema[0].name).Some? then
      [schema[0].name] + Added(keys, src, schema[1..])
    else Added(keys, src, schema[1..])
  }

  lemma {:induction false} SurvivingSame(keys: seq<string>, src: seq<Tree>, a: seq<Field>, b: seq<Field>)
    requires forall k | k in keys :: Dropped(src, a, k) <==> Dropped(src, b, k)
    ensures Surviving(keys, src, a) == Surviving(keys, src, b)
  {
    hide Dropped;
    if keys != [] {
      SurvivingSame(keys[1..], src, a, b);
    }
  }

  lemma {:induction false} SurvivingAppend(keys: seq<string>, name: string, src: seq<Tree>, schema: seq<Field>)
    requires !Dropped(src, schema, name)
    ensures Surviving(keys + [name], src, schema) == Surviving(keys, src, schema) + [name]
  {
    hide Dropped;
    if keys == [] {
      assert keys + [name] == [name];
    } else {
      SurvivingAppend(keys[1..], name, src, schema);
      assert (keys + [name])[1..] == keys[1..] + [name];
    }
  }

  lemma {:induction false} SurvivingWithout(keys: seq<string>, name: string, src: seq<Tree>, a: seq<Field>,
                                            b: seq<Field>)
    requires Dropped(src, a, name) && forall k | k in keys && k != name :: Dropped(src, a, k) <==> Dropped(src, b, k)
    ensures Surviving(Without(keys, name), src, b) == Surviving(keys, src, a)
  {
    hide Dropped;
    if keys != [] {
      SurvivingWithout(keys[1..], name, src, a, b);
    }
  }

  lemma {:induction false} AddedSame(keys: seq<string>, keys': seq<string>, src: seq<Tree>, schema: seq<Field>)
    requires forall i | 0 <= i < |schema| :: schema[i].name in keys <==> schema[i].name in keys'
    ensures Added(keys, src, schema) == Added(keys', src, schema)
  {
    hide Get;
    if schema != [] {
      AddedSame(keys, keys', src, schema[1..]);
    }
  }

  lemma DroppedTail(src: seq<Tree>, schema: seq<Field>, key: string)
    requires schema != []
    ensures key != schema[0].name ==> (Dropped(src, schema, key) <==> Dropped(src, schema[1..], key))
    ensures Dropped(src, schema, schema[0].name) <==> Get(src, schema[0].name).None?
    ensures UniqueNames(schema) ==> !Dropped(src, schema[1..], schema[0].name)
  {
    hide Get;
    assert forall i | 0 <= i < |schema[1..]| :: schema[1..][i] == schema[i + 1];
    if key != schema[0].name && Listed(schema, key) {
      var i :| 0 <= i < |schema| && schema[i].name == key;
      assert schema[1..][i - 1].name == key;
    }
  }

  /** The keys of the result: those of the document that still have a value, in
      their order, then the newly known ones in schema order. */
  lemma {:induction false} KeyOrder(doc: seq<Tree>, known: seq<Tree>, schema: seq<Field>)
    requires Paired(doc) && UniqueNames(schema)
    ensures Keys(Merge(doc, known, schema)) == Surviving(Keys(doc), known, schema) + Added(Keys(doc), known, schema)
    decreases schema
  {
    hide Get, MergeField, Distinct, Keys, Dropped, Without;
    var keys := Keys(doc);
    if schema == [] {
      AllSurvive(keys, known, schema);
    } else {
      var name := schema[0].name;
      var next := MergeField(doc, known, schema[0]);
      MergeFieldLaws(doc, known, schema[0], name);
      GetIffKey(doc, name);
      KeyOrder(next, known, schema[1..]);
      KeyStep(doc, known, schema, next);
    }
  }

  lemma AllSurvive(keys: seq<string>, src: seq<Tree>, schema: seq<Field>)
    requires schema == []
    ensures Surviving(keys, src, schema) == keys && Added(keys, src, schema) == []
  {
    if keys != [] {
      AllSurvive(keys[1..], src, schema);
    }
  }

  lemma KeyStep(doc: seq<Tree>, known: seq<Tree>, schema: seq<Field>, next: seq<Tree>)
    requires schema != [] && UniqueNames(schema) && Distinct(Keys(doc))
    requires (schema[0].name in Keys(doc)) == Get(doc, schema[0].name).Some?
    requires Keys(next) ==
             if Get(known, schema[0].name).None? then Without(Keys(doc), schema[0].name)
             else if Get(doc, schema[0].name).None? then Keys(doc) + [schema[0].name] else Keys(doc)
    ensures Surviving(Keys(next), known, schema[1..]) + Added(Keys(next), known, schema[1..]) ==
            Surviving(Keys(doc), known, schema) + Added(Keys(doc), known, schema)
  {
    hide Get, Distinct, Keys, Dropped, Without, Surviving;
    var name, keys := schema[0].name, Keys(doc);
    forall k
      ensures k != name ==> (Dropped(known, schema, k) <==> Dropped(known, schema[1..], k))
    {
      DroppedTail(known, schema, k);
    }
    DroppedTail(known, schema, name);
    if Get(known, name).None? {
      SurvivingWithout(keys, name, known, schema, schema[1..]);
      WithoutDistinct(keys, name);
    } else {
      SurvivingSame(keys, known, schema, schema[1..]);
      if Get(doc, name).None? {
        SurvivingAppend(keys, name, known, schema[1..]);
      }
    }
    forall i | 0 <= i < |schema[1..]|
      ensures schema[1..][i].name in keys <==> schema[1..][i].name in Keys(next)
    {
      assert schema[1..][i] == schema[i + 1];
    }
    AddedSame(keys, Keys(next), known, schema[1..]);
  }
}

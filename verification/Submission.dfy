/** The output contract of a modal and the decoding of its submissions
    (internal/blockkit/outputs.go). */
module Submission {
  import opened Basics
  import opened Contract
  import opened Layout
  import opened Outputs

  // ---- The contract ------------------------------------------------------

  function BlockOf(outputs: Outputs, name: string): string
    requires name in outputs
  {
    if outputs[name].block == "" then name else outputs[name].block
  }

  function ActionIDOf(outputs: Outputs, name: string): string
    requires name in outputs
  {
    if outputs[name].action == "" then name else outputs[name].action
  }

  /** validateOutput. */
  predicate OutputValid(output: Output) {
    && !output.kind.UnsupportedOutput?
    && (output.oneOf != [] <==> output.kind.EnumOutput?)
    && "" !in output.oneOf && Distinct(output.oneOf)
  }

  predicate IsSelect(elementType: string) {
    elementType == STATIC_SELECT || elementType == EXTERNAL_SELECT
  }

  /** validateOutputElement. */
  predicate ElementFits(kind: OutputType, elementType: string) {
    match kind
    case TextOutput | NumberOutput => elementType == PLAIN_TEXT_INPUT
    case EnumOutput | OpenEnumOutput => IsSelect(elementType)
    case UnsupportedOutput(_) => true
  }

  /** One output names an input block of its action and element kind. */
  predicate OutputMatches(outputs: Outputs, blocks: Blocks, name: string)
    requires name in outputs
  {
    && ValidName(name) && OutputValid(outputs[name])
    && BlockOf(outputs, name) in blocks
    && blocks[BlockOf(outputs, name)].actionID == ActionIDOf(outputs, name)
    && ElementFits(outputs[name].kind, blocks[BlockOf(outputs, name)].elementType)
  }

  /** Effective block IDs map the outputs one to one onto the input blocks. */
  ghost predicate Bijective(outputs: Outputs, blocks: Blocks) {
    && (forall name | name in outputs :: OutputMatches(outputs, blocks, name))
    && (forall a, b | a in outputs && b in outputs && BlockOf(outputs, a) == BlockOf(outputs, b) :: a == b)
    && (forall id | id in blocks :: exists name :: name in outputs && BlockOf(outputs, name) == id)
  }

  /** The matching part of validateOutputContract. */
  method MatchOutputs(outputs: Outputs, blocks: Blocks) returns (ok: bool)
    ensures ok <==> Bijective(outputs, blocks)
  {
    hide OutputMatches;
    var declared: map<string, string> := map[];
    var pending := outputs.Keys;
    while pending != {}
      invariant pending <= outputs.Keys
      invariant forall name | name in outputs && name !in pending ::
                  OutputMatches(outputs, blocks, name) && BlockOf(outputs, name) in declared
                    && declared[BlockOf(outputs, name)] == name
      invariant forall id | id in declared ::
                  declared[id] in outputs && declared[id] !in pending && BlockOf(outputs, declared[id]) == id
      decreases |pending|
    {
      var name :| name in pending;
      if !OutputMatches(outputs, blocks, name) { return false; }
      var blockID := BlockOf(outputs, name);
      if blockID in declared {
        assert declared[blockID] != name;
        return false;
      }
      declared := declared[blockID := name];
      pending := pending - {name};
    }
    if exists id | id in blocks :: id !in declared {
      var id :| id in blocks && id !in declared;
      assert forall name | name in outputs :: BlockOf(outputs, name) != id;
      return false;
    }
    return true;
  }

  /** A modal's contract holds: its input blocks collect without conflict and its
      outputs match them one to one. Message surfaces declare no outputs. */
  method ValidateOutputContract(modal: bool, layout: Json, outputs: Outputs) returns (ok: bool, blocks: Blocks)
    ensures !modal ==> (ok <==> outputs == map[])
    ensures modal && ok ==> CollectsAll(layout, map[], blocks) && Bijective(outputs, blocks)
    ensures modal && !ok ==>
              Clashes(layout, map[]) || (CollectsAll(layout, map[], blocks) && !Bijective(outputs, blocks))
  {
    if !modal { return outputs == map[], map[]; }
    ok, blocks := CollectInputBlocks(layout, map[]);
    if ok {
      ok := MatchOutputs(outputs, blocks);
    }
  }

  /** On success there is exactly one output per input block of the layout. */
  lemma OneOutputPerInputBlock(layout: Json, outputs: Outputs, blocks: Blocks, path: seq<Step>)
    requires CollectsAll(layout, map[], blocks) && Bijective(outputs, blocks) && InputAt(layout, path)
    ensures FieldAt(layout, path).Some?
    ensures exists name :: name in outputs && BlockOf(outputs, name) == FieldAt(layout, path).value.blockID
    ensures forall a, b | a in outputs && b in outputs
            && BlockOf(outputs, a) == BlockOf(outputs, b) == FieldAt(layout, path).value.blockID :: a == b
  {
    hide InputAt, FieldAt;
    assert Counted(layout, s => true, path);
  }

  lemma OneInputBlockPerOutput(layout: Json, outputs: Outputs, blocks: Blocks, name: string) returns (path: seq<Step>)
    requires CollectsAll(layout, map[], blocks) && Bijective(outputs, blocks) && name in outputs
    ensures InputAt(layout, path) && FieldAt(layout, path).Some?
    ensures var field := FieldAt(layout, path).value;
            && field.blockID == BlockOf(outputs, name) && field.actionID == ActionIDOf(outputs, name)
            && ElementFits(outputs[name].kind, field.elementType)
    ensures forall other | InputAt(layout, other) && HasID(layout, other, BlockOf(outputs, name)) :: other == path
  {
    hide InputAt, FieldAt;
    var id := BlockOf(outputs, name);
    path :| Counted(layout, s => true, path) && HasID(layout, path, id);
    forall other | InputAt(layout, other) && HasID(layout, other, id)
      ensures other == path
    {
      assert Counted(layout, s => true, other);
    }
  }

  // ---- Decoding one submission -------------------------------------------

  /** What Slack reports for one element. */
  datatype BlockAction = BlockAction(value: string, selected: string)

  type State = map<string, map<string, BlockAction>>

  datatype OutValue = TextValue(text: string) | IntValue(number: int)

  /** Reading a decimal into 64 bits, and whether the integer field of an output
      holds a number. */
  datatype Reader = Reader(parseInt: string -> Option<int>, fits: (string, int) -> bool)

  /** The raw text of an output, "" when absent or of another element kind. */
  function RawOf(outputs: Outputs, blocks: Blocks, state: State, name: string): string
    requires name in outputs
  {
    var id, action := BlockOf(outputs, name), ActionIDOf(outputs, name);
    if id !in state || action !in state[id] || id !in blocks then ""
    else if blocks[id].elementType == PLAIN_TEXT_INPUT then state[id][action].value
    else if IsSelect(blocks[id].elementType) then state[id][action].selected
    else ""
  }

  function ZeroOf(kind: OutputType): OutValue {
    if kind.NumberOutput? then IntValue(0) else TextValue("")
  }

  /** parseOutputValue and assignOutputValue. */
  function ParseOutput(outputs: Outputs, name: string, raw: string, reader: Reader): Option<OutValue>
    requires name in outputs
  {
    match outputs[name].kind
    case TextOutput | OpenEnumOutput => Some(TextValue(raw))
    case EnumOutput => if raw in outputs[name].oneOf then Some(TextValue(raw)) else None
    case NumberOutput =>
      var number := reader.parseInt(raw);
      if number.Some? && reader.fits(name, number.value) then Some(IntValue(number.value)) else None
    case UnsupportedOutput(_) => None
  }

  /** The decoded value of one output; None is a submit error for its block. */
  function Decoded(outputs: Outputs, blocks: Blocks, state: State, reader: Reader, name: string): Option<OutValue>
    requires name in outputs
  {
    var raw := RawOf(outputs, blocks, state, name);
    if raw == "" then if outputs[name].required then None else Some(ZeroOf(outputs[name].kind))
    else ParseOutput(outputs, name, raw, reader)
  }

  // ---- Names in order ----------------------------------------------------

  /** The order of strings: by the first code point that differs. */
  predicate Before(a: string, b: string) {
    b != "" && (a == "" || a[0] < b[0] || (a[0] == b[0] && Before(a[1..], b[1..])))
  }

  lemma {:induction false} BeforeTotal(a: string, b: string)
    ensures a == b || Before(a, b) || Before(b, a)
    ensures !(Before(a, b) && Before(b, a)) && !Before(a, a)
  {
    if a != "" {
      BeforeTotal(a[1..], a[1..]);
      if b != "" && a[0] == b[0] {
        BeforeTotal(a[1..], b[1..]);
        assert a[1..] == b[1..] ==> a == [a[0]] + a[1..] == [b[0]] + b[1..] == b;
      }
    }
  }

  lemma {:induction false} BeforeChain(a: string, b: string, c: string)
    requires Before(a, b) && Before(b, c)
    ensures Before(a, c)
  {
    if a != "" && a[0] == b[0] == c[0] {
      BeforeChain(a[1..], b[1..], c[1..]);
    }
  }

  predicate Ascending(names: seq<string>) {
    forall i, j | 0 <= i < j < |names| :: Before(names[i], names[j])
  }

  function Insert(name: string, names: seq<string>): seq<string> {
    if names == [] || Before(name, names[0]) then [name] + names else [names[0]] + Insert(name, names[1..])
  }

  lemma {:induction false} InsertKeeps(name: string, names: seq<string>)
    requires Ascending(names) && name !in names
    ensures Ascending(Insert(name, names))
    ensures forall n :: n in Insert(name, names) <==> n == name || n in names
  {
    hide Before;
    if names != [] {
      var rest := names[1..];
      assert names == [names[0]] + rest;
      BeforeTotal(name, names[0]);
      if Before(name, names[0]) {
        forall j | 0 < j < |names|
          ensures Before(name, names[j])
        {
          BeforeChain(name, names[0], names[j]);
        }
      } else {
        InsertKeeps(name, rest);
        forall n | n in Insert(name, rest)
          ensures Before(names[0], n)
        {
          if n != name {
            var k :| 0 <= k < |rest| && rest[k] == n;
            assert names[k + 1] == n;
          }
        }
        AscendingCons(names[0], Insert(name, rest));
      }
    }
  }

  lemma AscendingCons(first: string, rest: seq<string>)
    requires Ascending(rest) && forall n | n in rest :: Before(first, n)
    ensures Ascending([first] + rest)
  {
    hide Before;
  }

  /** The output names, each once, in order. */
  ghost predicate Lists(names: seq<string>, outputs: Outputs) {
    Ascending(names) && forall name :: name in names <==> name in outputs
  }

  /** The names of a map in sorted order. */
  method SortedNames(outputs: Outputs) returns (names: seq<string>)
    ensures Lists(names, outputs)
  {
    hide Before;
    names := [];
    var pending := outputs.Keys;
    while pending != {}
      invariant pending <= outputs.Keys && Ascending(names)
      invariant forall name :: name in names <==> name in outputs.Keys - pending
      decreases |pending|
    {
      var name :| name in pending;
      InsertKeeps(name, names);
      names := Insert(name, names);
      pending := pending - {name};
    }
  }

  lemma ListedOnce(names: seq<string>, outputs: Outputs)
    requires Lists(names, outputs)
    ensures forall i, j | 0 <= i < j < |names| ::
              Before(names[i], names[j]) && !Before(names[j], names[i]) && names[i] != names[j]
    ensures forall i | 0 <= i < |names| :: !Before(names[i], names[i]) && names[i] in outputs
  {
    hide Before;
    forall i, j | 0 <= i <= j < |names|
      ensures i < j ==> Before(names[i], names[j]) && !Before(names[j], names[i])
      ensures !Before(names[i], names[i])
    {
      BeforeTotal(names[i], names[j]);
    }
  }

  // ---- Decoding into a target --------------------------------------------

  /** The outputs before this one, in sorted order, are decoded, this one cannot
      be, and it and the later ones are zero. */
  ghost predicate StopsAt(fields: map<string, OutValue>, outputs: Outputs, blocks: Blocks, state: State,
                          reader: Reader, name: string)
    requires fields.Keys == outputs.Keys
  {
    && name in outputs && Decoded(outputs, blocks, state, reader, name).None?
    && forall other | other in outputs ::
         if Before(other, name) then Some(fields[other]) == Decoded(outputs, blocks, state, reader, other)
         else fields[other] == ZeroOf(outputs[other].kind)
  }

  /** The registered struct: one field per declared output. */
  class Target {
    var fields: map<string, OutValue>

    constructor (initial: map<string, OutValue>)
      ensures fields == initial
    {
      fields := initial;
    }

    method ClearOutputs(outputs: Outputs, names: seq<string>)
      requires fields.Keys == outputs.Keys && Lists(names, outputs)
      modifies this
      ensures fields.Keys == outputs.Keys && forall name | name in outputs :: fields[name] == ZeroOf(outputs[name].kind)
    {
      hide ZeroOf, Before;
      ListedOnce(names, outputs);
      for i := 0 to |names|
        invariant fields.Keys == outputs.Keys
        invariant forall k | 0 <= k < i :: fields[names[k]] == ZeroOf(outputs[names[k]].kind)
      {
        fields := fields[names[i] := ZeroOf(outputs[names[i]].kind)];
      }
    }

    /** One field: decoded over its zero value, or left alone. */
    method Assign(outputs: Outputs, blocks: Blocks, state: State, reader: Reader, name: string) returns (ok: bool)
      requires fields.Keys == outputs.Keys && name in outputs && fields[name] == ZeroOf(outputs[name].kind)
      modifies this
      ensures ok == Decoded(outputs, blocks, state, reader, name).Some?
      ensures fields == if ok then old(fields)[name := Decoded(outputs, blocks, state, reader, name).value]
              else old(fields)
    {
      hide ParseOutput, RawOf, ZeroOf, Decoded;
      var raw := RawOf(outputs, blocks, state, name);
      DecodedCases(outputs, blocks, state, reader, name);
      if raw == "" {
        assert fields == fields[name := fields[name]];
        return !outputs[name].required;
      }
      var parsed := ParseOutput(outputs, name, raw, reader);
      if parsed.None? { return false; }
      fields := fields[name := parsed.value];
      return true;
    }

    /** Submit. failed is the block of the first output, in sorted order, that
        cannot be read into its field. */
    method Submit(outputs: Outputs, blocks: Blocks, state: State, reader: Reader) returns (failed: Option<string>)
      requires fields.Keys == outputs.Keys
      modifies this
      ensures fields.Keys == outputs.Keys
      ensures failed.None? <==> forall name | name in outputs :: Decoded(outputs, blocks, state, reader, name).Some?
      ensures failed.None? ==>
                forall name | name in outputs :: Some(fields[name]) == Decoded(outputs, blocks, state, reader, name)
      ensures failed.Some? ==>
                exists name :: StopsAt(fields, outputs, blocks, state, reader, name)
                  && failed.value == BlockOf(outputs, name)
    {
      hide ZeroOf, Decoded, BlockOf, Lists, StopsAt, DecodedTo;
      var names := SortedNames(outputs);
      ListedOnce(names, outputs);
      ClearOutputs(outputs, names);
      NoneDecoded(fields, outputs, blocks, state, reader, names);
      for i := 0 to |names|
        invariant fields.Keys == outputs.Keys && DecodedTo(fields, outputs, blocks, state, reader, names, i)
      {
        NextIsZero(fields, outputs, blocks, state, reader, names, i);
        ghost var before := fields;
        var ok := Assign(outputs, blocks, state, reader, names[i]);
        if !ok {
          StoppedAt(fields, outputs, blocks, state, reader, names, i);
          return Some(BlockOf(outputs, names[i]));
        }
        OneMoreDecoded(before, outputs, blocks, state, reader, names, i);
      }
      AllDecoded(fields, outputs, blocks, state, reader, names);
      return None;
    }
  }

  /** The first i outputs are decoded, the others are zero. */
  ghost predicate DecodedTo(fields: map<string, OutValue>, outputs: Outputs, blocks: Blocks, state: State,
                            reader: Reader, names: seq<string>, i: nat) {
    && i <= |names| && Lists(names, outputs) && fields.Keys == outputs.Keys
    && (forall k | 0 <= k < i :: Some(fields[names[k]]) == Decoded(outputs, blocks, state, reader, names[k]))
    && (forall k | i <= k < |names| :: fields[names[k]] == ZeroOf(outputs[names[k]].kind))
  }

  lemma NoneDecoded(fields: map<string, OutValue>, outputs: Outputs, blocks: Blocks, state: State, reader: Reader,
                    names: seq<string>)
    requires Lists(names, outputs) && fields.Keys == outputs.Keys
    requires forall name | name in outputs :: fields[name] == ZeroOf(outputs[name].kind)
    ensures DecodedTo(fields, outputs, blocks, state, reader, names, 0)
  {
    hide Decoded, ZeroOf, Before;
  }

  lemma NextIsZero(fields: map<string, OutValue>, outputs: Outputs, blocks: Blocks, state: State, reader: Reader,
                   names: seq<string>, i: nat)
    requires DecodedTo(fields, outputs, blocks, state, reader, names, i) && i < |names|
    ensures names[i] in outputs && names[i] in fields && fields[names[i]] == ZeroOf(outputs[names[i]].kind)
  {
    hide Decoded, ZeroOf, Before;
  }

  lemma OneMoreDecoded(fields: map<string, OutValue>, outputs: Outputs, blocks: Blocks, state: State, reader: Reader,
                       names: seq<string>, i: nat)
    requires DecodedTo(fields, outputs, blocks, state, reader, names, i) && i < |names| && names[i] in outputs
    requires Decoded(outputs, blocks, state, reader, names[i]).Some?
    ensures var value := Decoded(outputs, blocks, state, reader, names[i]).value;
            DecodedTo(fields[names[i] := value], outputs, blocks, state, reader, names, i + 1)
  {
    hide Decoded, ZeroOf, Before;
    ListedOnce(names, outputs);
  }

  lemma AllDecoded(fields: map<string, OutValue>, outputs: Outputs, blocks: Blocks, state: State, reader: Reader,
                   names: seq<string>)
    requires DecodedTo(fields, outputs, blocks, state, reader, names, |names|)
    ensures fields.Keys == outputs.Keys
    ensures forall name | name in outputs :: Some(fields[name]) == Decoded(outputs, blocks, state, reader, name)
  {
    hide Decoded, ZeroOf, Before;
    forall name | name in outputs
      ensures Some(fields[name]) == Decoded(outputs, blocks, state, reader, name)
    {
      var k :| 0 <= k < |names| && names[k] == name;
    }
  }

  lemma StoppedAt(fields: map<string, OutValue>, outputs: Outputs, blocks: Blocks, state: State, reader: Reader,
                  names: seq<string>, i: nat)
    requires DecodedTo(fields, outputs, blocks, state, reader, names, i) && i < |names| && names[i] in outputs
    requires Decoded(outputs, blocks, state, reader, names[i]).None? && fields.Keys == outputs.Keys
    ensures StopsAt(fields, outputs, blocks, state, reader, names[i])
  {
    hide Decoded, ZeroOf, Before;
    ListedOnce(names, outputs);
    forall other | other in outputs
      ensures if Before(other, names[i]) then Some(fields[other]) == Decoded(outputs, blocks, state, reader, other)
              else fields[other] == ZeroOf(outputs[other].kind)
    {
      var k :| 0 <= k < |names| && names[k] == other;
    }
  }

  lemma DecodedCases(outputs: Outputs, blocks: Blocks, state: State, reader: Reader, name: string)
    requires name in outputs
    ensures var raw, decoded := RawOf(outputs, blocks, state, name), Decoded(outputs, blocks, state, reader, name);
            && (raw == "" && outputs[name].required ==> decoded.None?)
            && (raw == "" && !outputs[name].required ==> decoded == Some(ZeroOf(outputs[name].kind)))
            && (raw != "" ==> decoded == ParseOutput(outputs, name, raw, reader))
  {
  }

  // ---- What a successful submission means --------------------------------

  /** What the user gave for an output: the value typed into the element of its
      block, or the option selected there; "" when the state has none. */
  function Given(output: Output, name: string, state: State): string {
    var id := if output.block == "" then name else output.block;
    var action := if output.action == "" then name else output.action;
    if id !in state || action !in state[id] then ""
    else if output.kind.EnumOutput? || output.kind.OpenEnumOutput? then state[id][action].selected
    else state[id][action].value
  }

  /** Under a valid contract an output fails exactly when it is required and
      nothing was given, when the choice is not on its list, or when the number
      cannot be read or does not fit its field. */
  lemma DecodeFailsIff(outputs: Outputs, blocks: Blocks, state: State, reader: Reader, name: string)
    requires Bijective(outputs, blocks) && name in outputs
    ensures var output, given := outputs[name], Given(outputs[name], name, state);
            Decoded(outputs, blocks, state, reader, name).None? <==>
            || (given == "" && output.required)
            || (given != "" && output.kind.EnumOutput? && given !in output.oneOf)
            || (given != "" && output.kind.NumberOutput?
                && (reader.parseInt(given).None? || !reader.fits(name, reader.parseInt(given).value)))
  {
    GivenIsRaw(outputs, blocks, state, name);
    assert OutputValid(outputs[name]);
  }

  /** Otherwise a text or a choice is what was given, a number is what is read
      from it, and an optional output without a value is zero. */
  lemma DecodedIsGiven(outputs: Outputs, blocks: Blocks, state: State, reader: Reader, name: string)
    requires Bijective(outputs, blocks) && name in outputs && Decoded(outputs, blocks, state, reader, name).Some?
    ensures var given, value := Given(outputs[name], name, state), Decoded(outputs, blocks, state, reader, name).value;
            if !outputs[name].kind.NumberOutput? then value == TextValue(given)
            else value == IntValue(if given == "" then 0 else reader.parseInt(given).value)
  {
    GivenIsRaw(outputs, blocks, state, name);
    assert OutputValid(outputs[name]);
  }

  lemma GivenIsRaw(outputs: Outputs, blocks: Blocks, state: State, name: string)
    requires Bijective(outputs, blocks) && name in outputs
    ensures RawOf(outputs, blocks, state, name) == Given(outputs[name], name, state)
  {
    assert OutputMatches(outputs, blocks, name);
  }

  /** Under a valid contract every present value is read from the element of the
      output's own input block; a required output came from a non-empty one. */
  lemma DecodedFromItsBlock(outputs: Outputs, blocks: Blocks, state: State, reader: Reader, name: string)
    requires Bijective(outputs, blocks) && name in outputs && Decoded(outputs, blocks, state, reader, name).Some?
    ensures outputs[name].required || Decoded(outputs, blocks, state, reader,
            name).value != ZeroOf(outputs[name].kind) ==>
              var id, action := BlockOf(outputs, name), ActionIDOf(outputs, name);
              && id in state && action in state[id] && id in blocks && blocks[id].actionID == action
              && RawOf(outputs, blocks, state, name) != ""
              && RawOf(outputs, blocks, state, name) ==
                   if outputs[name].kind.TextOutput? || outputs[name].kind.NumberOutput? then state[id][action].value
                   else state[id][action].selected
    ensures outputs[name].kind.NumberOutput? ==>
              var value := Decoded(outputs, blocks, state, reader, name).value;
              value.IntValue? && (value.number != 0 ==> reader.fits(name, value.number))
    ensures outputs[name].kind.EnumOutput? && Decoded(outputs, blocks, state, reader, name).value != TextValue("") ==>
              Decoded(outputs, blocks, state, reader, name).value.text in outputs[name].oneOf
  {
  }

  /** Two outputs never read the same element, so changing the state under one
      block changes at most the one output matched to it. */
  lemma BlocksAreIndependent(outputs: Outputs, blocks: Blocks, state: State, id: string,
                             changed: map<string, BlockAction>, reader: Reader, name: string)
    requires Bijective(outputs, blocks) && name in outputs && BlockOf(outputs, name) != id
    ensures Decoded(outputs, blocks, state[id := changed], reader, name) ==
            Decoded(outputs, blocks, state, reader, name)
  {
  }

  /** A valid contract has as many outputs as input blocks. */
  lemma SameCount(outputs: Outputs, blocks: Blocks)
    requires Bijective(outputs, blocks)
    ensures |outputs.Keys| == |blocks.Keys|
  {
    ImageSize(outputs.Keys, outputs);
    var image := set name | name in outputs.Keys :: BlockOf(outputs, name);
    assert image == blocks.Keys;
  }

  lemma {:induction false} ImageSize(names: set<string>, outputs: Outputs)
    requires names <= outputs.Keys
    requires forall a, b | a in names && b in names && BlockOf(outputs, a) == BlockOf(outputs, b) :: a == b
    ensures |set name | name in names :: BlockOf(outputs, name)| == |names|
    decreases |names|
  {
    if names != {} {
      var name :| name in names;
      ImageSize(names - {name}, outputs);
      var smaller := set n | n in names - {name} :: BlockOf(outputs, n);
      assert (set n | n in names :: BlockOf(outputs, n)) == smaller + {BlockOf(outputs, name)};
      assert BlockOf(outputs, name) !in smaller;
    }
  }
}

/** Grouping a content ledger into conversation turns and finding its active
    suffix (internal/domain/compaction.go). */
module Turns {
  import opened Basics

  const CONFIRMATION := "adk_request_confirmation"

  datatype Role = User | Model | OtherRole(name: string)

  /** original is the call a confirmation names in its arguments. */
  datatype Call = Call(id: string, name: string, original: Option<(string, string)>)

  /** placeholder: the response says that the call requires confirmation. */
  datatype Response = Response(id: string, name: string, willContinue: bool, placeholder: bool)

  /** encoded is the size of the canonical JSON of a structured part, when it
      encodes at all. */
  datatype Part = Part(text: string, call: Option<Call>, response: Option<Response>, structured: bool,
    encoded: Option<nat>)

  datatype Content = Content(role: Role, parts: seq<Part>)

  datatype Turn = Turn(ordinal: nat, contents: seq<Content>, charCount: nat, closed: bool,
                       hasOpenConfirmation: bool, hasOpenInvocation: bool)

  datatype Classified = Classified(turns: seq<Turn>, activeStart: nat) | Rejected

  // ---- Plain inputs ------------------------------------------------------

  predicate PlainPart(p: Part) {
    p.call.None? && p.response.None? && !p.structured && p.text != ""
  }

  /** HasPlainText. */
  predicate Plain(c: Content) {
    c.role.User? && c.parts != [] && forall i | 0 <= i < |c.parts| :: PlainPart(c.parts[i])
  }

  method HasPlainText(c: Content) returns (plain: bool)
    ensures plain == Plain(c)
  {
    if !c.role.User? || |c.parts| == 0 { return false; }
    for i := 0 to |c.parts|
      invariant forall k | 0 <= k < i :: PlainPart(c.parts[k])
    {
      var p := c.parts[i];
      if p.call.Some? || p.response.Some? || p.structured || p.text == "" { return false; }
    }
    return true;
  }

  // ---- Costs -------------------------------------------------------------

  function PartCost(p: Part): Option<nat> {
    if p.call.Some? || p.response.Some? || p.structured then p.encoded else Some(|p.text|)
  }

  function Add(a: Option<nat>, b: Option<nat>): Option<nat> {
    if a.None? || b.None? then None else Some(a.value + b.value)
  }

  function PartsCost(parts: seq<Part>): Option<nat> {
    if parts == [] then Some(0) else Add(PartCost(parts[0]), PartsCost(parts[1..]))
  }

  /** ContentCost, before its error is dropped. */
  function Cost(contents: seq<Content>): Option<nat> {
    if contents == [] then Some(0) else Add(PartsCost(contents[0].parts), Cost(contents[1..]))
  }

  /** What a turn records: a cost that cannot be measured counts as nothing. */
  function Recorded(cost: Option<nat>): nat {
    if cost.None? then 0 else cost.value
  }

  lemma {:induction false} CostAppend(a: seq<Content>, b: seq<Content>)
    ensures Cost(a + b) == Add(Cost(a), Cost(b))
  {
    if a == [] {
      assert a + b == b;
    } else {
      CostAppend(a[1..], b);
      assert (a + b)[1..] == a[1..] + b;
    }
  }

  lemma {:induction false} PartsCostAppend(a: seq<Part>, b: seq<Part>)
    ensures PartsCost(a + b) == Add(PartsCost(a), PartsCost(b))
  {
    hide PartCost;
    if a == [] {
      assert a + b == b;
    } else {
      PartsCostAppend(a[1..], b);
      assert (a + b)[1..] == a[1..] + b;
    }
  }

  method ContentPartsCost(parts: seq<Part>) returns (cost: Option<nat>)
    ensures cost == PartsCost(parts)
  {
    hide PartCost;
    var total: nat := 0;
    for j := 0 to |parts|
      invariant PartsCost(parts[..j]) == Some(total)
    {
      PartsCostAppend(parts[..j], [parts[j]]);
      PartsCostAppend(parts[..j + 1], parts[j + 1..]);
      assert parts[..j + 1] == parts[..j] + [parts[j]] && parts == parts[..j + 1] + parts[j + 1..];
      var c := PartCost(parts[j]);
      if c.None? { return None; }
      total := total + c.value;
    }
    assert parts[..|parts|] == parts;
    return Some(total);
  }

  lemma CostNothing()
    ensures Cost([]) == Some(0)
  {
  }

  lemma CostOne(c: Content)
    ensures Cost([c]) == PartsCost(c.parts)
  {
    hide PartsCost;
    assert [c][1..] == [];
  }

  /** One more content; a cost that fails on the way fails in the end. */
  lemma CostMore(contents: seq<Content>, i: nat)
    requires i < |contents|
    ensures Cost(contents[..i + 1]) == Add(Cost(contents[..i]), PartsCost(contents[i].parts))
    ensures Cost(contents[..i + 1]).None? ==> Cost(contents).None?
  {
    hide Cost, PartsCost;
    var front, one, rest := contents[..i], [contents[i]], contents[i + 1..];
    CostOne(contents[i]);
    CostAppend(front, one);
    CostAppend(front + one, rest);
    assert contents[..i + 1] == front + one && contents == front + one + rest;
  }

  /** ContentCost. */
  method ContentCost(contents: seq<Content>) returns (cost: Option<nat>)
    ensures cost == Cost(contents)
  {
    hide Cost, PartsCost;
    var total: nat := 0;
    CostNothing();
    for i := 0 to |contents|
      invariant Cost(contents[..i]) == Some(total)
    {
      CostMore(contents, i);
      var c := ContentPartsCost(contents[i].parts);
      if c.None? { return None; }
      total := total + c.value;
    }
    assert contents[..|contents|] == contents;
    return Some(total);
  }

  /** The text of plain parts, one after the other. */
  function Words(contents: seq<Content>): string {
    if contents == [] then "" else PartWords(contents[0].parts) + Words(contents[1..])
  }

  function PartWords(parts: seq<Part>): string {
    if parts == [] then "" else parts[0].text + PartWords(parts[1..])
  }

  predicate OnlyText(parts: seq<Part>) {
    forall j | 0 <= j < |parts| :: parts[j].call.None? && parts[j].response.None? && !parts[j].structured
  }

  lemma {:induction false} PartsCostText(parts: seq<Part>)
    requires OnlyText(parts)
    ensures PartsCost(parts) == Some(|PartWords(parts)|)
  {
    if parts != [] {
      PartsCostText(parts[1..]);
    }
  }

  /** Contents of text alone cost their length. */
  lemma {:induction false} TextCost(contents: seq<Content>)
    requires forall i | 0 <= i < |contents| :: OnlyText(contents[i].parts)
    ensures Cost(contents) == Some(|Words(contents)|)
  {
    hide PartsCost, PartWords;
    if contents != [] {
      PartsCostText(contents[0].parts);
      TextCost(contents[1..]);
    }
  }

  // ---- The partition -----------------------------------------------------

  /** One plain input, the first content. */
  predicate IsTurn(contents: seq<Content>) {
    contents != [] && Plain(contents[0]) && forall i | 0 < i < |contents| :: !Plain(contents[i])
  }

  function Flatten(turns: seq<Turn>): seq<Content> {
    if turns == [] then [] else turns[0].contents + Flatten(turns[1..])
  }

  lemma {:induction false} FlattenAppend(turns: seq<Turn>, turn: Turn)
    ensures Flatten(turns + [turn]) == Flatten(turns) + turn.contents
  {
    if turns == [] {
      assert turns + [turn] == [turn];
    } else {
      FlattenAppend(turns[1..], turn);
      assert (turns + [turn])[1..] == turns[1..] + [turn];
    }
  }

  /** Turn i as newTurn leaves it. */
  predicate Fresh(turn: Turn, i: nat, closed: bool) {
    && turn.ordinal == i + 1 && IsTurn(turn.contents) && turn.charCount == Recorded(Cost(turn.contents))
    && turn.closed == closed && !turn.hasOpenConfirmation && !turn.hasOpenInvocation
  }

  /** newTurn. */
  method NewTurn(ordinal: nat, contents: seq<Content>, closed: bool) returns (turn: Turn)
    ensures turn == Turn(ordinal, contents, Recorded(Cost(contents)), closed, false, false)
  {
    var cost := ContentCost(contents);
    turn := Turn(ordinal, contents, Recorded(cost), closed, false, false);
  }

  /** The contents of some turns, each with its own plain input, reassemble to
      the same list in one way only. */
  lemma {:induction false} PartitionUnique(a: seq<Turn>, b: seq<Turn>)
    requires forall i | 0 <= i < |a| :: IsTurn(a[i].contents)
    requires forall i | 0 <= i < |b| :: IsTurn(b[i].contents)
    requires Flatten(a) == Flatten(b)
    ensures |a| == |b| && forall i | 0 <= i < |a| :: a[i].contents == b[i].contents
  {
    hide Plain;
    if a != [] && b != [] {
      HeadLength(a, b);
      assert a[0].contents == Flatten(a)[..|a[0].contents|];
      assert b[0].contents == Flatten(b)[..|b[0].contents|];
      assert Flatten(a[1..]) == Flatten(a)[|a[0].contents|..];
      PartitionUnique(a[1..], b[1..]);
    }
  }

  /** The first turn ends where the next plain input stands. */
  lemma HeadEnds(turns: seq<Turn>)
    requires turns != [] && forall i | 0 <= i < |turns| :: IsTurn(turns[i].contents)
    ensures var n := |turns[0].contents|;
            && 0 < n <= |Flatten(turns)| && (forall i | 0 < i < n :: !Plain(Flatten(turns)[i]))
            && (n < |Flatten(turns)| ==> Plain(Flatten(turns)[n]))
  {
    hide Plain;
    assert Flatten(turns) == turns[0].contents + Flatten(turns[1..]);
    if |turns| > 1 {
      assert turns[1..][0] == turns[1];
    }
  }

  lemma HeadLength(a: seq<Turn>, b: seq<Turn>)
    requires a != [] && b != [] && Flatten(a) == Flatten(b)
    requires forall i | 0 <= i < |a| :: IsTurn(a[i].contents)
    requires forall i | 0 <= i < |b| :: IsTurn(b[i].contents)
    ensures |a[0].contents| == |b[0].contents|
  {
    hide Plain, IsTurn, Flatten;
    HeadEnds(a);
    HeadEnds(b);
  }

  // ---- Positions ---------------------------------------------------------

  function Covered(turns: seq<Turn>): nat {
    if turns == [] then 0 else |turns[0].contents| + Covered(turns[1..])
  }

  lemma {:induction false} CoveredIsFlattened(turns: seq<Turn>)
    ensures Covered(turns) == |Flatten(turns)|
  {
    if turns != [] {
      CoveredIsFlattened(turns[1..]);
    }
  }

  lemma {:induction false} CoveredSplit(turns: seq<Turn>, i: nat)
    requires i <= |turns|
    ensures Covered(turns) == Covered(turns[..i]) + Covered(turns[i..])
    ensures i < |turns| ==> Covered(turns[..i + 1]) == Covered(turns[..i]) + |turns[i].contents|
  {
    if i == 0 {
      assert turns[..0] == [] && turns[0..] == turns;
      if turns != [] {
        assert turns[..1][1..] == [];
      }
    } else {
      CoveredSplit(turns[1..], i - 1);
      assert turns[1..][..i - 1] == turns[..i][1..] && turns[1..][i - 1..] == turns[i..];
      if i < |turns| {
        assert turns[1..][..i] == turns[..i + 1][1..];
      }
    }
  }

  /** The content at contentIndex of a ledger of total contents lies in turn i,
      when the turns cover the end of the ledger. */
  predicate InTurn(turns: seq<Turn>, contentIndex: int, total: int, i: nat) {
    i < |turns| && 0 <= contentIndex < total && Covered(turns) <= total
    && total - Covered(turns) + Covered(turns[..i]) <= contentIndex < total - Covered(turns) + Covered(turns[..i + 1])
  }

  /** ConversationTurnIndexAt. */
  method ConversationTurnIndexAt(turns: seq<Turn>, contentIndex: int, total: int) returns (index: int)
    ensures -1 <= index < |turns|
    ensures forall i | 0 <= i < |turns| :: InTurn(turns, contentIndex, total, i) <==> i == index
  {
    var covered := TurnContentCount(turns);
    if contentIndex < 0 || contentIndex >= total || total < covered { return -1; }
    var offset := total - covered;
    for i := 0 to |turns|
      invariant offset == total - covered + Covered(turns[..i])
      invariant forall k | 0 <= k < i :: !InTurn(turns, contentIndex, total, k)
      invariant i > 0 ==> contentIndex < total - covered || contentIndex >= offset
    {
      CoveredSplit(turns, i);
      if contentIndex >= offset && contentIndex < offset + |turns[i].contents| {
        forall k | i < k < |turns|
          ensures !InTurn(turns, contentIndex, total, k)
        {
          CoveredGrows(turns, i + 1, k);
        }
        return i;
      }
      offset := offset + |turns[i].contents|;
    }
    return -1;
  }

  lemma {:induction false} CoveredGrows(turns: seq<Turn>, i: nat, k: nat)
    requires i <= k <= |turns|
    ensures Covered(turns[..i]) <= Covered(turns[..k])
  {
    CoveredSplit(turns[..k], i);
    assert turns[..k][..i] == turns[..i];
  }

  method TurnContentCount(turns: seq<Turn>) returns (count: nat)
    ensures count == Covered(turns)
  {
    count := 0;
    for i := 0 to |turns|
      invariant count == Covered(turns[..i])
    {
      CoveredSplit(turns, i);
      count := count + |turns[i].contents|;
    }
    assert turns[..|turns|] == turns;
  }

  /** Every covered content lies in exactly one turn: the layout inverts. */
  lemma {:induction false} LayoutInverts(turns: seq<Turn>, total: nat, i: nat, k: nat)
    requires i < |turns| && k < |turns[i].contents| && Covered(turns) <= total
    ensures InTurn(turns, total - Covered(turns) + Covered(turns[..i]) + k, total, i)
    ensures Covered(turns[..i]) + k < |Flatten(turns)|
    ensures Flatten(turns)[Covered(turns[..i]) + k] == turns[i].contents[k]
  {
    CoveredSplit(turns, i);
    CoveredIsFlattened(turns);
    CoveredGrows(turns, i + 1, |turns|);
    assert turns[..|turns|] == turns;
    FlattenAt(turns, i, k);
  }

  lemma {:induction false} FlattenAt(turns: seq<Turn>, i: nat, k: nat)
    requires i < |turns| && k < |turns[i].contents|
    ensures Covered(turns[..i]) + k < |Flatten(turns)|
    ensures Flatten(turns)[Covered(turns[..i]) + k] == turns[i].contents[k]
  {
    if i == 0 {
      assert turns[..0] == [];
    } else {
      FlattenAt(turns[1..], i - 1, k);
      assert turns[1..][..i - 1] == turns[..i][1..];
    }
  }
}

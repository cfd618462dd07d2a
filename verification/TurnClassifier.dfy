/** ClassifyConversationTurns: the partition, the active suffix, and the open
    flags (internal/domain/compaction.go). */
module TurnClassifier {
  import opened Basics
  import P = Protocol
  import R = ProtocolRules
  import opened Turns

  // ---- Calls -------------------------------------------------------------

  predicate Calls(c: Content, id: string) {
    exists j | 0 <= j < |c.parts| :: c.parts[j].call.Some? && c.parts[j].call.value.id == id
  }

  function RecordIndex(m: map<string, nat>, parts: seq<Part>, index: nat): map<string, nat> {
    if parts == [] then m
    else
      var n, before := |parts| - 1, RecordIndex(m, parts[..|parts| - 1], index);
      if parts[n].call.Some? then before[parts[n].call.value.id := index] else before
  }

  /** Every call ID with the last content that calls it. */
  function CallMap(contents: seq<Content>): map<string, nat> {
    if contents == [] then map[]
    else RecordIndex(CallMap(contents[..|contents| - 1]), contents[|contents| - 1].parts, |contents| - 1)
  }

  lemma {:induction false} RecordIndexIs(m: map<string, nat>, parts: seq<Part>, index: nat, role: Role, id: string)
    ensures id in RecordIndex(m, parts, index) <==> Calls(Content(role, parts), id) || id in m
    ensures id in RecordIndex(m, parts, index) ==>
            RecordIndex(m, parts, index)[id] == if Calls(Content(role, parts), id) then index else m[id]
  {
    if parts != [] {
      var front := parts[..|parts| - 1];
      RecordIndexIs(m, front, index, role, id);
      var c, d := Content(role, parts), Content(role, front);
      assert forall j | 0 <= j < |front| :: c.parts[j] == d.parts[j];
      if Calls(d, id) {
        var j :| 0 <= j < |front| && front[j].call.Some? && front[j].call.value.id == id;
        assert parts[j].call.value.id == id;
      }
    }
  }

  /** An ID is mapped exactly when some content calls it, and to the last one. */
  lemma {:induction false} CallMapIsLast(contents: seq<Content>, id: string)
    ensures id in CallMap(contents) <==> exists k | 0 <= k < |contents| :: Calls(contents[k], id)
    ensures id in CallMap(contents) ==> CallMap(contents)[id] < |contents| && Calls(contents[CallMap(contents)[id]], id)
    ensures forall k | 0 <= k < |contents| && Calls(contents[k], id) :: k <= CallMap(contents)[id]
  {
    hide Calls;
    if contents != [] {
      var n := |contents| - 1;
      var front := contents[..n];
      CallMapIsLast(front, id);
      RecordIndexIs(CallMap(front), contents[n].parts, n, contents[n].role, id);
      assert contents[n] == Content(contents[n].role, contents[n].parts);
      assert forall k | 0 <= k < n :: front[k] == contents[k];
    }
  }

  /** The calls an accepted ledger records are the calls of its contents. */
  lemma {:induction false} ScannedCalls(contents: seq<Content>, opts: P.Options)
    requires P.ScanContents(contents, opts).Scanned?
    ensures P.ScanContents(contents, opts).ledger.calls.Keys == CallMap(contents).Keys
  {
    hide P.ScanParts, RecordIndex;
    if contents != [] {
      var n := |contents| - 1;
      ScannedCalls(contents[..n], opts);
      ScannedParts(P.ScanContents(contents[..n], opts).ledger, contents[n].parts, opts, CallMap(contents[..n]), n);
    }
  }

  lemma {:induction false} ScannedParts(l: P.Ledger, parts: seq<Part>, opts: P.Options, m: map<string, nat>, index: nat)
    requires l.calls.Keys == m.Keys && P.ScanParts(l, parts, opts).Scanned?
    ensures P.ScanParts(l, parts, opts).ledger.calls.Keys == RecordIndex(m, parts, index).Keys
  {
    hide P.ScanPart;
    if parts != [] {
      var n := |parts| - 1;
      ScannedParts(l, parts[..n], opts, m, index);
      PartCalls(P.ScanParts(l, parts[..n], opts).ledger, parts[n], opts);
    }
  }

  lemma PartCalls(l: P.Ledger, p: Part, opts: P.Options)
    requires P.ScanPart(l, p, opts).Scanned?
    ensures P.ScanPart(l, p, opts).ledger.calls.Keys == l.calls.Keys + if p.call.Some? then {p.call.value.id} else {}
  {
    hide P.Open, P.ResponseRule;
  }

  method CallIndexes(contents: seq<Content>) returns (m: map<string, nat>)
    ensures m == CallMap(contents)
  {
    m := map[];
    for i := 0 to |contents|
      invariant m == CallMap(contents[..i])
    {
      var parts := contents[i].parts;
      ghost var before := m;
      for j := 0 to |parts|
        invariant m == RecordIndex(before, parts[..j], i)
      {
        assert parts[..j + 1][..j] == parts[..j];
        if parts[j].call.Some? { m := m[parts[j].call.value.id := i]; }
      }
      assert parts[..|parts|] == parts;
      assert contents[..i + 1][..i] == contents[..i];
    }
    assert contents[..|contents|] == contents;
  }

  function RecordName(m: map<string, string>, parts: seq<Part>): map<string, string> {
    if parts == [] then m
    else
      var n, before := |parts| - 1, RecordName(m, parts[..|parts| - 1]);
      if parts[n].call.Some? then before[parts[n].call.value.id := parts[n].call.value.name] else before
  }

  /** Every call ID with the name it was last called by. */
  function NameMap(contents: seq<Content>): map<string, string> {
    if contents == [] then map[]
    else RecordName(NameMap(contents[..|contents| - 1]), contents[|contents| - 1].parts)
  }

  method CallNames(contents: seq<Content>) returns (m: map<string, string>)
    ensures m == NameMap(contents)
  {
    m := map[];
    for i := 0 to |contents|
      invariant m == NameMap(contents[..i])
    {
      var parts := contents[i].parts;
      ghost var before := m;
      for j := 0 to |parts|
        invariant m == RecordName(before, parts[..j])
      {
        assert parts[..j + 1][..j] == parts[..j];
        if parts[j].call.Some? { m := m[parts[j].call.value.id := parts[j].call.value.name]; }
      }
      assert parts[..|parts|] == parts;
      assert contents[..i + 1][..i] == contents[..i];
    }
    assert contents[..|contents|] == contents;
  }

  /** Some part calls id by that name. */
  predicate CallsAs(c: Content, id: string, name: string) {
    exists j | 0 <= j < |c.parts| :: c.parts[j].call.Some? && c.parts[j].call.value.id == id
      && c.parts[j].call.value.name == name
  }

  lemma {:induction false} RecordNameIs(m: map<string, string>, parts: seq<Part>, role: Role, id: string)
    ensures id in RecordName(m, parts) <==> Calls(Content(role, parts), id) || id in m
    ensures id in RecordName(m, parts) ==>
              CallsAs(Content(role, parts), id, RecordName(m, parts)[id])
                || (id in m && m[id] == RecordName(m, parts)[id])
  {
    if parts != [] {
      var n := |parts| - 1;
      var front := parts[..n];
      RecordNameIs(m, front, role, id);
      CallsMore(parts, role, id);
      if id in RecordName(m, front) { CallsAsMore(parts, role, id, RecordName(m, front)[id]); }
    }
  }

  lemma CallsMore(parts: seq<Part>, role: Role, id: string)
    requires parts != []
    ensures var n := |parts| - 1;
            Calls(Content(role, parts), id) <==>
                Calls(Content(role, parts[..n]), id) || (parts[n].call.Some? && parts[n].call.value.id == id)
  {
    var n := |parts| - 1;
    var front := parts[..n];
    assert forall j | 0 <= j < n :: front[j] == parts[j];
    if Calls(Content(role, front), id) {
      var j :| 0 <= j < |front| && front[j].call.Some? && front[j].call.value.id == id;
      assert Content(role, parts).parts[j].call.value.id == id;
    }
  }

  lemma CallsAsMore(parts: seq<Part>, role: Role, id: string, name: string)
    requires parts != []
    ensures CallsAs(Content(role, parts[..|parts| - 1]), id, name) ==> CallsAs(Content(role, parts), id, name)
  {
    var front := parts[..|parts| - 1];
    if CallsAs(Content(role, front), id, name) {
      var j :| 0 <= j < |front| && front[j].call.Some? && front[j].call.value.id == id
        && front[j].call.value.name == name;
      assert Content(role, parts).parts[j].call.value.id == id;
    }
  }

  /** An ID has a name exactly when some content calls it, by that name. */
  lemma {:induction false} NameMapIs(contents: seq<Content>, id: string)
    ensures id in NameMap(contents) <==> exists k | 0 <= k < |contents| :: Calls(contents[k], id)
    ensures id in NameMap(contents) ==> exists k | 0 <= k < |contents| ::
            CallsAs(contents[k], id, NameMap(contents)[id])
  {
    hide Calls, CallsAs;
    if contents != [] {
      var n := |contents| - 1;
      var front := contents[..n];
      NameMapIs(front, id);
      RecordNameIs(NameMap(front), contents[n].parts, contents[n].role, id);
      assert contents[n] == Content(contents[n].role, contents[n].parts);
      assert forall k | 0 <= k < n :: front[k] == contents[k];
      if id in NameMap(front) {
        var k :| 0 <= k < |front| && CallsAs(front[k], id, NameMap(front)[id]);
        assert CallsAs(contents[k], id, NameMap(front)[id]);
      }
    }
  }

  // ---- The active suffix -------------------------------------------------

  /** The last plain input at or before i, or -1. */
  function PlainBefore(contents: seq<Content>, i: int): (p: int)
    requires i < |contents|
    ensures -1 <= p < |contents| && (0 <= i ==> p <= i) && (p >= 0 ==> Plain(contents[p]))
    ensures forall k | 0 <= k <= i && k > p :: !Plain(contents[k])
    decreases i + 1
  {
    if i < 0 then -1 else if Plain(contents[i]) then i else PlainBefore(contents, i - 1)
  }

  /** invocationStartAt. */
  function InvocationStart(contents: seq<Content>, i: nat): nat
    requires i < |contents|
  {
    var p := PlainBefore(contents, i);
    if p >= 0 then p else i
  }

  method InvocationStartAt(contents: seq<Content>, callIndex: nat) returns (start: nat)
    requires callIndex < |contents|
    ensures start == InvocationStart(contents, callIndex)
  {
    hide Plain;
    var index: int := callIndex;
    while index >= 0
      invariant -1 <= index <= callIndex
      invariant PlainBefore(contents, callIndex) == PlainBefore(contents, index)
    {
      var plain := HasPlainText(contents[index]);
      if plain { return index; }
      index := index - 1;
    }
    return callIndex;
  }

  predicate StartsAt(contents: seq<Content>, ids: set<string>, id: string, a: int) {
    var calls := CallMap(contents);
    id in ids && id in calls && calls[id] < |contents| && a == InvocationStart(contents, calls[id])
  }

  /** a is the minimum of the last turn's start and the starts of the called ids. */
  predicate Least(contents: seq<Content>, ids: set<string>, lastStart: nat, a: nat) {
    && a <= lastStart && (a == lastStart || exists id | id in ids :: StartsAt(contents, ids, id, a))
    && forall id | id in ids && id in CallMap(contents) && CallMap(contents)[id] < |contents| ::
         a <= InvocationStart(contents, CallMap(contents)[id])
  }

  /** The minimum does not depend on the order the ids are visited in. */
  lemma LeastUnique(contents: seq<Content>, ids: set<string>, lastStart: nat, a: nat, b: nat)
    requires Least(contents, ids, lastStart, a) && Least(contents, ids, lastStart, b)
    ensures a == b
  {
    hide CallMap, InvocationStart;
    if a != lastStart {
      var id :| id in ids && StartsAt(contents, ids, id, a);
    }
    if b != lastStart {
      var id :| id in ids && StartsAt(contents, ids, id, b);
    }
  }

  /** No call that is open stands before the active suffix. */
  lemma OpenCallsAreActive(contents: seq<Content>, ids: set<string>, lastStart: nat, a: nat, id: string)
    requires P.ScanContents(contents, LIFECYCLE).Scanned?
    requires P.OpenIDs(P.ScanContents(contents, LIFECYCLE).ledger.calls) <= ids
    requires Least(contents, ids, lastStart, a) && id in P.OpenIDs(P.ScanContents(contents, LIFECYCLE).ledger.calls)
    ensures id in CallMap(contents) && a <= CallMap(contents)[id] < |contents|
  {
    hide CallMap, Calls, P.ScanContents;
    ScannedCalls(contents, LIFECYCLE);
    CallMapIsLast(contents, id);
  }

  /** The loop over the open ids, in any order. */
  method ActiveStart(contents: seq<Content>, ids: set<string>, lastStart: nat) returns (a: nat)
    ensures Least(contents, ids, lastStart, a)
  {
    hide CallMap, InvocationStart;
    var calls := CallIndexes(contents);
    a := lastStart;
    var rest := ids;
    while rest != {}
      invariant rest <= ids && Least(contents, ids - rest, lastStart, a)
    {
      var id :| id in rest;
      ghost var before := a;
      if id in calls {
        CallMapIsLast(contents, id);
        var start := InvocationStartAt(contents, calls[id]);
        if start < a { a := start; }
      }
      LeastStep(contents, ids - rest, id, lastStart, before, a);
      assert ids - (rest - {id}) == ids - rest + {id};
      rest := rest - {id};
    }
    assert ids - {} == ids;
  }

  function Min(a: nat, b: nat): nat {
    if a < b then a else b
  }

  lemma LeastStep(contents: seq<Content>, ids: set<string>, id: string, lastStart: nat, before: nat, a: nat)
    requires Least(contents, ids, lastStart, before)
    requires id !in CallMap(contents) ==> a == before
    requires id in CallMap(contents) ==>
               CallMap(contents)[id] < |contents| && a == Min(InvocationStart(contents, CallMap(contents)[id]), before)
    ensures Least(contents, ids + {id}, lastStart, a)
  {
    hide CallMap, InvocationStart;
    if a == before {
      if a != lastStart {
        var other :| other in ids && StartsAt(contents, ids, other, a);
        assert StartsAt(contents, ids + {id}, other, a);
      }
    } else {
      assert StartsAt(contents, ids + {id}, id, a);
    }
  }

  // ---- Cutting into turns ------------------------------------------------

  predicate KnownRole(c: Content) {
    !c.role.OtherRole?
  }

  predicate KnownRoles(contents: seq<Content>) {
    forall i | 0 <= i < |contents| :: KnownRole(contents[i])
  }

  /** The first plain input, or the end. */
  function First(contents: seq<Content>): (f: nat)
    ensures f <= |contents| && (f < |contents| ==> Plain(contents[f]))
    ensures forall k | 0 <= k < f :: !Plain(contents[k])
  {
    if contents == [] || Plain(contents[0]) then 0 else 1 + First(contents[1..])
  }

  predicate AllFresh(turns: seq<Turn>, closed: bool) {
    forall i | 0 <= i < |turns| :: Fresh(turns[i], i, closed || i < |turns| - 1)
  }

  /** What cutting yields: fresh turns over the suffix from the first plain input. */
  predicate Cut(contents: seq<Content>, turns: seq<Turn>, start: nat) {
    && start < |contents| && Plain(contents[start]) && (forall k | start < k < |contents| :: !Plain(contents[k]))
    && turns != [] && AllFresh(turns, false) && Flatten(turns) == contents[First(contents)..]
  }

  datatype CutResult = CutOk(turns: seq<Turn>, start: nat) | CutFailed

  method CutTurns(contents: seq<Content>) returns (r: CutResult)
    ensures r.CutFailed? <==> !KnownRoles(contents) || First(contents) == |contents|
    ensures r.CutOk? ==> Cut(contents, r.turns, r.start)
  {
    hide Plain, Cost, IsTurn, KnownRole;
    var turns: seq<Turn> := [];
    var start := -1;
    for i := 0 to |contents|
      invariant KnownRoles(contents[..i])
      invariant Pending(contents, turns, start, i)
    {
      if contents[i].role.OtherRole? {
        BadRole(contents, i);
        return CutFailed;
      }
      assert KnownRoles(contents[..i + 1]) by { MoreRoles(contents, i); }
      var plain := HasPlainText(contents[i]);
      if plain {
        if start >= 0 {
          var turn := NewTurn(|turns| + 1, contents[start..i], true);
          PendingTurn(contents, turns, start, i, turn);
          turns := turns + [turn];
        } else {
          PendingFirst(contents, turns, start, i);
        }
        start := i;
      } else {
        PendingOn(contents, turns, start, i);
      }
    }
    assert contents[..|contents|] == contents;
    if start < 0 {
      NoFirst(contents, turns, start);
      return CutFailed;
    }
    var turn := NewTurn(|turns| + 1, contents[start..], false);
    PendingLast(contents, turns, start, turn);
    return CutOk(turns + [turn], start);
  }

  /** After i contents: closed turns up to start, where the next one began. */
  predicate Pending(contents: seq<Content>, turns: seq<Turn>, start: int, i: nat) {
    && -1 <= start < i <= |contents|
    && (forall k | start < k < i :: !Plain(contents[k])) && AllFresh(turns, true)
    && (start < 0 ==> turns == [])
    && (start >= 0 ==>
        Plain(contents[start]) && First(contents) <= start && Flatten(turns) == contents[First(contents)..start])
  }

  lemma BadRole(contents: seq<Content>, i: nat)
    requires i < |contents| && contents[i].role.OtherRole?
    ensures !KnownRoles(contents)
  {
    assert !KnownRole(contents[i]);
  }

  lemma MoreRoles(contents: seq<Content>, i: nat)
    requires i < |contents| && KnownRoles(contents[..i]) && !contents[i].role.OtherRole?
    ensures KnownRoles(contents[..i + 1])
  {
    var before, after := contents[..i], contents[..i + 1];
    forall k | 0 <= k < |after|
      ensures KnownRole(after[k])
    {
      if k < i { assert KnownRole(before[k]); }
    }
  }

  lemma JoinSlices<T>(s: seq<T>, a: nat, b: nat, c: nat)
    requires a <= b <= c <= |s|
    ensures s[a..b] + s[b..c] == s[a..c]
  {
  }

  lemma SliceIsTurn(contents: seq<Content>, start: nat, i: nat)
    requires start < i <= |contents| && Plain(contents[start]) && forall k | start < k < i :: !Plain(contents[k])
    ensures IsTurn(contents[start..i])
  {
    hide Plain;
  }

  lemma NewTurnFresh(turn: Turn, i: nat, closed: bool)
    requires IsTurn(turn.contents)
    requires turn == Turn(i + 1, turn.contents, Recorded(Cost(turn.contents)), closed, false, false)
    ensures Fresh(turn, i, closed)
  {
    hide Cost, IsTurn;
  }

  lemma AppendFresh(turns: seq<Turn>, turn: Turn, closed: bool)
    requires AllFresh(turns, true) && Fresh(turn, |turns|, closed)
    ensures AllFresh(turns + [turn], closed)
  {
    hide Fresh;
  }

  lemma PendingTurn(contents: seq<Content>, turns: seq<Turn>, start: nat, i: nat, turn: Turn)
    requires Pending(contents, turns, start, i) && i < |contents| && Plain(contents[i])
    requires turn == Turn(|turns| + 1, contents[start..i], Recorded(Cost(contents[start..i])), true, false, false)
    ensures Pending(contents, turns + [turn], i, i + 1)
  {
    hide Plain, Cost, First, Flatten, IsTurn, Fresh, AllFresh;
    FlattenAppend(turns, turn);
    JoinSlices(contents, First(contents), start, i);
    SliceIsTurn(contents, start, i);
    NewTurnFresh(turn, |turns|, true);
    AppendFresh(turns, turn, true);
  }

  lemma PendingFirst(contents: seq<Content>, turns: seq<Turn>, start: int, i: nat)
    requires Pending(contents, turns, start, i) && start < 0 && i < |contents| && Plain(contents[i])
    ensures Pending(contents, turns, i, i + 1)
  {
    hide Plain;
    assert First(contents) == i;
  }

  lemma PendingOn(contents: seq<Content>, turns: seq<Turn>, start: int, i: nat)
    requires Pending(contents, turns, start, i) && i < |contents| && !Plain(contents[i])
    ensures Pending(contents, turns, start, i + 1)
  {
  }

  lemma NoFirst(contents: seq<Content>, turns: seq<Turn>, start: int)
    requires Pending(contents, turns, start, |contents|) && start < 0
    ensures First(contents) == |contents|
  {
    hide Plain;
  }

  lemma PendingLast(contents: seq<Content>, turns: seq<Turn>, start: nat, turn: Turn)
    requires Pending(contents, turns, start, |contents|)
    requires turn == Turn(|turns| + 1, contents[start..], Recorded(Cost(contents[start..])), false, false, false)
    ensures Cut(contents, turns + [turn], start) && First(contents) < |contents|
  {
    hide Plain, Cost, First, Flatten, IsTurn, Fresh, AllFresh;
    LastFlattens(contents, turns, First(contents), start, turn);
    ToEnd(contents, start);
    SliceIsTurn(contents, start, |contents|);
    NewTurnFresh(turn, |turns|, false);
    AppendFresh(turns, turn, false);
  }

  lemma ToEnd<T>(s: seq<T>, i: nat)
    requires i <= |s|
    ensures s[i..|s|] == s[i..]
  {
  }

  lemma LastFlattens(contents: seq<Content>, turns: seq<Turn>, first: nat, start: nat, turn: Turn)
    requires first <= start <= |contents|
    requires Flatten(turns) == contents[first..start] && turn.contents == contents[start..]
    ensures Flatten(turns + [turn]) == contents[first..]
  {
    hide Flatten;
    FlattenAppend(turns, turn);
    JoinSlices(contents, first, start, |contents|);
    ToEnd(contents, start);
    ToEnd(contents, first);
  }

  // ---- Classification ----------------------------------------------------

  /** The open flags of a turn, given whether the active suffix starts in it. */
  predicate Marked(turn: Turn, last: bool, here: bool, ids: set<string>) {
    var names := NameMap(turn.contents);
    && turn.closed == (!last && !here)
    && turn.hasOpenInvocation == (here && exists id | id in ids :: id in names)
    && turn.hasOpenConfirmation == (here && exists id | id in ids :: id in names && names[id] == CONFIRMATION)
  }

  ghost predicate ClassifiedAs(contents: seq<Content>, ids: set<string>, r: Classified) {
    && r.Classified? && Flatten(r.turns) == contents[First(contents)..]
    && (forall i | 0 <= i < |r.turns| ::
          && r.turns[i].ordinal == i + 1 && IsTurn(r.turns[i].contents)
            && r.turns[i].charCount == Recorded(Cost(r.turns[i].contents))
          && Marked(r.turns[i], i == |r.turns| - 1, InTurn(r.turns, r.activeStart, |contents|, i), ids))
    && PlainBefore(contents, |contents| - 1) >= 0 && Least(contents, ids, PlainBefore(contents, |contents| - 1),
      r.activeStart)
  }

  const LIFECYCLE := P.Options(true, false)

  /** The calls kept open elsewhere, and those the protocol leaves open. */
  function OpenNow(contents: seq<Content>, external: set<string>): set<string> {
    external + P.OpenIDs(P.ScanContents(contents, LIFECYCLE).ledger.calls)
  }

  /** ClassifyConversationTurns. external are the invocations known to be open
      elsewhere. */
  method ClassifyConversationTurns(contents: seq<Content>, external: set<string>) returns (r: Classified)
    ensures r.Rejected? <==>
              contents != [] && (First(contents) == |contents| || !R.RolesKnown(contents)
                                 || !R.Fine(R.PartsOf(contents), LIFECYCLE))
    ensures contents == [] ==> r == Classified([], 0)
    ensures contents != [] && r.Classified? ==> ClassifiedAs(contents, OpenNow(contents, external), r)
  {
    hide Plain, Cost, IsTurn, KnownRoles, Least, First, Flatten, NameMap, InTurn, P.ScanContents, P.OpenIDs,
      R.RolesKnown, R.Fine, R.Mirrors;
    if |contents| == 0 { return Classified([], 0); }
    R.AcceptedIff(contents, LIFECYCLE);
    var cut := CutTurns(contents);
    if cut.CutFailed? {
      if !KnownRoles(contents) { BadRolesViolate(contents); }
      return Rejected;
    }
    var scan := P.ScanContentProtocol(contents, LIFECYCLE);
    if scan.Violated? { return Rejected; }
    var turns := cut.turns;
    var open := WithOpenCalls(external, scan.ledger.calls);
    LastStart(contents, cut.start);
    var activeStart := ActiveStart(contents, open, cut.start);
    var index := ConversationTurnIndexAt(turns, activeStart, |contents|);
    if index >= 0 {
      var turn := MarkOpen(turns[index], open);
      KeepLayout(turns, index, turn);
      ghost var before := turns;
      turns := turns[index := turn];
      forall i | 0 <= i < |turns|
        ensures InTurn(turns, activeStart, |contents|, i) <==> i == index
      {
        SameInTurn(before, turns, activeStart, |contents|, i);
      }
    }
    return Classified(turns, activeStart);
  }

  /** The loop over the ledger's calls, in any order. */
  method WithOpenCalls(external: set<string>, calls: P.Calls) returns (open: set<string>)
    ensures open == external + P.OpenIDs(calls)
  {
    open := external;
    var rest := calls.Keys;
    while rest != {}
      invariant rest <= calls.Keys && open == external + (P.OpenIDs(calls) - rest)
    {
      var id :| id in rest;
      if P.Open(calls[id]) { open := open + {id}; }
      rest := rest - {id};
    }
  }

  /** The scan rejects a ledger with an unknown role. */
  lemma {:induction false} BadRolesViolate(contents: seq<Content>)
    requires !KnownRoles(contents)
    ensures P.ScanContents(contents, LIFECYCLE).Violated?
  {
    hide P.ScanParts, KnownRole;
    var n := |contents| - 1;
    var i :| 0 <= i < |contents| && !KnownRole(contents[i]);
    if i < n {
      assert !KnownRole(contents[..n][i]);
      BadRolesViolate(contents[..n]);
    } else {
      UnknownRole(contents[n]);
    }
  }

  lemma UnknownRole(c: Content)
    ensures KnownRole(c) <==> !c.role.OtherRole?
  {
  }

  lemma LastStart(contents: seq<Content>, start: nat)
    requires start < |contents| && Plain(contents[start]) && forall k | start < k < |contents| :: !Plain(contents[k])
    ensures PlainBefore(contents, |contents| - 1) == start
  {
    hide Plain;
  }

  method MarkOpen(turn: Turn, open: set<string>) returns (marked: Turn)
    requires !turn.hasOpenInvocation && !turn.hasOpenConfirmation
    ensures marked.contents == turn.contents && marked.ordinal == turn.ordinal && marked.charCount == turn.charCount
    ensures forall last :: Marked(marked, last, true, open)
  {
    hide NameMap;
    var names := CallNames(turn.contents);
    marked := turn;
    var rest := open;
    while rest != {}
      invariant rest <= open && marked.contents == turn.contents
      invariant marked.ordinal == turn.ordinal && marked.charCount == turn.charCount
      invariant marked.hasOpenInvocation <==> exists id | id in open - rest :: id in names
      invariant marked.hasOpenConfirmation <==>
                  exists id | id in open - rest :: id in names && names[id] == CONFIRMATION
    {
      var id :| id in rest;
      if id in names {
        marked := marked.(hasOpenInvocation := true);
        if names[id] == CONFIRMATION { marked := marked.(hasOpenConfirmation := true); }
      }
      assert open - (rest - {id}) == open - rest + {id};
      rest := rest - {id};
    }
    assert open - {} == open;
    marked := marked.(closed := false);
  }

  /** Marking a turn leaves the layout alone. */
  lemma {:induction false} KeepLayout(turns: seq<Turn>, i: nat, turn: Turn)
    requires i < |turns| && turn.contents == turns[i].contents
    ensures Flatten(turns[i := turn]) == Flatten(turns)
  {
    if i > 0 {
      KeepLayout(turns[1..], i - 1, turn);
      assert turns[1..][i - 1 := turn] == turns[i := turn][1..];
    } else {
      assert turns[0 := turn][1..] == turns[1..];
    }
  }

  lemma {:induction false} SameCovered(a: seq<Turn>, b: seq<Turn>)
    requires |a| == |b| && forall k | 0 <= k < |a| :: a[k].contents == b[k].contents
    ensures Covered(a) == Covered(b)
  {
    if a != [] {
      SameCovered(a[1..], b[1..]);
    }
  }

  lemma SameInTurn(a: seq<Turn>, b: seq<Turn>, contentIndex: int, total: int, i: nat)
    requires |a| == |b| && (forall k | 0 <= k < |a| :: a[k].contents == b[k].contents) && i < |a|
    ensures InTurn(a, contentIndex, total, i) <==> InTurn(b, contentIndex, total, i)
  {
    SameCovered(a, b);
    SameCovered(a[..i], b[..i]);
    SameCovered(a[..i + 1], b[..i + 1]);
  }

  // ---- Turn costs --------------------------------------------------------

  function TotalCost(turns: seq<Turn>): nat {
    if turns == [] then 0 else turns[0].charCount + TotalCost(turns[1..])
  }

  /** Every part has a size: text does, and what is structured encodes. */
  predicate Encodes(contents: seq<Content>) {
    forall i | 0 <= i < |contents| :: PartsEncode(contents[i].parts)
  }

  predicate PartsEncode(parts: seq<Part>) {
    forall j | 0 <= j < |parts| :: PartCost(parts[j]).Some?
  }

  lemma {:induction false} PartsCostIff(parts: seq<Part>)
    ensures PartsCost(parts).Some? <==> PartsEncode(parts)
  {
    hide PartCost;
    if parts != [] {
      PartsCostIff(parts[1..]);
      assert forall j | 0 < j < |parts| :: parts[j] == parts[1..][j - 1];
    }
  }

  lemma {:induction false} CostIff(contents: seq<Content>)
    ensures Cost(contents).Some? <==> Encodes(contents)
  {
    hide PartsCost, PartsEncode;
    if contents != [] {
      PartsCostIff(contents[0].parts);
      CostIff(contents[1..]);
      assert forall i | 0 < i < |contents| :: contents[i] == contents[1..][i - 1];
    }
  }

  lemma {:induction false} MeasuredTotal(turns: seq<Turn>)
    requires forall i | 0 <= i < |turns| :: turns[i].charCount == Recorded(Cost(turns[i].contents))
    requires Cost(Flatten(turns)).Some?
    ensures TotalCost(turns) == Cost(Flatten(turns)).value
  {
    hide Cost;
    if turns == [] {
      assert Cost(Flatten(turns)) == Some(0) by { CostNothing(); }
    } else {
      CostAppend(turns[0].contents, Flatten(turns[1..]));
      MeasuredTotal(turns[1..]);
    }
  }

  /** The turn costs add up to the cost of the whole suffix exactly when every
      part of it encodes; a turn whose cost fails is recorded as free. */
  lemma TotalIff(turns: seq<Turn>)
    requires forall i | 0 <= i < |turns| :: turns[i].charCount == Recorded(Cost(turns[i].contents))
    ensures Cost(Flatten(turns)) == Some(TotalCost(turns)) <==> Encodes(Flatten(turns))
  {
    hide Cost, Encodes;
    CostIff(Flatten(turns));
    if Cost(Flatten(turns)).Some? {
      MeasuredTotal(turns);
    }
  }

  // ---- A ledger whose turn costs do not add up ---------------------------

  const ASK := Content(User, [Part("a", None, None, false, None)])
  const BROKEN := Content(Model, [Part("", None, None, true, None)])

  /** Two turns; a structured part of the first does not encode. */
  const MIXED := [ASK, BROKEN, ASK]

  lemma MixedFacts()
    ensures Plain(ASK) && !Plain(BROKEN) && Cost([ASK]) == Some(1) && Cost([ASK, BROKEN]).None? && Cost(MIXED).None?
    ensures First(MIXED) == 0
  {
    assert PartsCost(ASK.parts) == Some(1) && PartsCost(BROKEN.parts).None?;
    assert [ASK][1..] == [] && [ASK, BROKEN][1..] == [BROKEN] && [BROKEN][1..] == [];
    assert MIXED[1..] == [BROKEN, ASK] && [BROKEN, ASK][1..] == [ASK];
  }

  lemma MixedScans()
    ensures P.ScanContents(MIXED, LIFECYCLE) == P.Scanned(P.EMPTY)
  {
    assert ASK.parts[..0] == [] && BROKEN.parts[..0] == [];
    assert P.ScanParts(P.EMPTY, ASK.parts, LIFECYCLE) == P.Scanned(P.EMPTY);
    assert P.ScanParts(P.EMPTY, BROKEN.parts, LIFECYCLE) == P.Scanned(P.EMPTY);
    var two, one := MIXED[..2], MIXED[..1];
    assert two[..1] == [ASK] && one == [ASK] && one[..0] == [];
    assert P.ScanContents(one, LIFECYCLE) == P.Scanned(P.EMPTY);
    assert P.ScanContents(two, LIFECYCLE) == P.Scanned(P.EMPTY);
  }

  lemma TwoTurns(turns: seq<Turn>)
    requires |turns| == 2
    ensures Flatten(turns) == turns[0].contents + turns[1].contents
    ensures TotalCost(turns) == turns[0].charCount + turns[1].charCount
  {
    var rest := turns[1..];
    assert rest[0] == turns[1] && rest[1..] == [];
    assert Flatten(rest) == turns[1].contents + Flatten(rest[1..]);
    assert TotalCost(rest) == turns[1].charCount + TotalCost(rest[1..]);
  }

  /** The ledger is accepted, its turns cost one in all, and the whole has no cost
      that can be stated. */
  lemma MixedDoesNotAddUp(external: set<string>, r: Classified)
    requires ClassifiedAs(MIXED, OpenNow(MIXED, external), r)
    ensures P.ScanContents(MIXED, LIFECYCLE).Scanned? && First(MIXED) < |MIXED|
    ensures Flatten(r.turns) == MIXED && Cost(MIXED).None? && TotalCost(r.turns) == 1
  {
    hide Plain, Cost, P.ScanContents, Marked, Least, InTurn, First, PlainBefore, Flatten, TotalCost, OpenNow;
    MixedFacts();
    MixedScans();
    var a, b := Turn(1, [ASK, BROKEN], 0, true, false, false), Turn(2, [ASK], 1, false, false, false);
    TwoTurns([a, b]);
    assert MIXED[0..] == MIXED == [ASK, BROKEN] + [ASK];
    PartitionUnique(r.turns, [a, b]);
    assert r.turns[0].contents == [ASK, BROKEN] && r.turns[1].contents == [ASK];
    TwoTurns(r.turns);
  }
}

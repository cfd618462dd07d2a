/** Which ledgers the protocol accepts, read off the parts by their positions, and
    which rule the first other part breaks (internal/domain/protocol.go). */
module ProtocolRules {
  import opened Basics
  import opened Text
  import opened Turns
  import opened Protocol

  type Parts = seq<Part>

  // ---- What stands before a part -----------------------------------------

  predicate IsCall(p: Part, id: string, name: string) {
    p.call.Some? && p.call.value.id == id && p.call.value.name == name
  }

  predicate IsAnswer(p: Part, id: string) {
    p.response.Some? && p.response.value.id == id
  }

  /** A request to confirm the call of this ID. */
  predicate IsRequest(p: Part, id: string, w: string) {
    && p.call.Some? && p.call.value.id == w && p.call.value.name == "adk_request_confirmation"
    && p.call.value.original.Some? && p.call.value.original.value.0 == id
  }

  predicate Called(ps: Parts, id: string, name: string) {
    exists i | 0 <= i < |ps| :: IsCall(ps[i], id, name)
  }

  predicate Taken(ps: Parts, id: string) {
    exists i | 0 <= i < |ps| :: ps[i].call.Some? && ps[i].call.value.id == id
  }

  function Answers(ps: Parts, id: string): set<nat> {
    set i | 0 <= i < |ps| && IsAnswer(ps[i], id)
  }

  /** The first answer says that the call requires confirmation. */
  predicate Asked(ps: Parts, id: string) {
    exists i | 0 <= i < |ps| :: IsAnswer(ps[i], id) && ps[i].response.value.placeholder && Answers(ps[..i], id) == {}
  }

  predicate Requested(ps: Parts, id: string, w: string) {
    exists i | 0 <= i < |ps| :: IsRequest(ps[i], id, w)
  }

  // ---- The rules ---------------------------------------------------------

  /** The part is a call or a response and nothing else, or neither. */
  predicate Shaped(p: Part) {
    && (p.call.None? || p.response.None?)
    && (p.call.Some? || p.response.Some? ==> !p.structured && p.text == "")
  }

  /** The request names an answered call that asked for it, for the first time. */
  ghost predicate MayRequest(ps: Parts, call: Call) {
    && call.original.Some?
    && var (id, name) := call.original.value;
    && Called(ps, id, name) && name != "adk_request_confirmation" && |Answers(ps, id)| == 1 && Asked(ps, id)
    && forall w :: !Requested(ps, id, w)
  }

  /** The rule a call breaks behind some parts. */
  ghost function CallFault(ps: Parts, call: Call, opts: Options): Option<Rule> {
    if IsBlank(call.id) || IsBlank(call.name) then Some(CallIdentity)
    else if Taken(ps, call.id) then Some(DuplicateCall)
    else if call.name == "adk_request_confirmation" && (!opts.allowConfirmation || !MayRequest(ps, call)) then
      Some(ConfirmationLifecycle)
    else None
  }

  /** The rule a response breaks behind some parts: it answers a call of its ID and
      name, once, or twice when a confirmation stands between the answers. */
  ghost function ResponseFault(ps: Parts, r: Response, opts: Options): Option<Rule> {
    if IsBlank(r.id) || IsBlank(r.name) then Some(ResponseIdentity)
    else if !Taken(ps, r.id) then Some(ResponseBeforeCall)
    else if !Called(ps, r.id, r.name) then Some(ResponseName)
    else if r.willContinue && !opts.allowContinuation then Some(ContinuationNotAllowed)
    else if Answers(ps, r.id) == {} then None
    else if r.name == "adk_request_confirmation" || |Answers(ps, r.id)| != 1 || forall w :: !Requested(ps, r.id, w) then
      Some(DuplicateResponse)
    else if forall w | Requested(ps, r.id, w) :: |Answers(ps, w)| != 1 then Some(ConfirmationLifecycle)
    else None
  }

  ghost function Fault(ps: Parts, p: Part, opts: Options): Option<Rule> {
    if !Shaped(p) then Some(PartRule)
    else if p.call.Some? then CallFault(ps, p.call.value, opts)
    else if p.response.Some? then ResponseFault(ps, p.response.value, opts)
    else None
  }

  // ---- One part more -----------------------------------------------------

  lemma CalledAfter(ps: Parts, p: Part, id: string)
    ensures forall name :: Called(ps + [p], id, name) <==> Called(ps, id, name) || IsCall(p, id, name)
    ensures Taken(ps + [p], id) <==> Taken(ps, id) || (p.call.Some? && p.call.value.id == id)
  {
    var qs := ps + [p];
    assert qs[|ps|] == p && forall i | 0 <= i < |ps| :: qs[i] == ps[i];
  }

  lemma RequestedAfter(ps: Parts, p: Part, id: string)
    ensures forall w :: Requested(ps + [p], id, w) <==> Requested(ps, id, w) || IsRequest(p, id, w)
  {
    var qs := ps + [p];
    assert qs[|ps|] == p && forall i | 0 <= i < |ps| :: qs[i] == ps[i];
  }

  lemma AnswersAfter(ps: Parts, p: Part, id: string)
    ensures Answers(ps + [p], id) == if IsAnswer(p, id) then Answers(ps, id) + {|ps|} else Answers(ps, id)
    ensures |Answers(ps + [p], id)| == |Answers(ps, id)| + if IsAnswer(p, id) then 1 else 0
  {
    var qs := ps + [p];
    assert qs[|ps|] == p && forall i | 0 <= i < |ps| :: qs[i] == ps[i];
    assert |ps| !in Answers(ps, id);
  }

  lemma AskedAfter(ps: Parts, p: Part, id: string)
    ensures Asked(ps + [p], id) <==>
            Asked(ps, id) || (IsAnswer(p, id) && p.response.value.placeholder && Answers(ps, id) == {})
  {
    hide Answers;
    var qs := ps + [p];
    assert qs[|ps|] == p && qs[..|ps|] == ps;
    assert forall i | 0 <= i < |ps| :: qs[i] == ps[i] && qs[..i] == ps[..i];
  }

  // ---- The ledger of accepted parts --------------------------------------

  /** What a ledger knows of one ID, after some parts. */
  ghost predicate Knows(ps: Parts, calls: Calls, id: string) {
    && (id in calls <==> Taken(ps, id))
    && (id !in calls ==> Answers(ps, id) == {} && forall w :: !Requested(ps, id, w))
    && (id in calls ==>
          var c := calls[id];
          && (forall name :: Called(ps, id, name) <==> name == c.name)
          && (c.isWrapper <==> c.name == "adk_request_confirmation")
          && c.responses == |Answers(ps, id)| && (c.placeholder <==> Asked(ps, id))
          && (forall w :: Requested(ps, id, w) <==> w == c.wrapper && w != "")
          && (c.wrapper != "" ==> c.wrapper in calls))
  }

  ghost predicate Mirrors(ps: Parts, calls: Calls) {
    forall id :: Knows(ps, calls, id)
  }

  function Outcome(scan: Scan): Option<Rule> {
    if scan.Violated? then Some(scan.rule) else None
  }

  lemma AskedHasAnswer(ps: Parts, id: string)
    requires Asked(ps, id)
    ensures Answers(ps, id) != {}
  {
    var i :| 0 <= i < |ps| && IsAnswer(ps[i], id);
    assert i in Answers(ps, id);
  }

  lemma NewCallKnown(ps: Parts, p: Part, calls: Calls, id: string, call: Call)
    requires Mirrors(ps, calls) && p.response.None? && p.call == Some(call) && call.id !in calls
    requires call.name != "adk_request_confirmation"
    ensures Knows(ps + [p], calls[call.id := CallState(call.name, 0, false, "", false)], id)
  {
    hide Called, Taken, Answers, Asked, Requested;
    assert Knows(ps, calls, id);
    CalledAfter(ps, p, id);
    AnswersAfter(ps, p, id);
    AskedAfter(ps, p, id);
    RequestedAfter(ps, p, id);
    NotCalled(ps, id);
    if id == call.id && Asked(ps, id) { AskedHasAnswer(ps, id); }
  }

  lemma NotCalled(ps: Parts, id: string)
    ensures !Taken(ps, id) ==> forall name :: !Called(ps, id, name)
  {
  }

  lemma NewRequestKnown(ps: Parts, p: Part, calls: Calls, id: string, call: Call)
    requires Mirrors(ps, calls) && p.response.None? && p.call == Some(call) && call.id !in calls && call.id != ""
    requires call.name == "adk_request_confirmation" && call.original.Some?
    requires call.original.value.0 in calls && calls[call.original.value.0].wrapper == ""
    ensures var original := call.original.value.0;
            var added := calls[call.id := CallState(call.name, 0, false, "", true)];
            Knows(ps + [p], added[original := added[original].(wrapper := call.id)], id)
  {
    hide Called, Taken, Answers, Asked, Requested;
    assert Knows(ps, calls, id);
    CalledAfter(ps, p, id);
    AnswersAfter(ps, p, id);
    AskedAfter(ps, p, id);
    RequestedAfter(ps, p, id);
    NotCalled(ps, id);
    if id == call.id && Asked(ps, id) { AskedHasAnswer(ps, id); }
  }

  lemma AnswerKnown(ps: Parts, p: Part, calls: Calls, id: string, r: Response)
    requires Mirrors(ps, calls) && p.call.None? && p.response == Some(r) && r.id in calls
    ensures Knows(ps + [p], calls[r.id := Answer(calls[r.id], r)], id)
  {
    hide Called, Taken, Answers, Asked, Requested;
    assert Knows(ps, calls, id);
    CalledAfter(ps, p, id);
    AnswersAfter(ps, p, id);
    AskedAfter(ps, p, id);
    RequestedAfter(ps, p, id);
    EmptyIff(ps, id);
  }

  lemma EmptyIff(ps: Parts, id: string)
    ensures Answers(ps, id) == {} <==> |Answers(ps, id)| == 0
  {
  }

  lemma CallStep(ps: Parts, p: Part, l: Ledger, call: Call, opts: Options)
    requires Mirrors(ps, l.calls) && p.response.None? && p.call == Some(call)
    ensures Outcome(ScanCall(l, call, opts)) == CallFault(ps, call, opts)
    ensures ScanCall(l, call, opts).Scanned? ==> Mirrors(ps + [p], ScanCall(l, call, opts).ledger.calls)
  {
    hide Called, Taken, Answers, Asked, Requested, IsBlank, Knows;
    assert Knows(ps, l.calls, call.id);
    CallOutcome(ps, l, call, opts);
    if ScanCall(l, call, opts).Scanned? {
      BlankNothing();
      forall id ensures Knows(ps + [p], ScanCall(l, call, opts).ledger.calls, id) {
        if call.name == "adk_request_confirmation" {
          NewRequestKnown(ps, p, l.calls, id, call);
        } else {
          NewCallKnown(ps, p, l.calls, id, call);
        }
      }
    }
  }

  lemma CallOutcome(ps: Parts, l: Ledger, call: Call, opts: Options)
    requires Mirrors(ps, l.calls)
    ensures Outcome(ScanCall(l, call, opts)) == CallFault(ps, call, opts)
  {
    hide Called, Taken, Answers, Asked, Requested, IsBlank;
    assert Knows(ps, l.calls, call.id);
    if call.original.Some? {
      var (id, name) := call.original.value;
      assert Knows(ps, l.calls, id);
      NotCalled(ps, id);
      assert Requested(ps, id, if id in l.calls then l.calls[id].wrapper else "") <==>
             id in l.calls && l.calls[id].wrapper != "";
    }
  }

  lemma ResponseStep(ps: Parts, p: Part, l: Ledger, r: Response, opts: Options)
    requires Mirrors(ps, l.calls) && p.call.None? && p.response == Some(r)
    ensures Outcome(ScanResponse(l, r, opts)) == ResponseFault(ps, r, opts)
    ensures ScanResponse(l, r, opts).Scanned? ==> Mirrors(ps + [p], ScanResponse(l, r, opts).ledger.calls)
  {
    hide Called, Taken, Answers, Asked, Requested, IsBlank, Knows, ResponseRule, Open;
    ResponseOutcome(ps, l, r, opts);
    if ScanResponse(l, r, opts).Scanned? {
      forall id ensures Knows(ps + [p], ScanResponse(l, r, opts).ledger.calls, id) {
        AnswerKnown(ps, p, l.calls, id, r);
      }
    }
  }

  lemma ResponseOutcome(ps: Parts, l: Ledger, r: Response, opts: Options)
    requires Mirrors(ps, l.calls)
    ensures Outcome(ScanResponse(l, r, opts)) == ResponseFault(ps, r, opts)
  {
    hide Called, Taken, Answers, Asked, Requested, IsBlank, Open;
    assert Knows(ps, l.calls, r.id);
    EmptyIff(ps, r.id);
    NotCalled(ps, r.id);
    if r.id in l.calls {
      var w := l.calls[r.id].wrapper;
      assert Requested(ps, r.id, w) <==> w != "";
      assert Knows(ps, l.calls, w);
    }
  }

  lemma PartStep(ps: Parts, p: Part, l: Ledger, opts: Options)
    requires Mirrors(ps, l.calls)
    ensures Outcome(ScanPart(l, p, opts)) == Fault(ps, p, opts)
    ensures ScanPart(l, p, opts).Scanned? ==> Mirrors(ps + [p], ScanPart(l, p, opts).ledger.calls)
  {
    hide ScanCall, ScanResponse, CallFault, ResponseFault, Mirrors;
    if Shaped(p) {
      if p.call.Some? {
        CallStep(ps, p, l, p.call.value, opts);
      } else if p.response.Some? {
        ResponseStep(ps, p, l, p.response.value, opts);
      } else {
        TextMirrors(ps, p, l.calls);
      }
    }
  }

  lemma TextMirrors(ps: Parts, p: Part, calls: Calls)
    requires Mirrors(ps, calls) && p.call.None? && p.response.None?
    ensures Mirrors(ps + [p], calls)
  {
    hide Called, Taken, Answers, Asked, Requested;
    forall id ensures Knows(ps + [p], calls, id) {
      assert Knows(ps, calls, id);
      CalledAfter(ps, p, id);
      AnswersAfter(ps, p, id);
      AskedAfter(ps, p, id);
      RequestedAfter(ps, p, id);
    }
  }

  // ---- Whole ledgers -----------------------------------------------------

  /** No part up to n breaks a rule behind the parts before it. */
  ghost predicate Fine(ps: Parts, opts: Options) {
    forall k | 0 <= k < |ps| :: Fault(ps[..k], ps[k], opts).None?
  }

  function PartsOf(contents: seq<Content>): Parts {
    if contents == [] then [] else PartsOf(contents[..|contents| - 1]) + contents[|contents| - 1].parts
  }

  ghost predicate FirstFault(ps: Parts, opts: Options, rule: Rule) {
    exists k | 0 <= k < |ps| :: Fine(ps[..k], opts) && Fault(ps[..k], ps[k], opts) == Some(rule)
  }

  lemma FineAfter(ps: Parts, p: Part, opts: Options)
    ensures Fine(ps + [p], opts) <==> Fine(ps, opts) && Fault(ps, p, opts).None?
    ensures forall rule :: FirstFault(ps + [p], opts, rule) <==>
              FirstFault(ps, opts, rule) || (Fine(ps, opts) && Fault(ps, p, opts) == Some(rule))
  {
    hide Fault;
    var qs := ps + [p];
    assert qs[|ps|] == p && qs[..|ps|] == ps;
    assert forall k | 0 <= k < |ps| :: qs[k] == ps[k] && qs[..k] == ps[..k];
  }

  /** The scan of some more parts, behind parts that are fine. */
  lemma {:induction false} PartsIff(before: Parts, l: Ledger, parts: Parts, opts: Options)
    requires Fine(before, opts) && Mirrors(before, l.calls)
    ensures ScanParts(l, parts, opts).Scanned? <==> Fine(before + parts, opts)
    ensures ScanParts(l, parts, opts).Scanned? ==> Mirrors(before + parts, ScanParts(l, parts, opts).ledger.calls)
    ensures ScanParts(l, parts, opts).Violated? ==> FirstFault(before + parts, opts, ScanParts(l, parts, opts).rule)
  {
    hide Fine, Mirrors, Fault, ScanPart, FirstFault;
    if parts == [] {
      assert before + parts == before;
    } else {
      var front, last := parts[..|parts| - 1], parts[|parts| - 1];
      PartsIff(before, l, front, opts);
      assert before + parts == before + front + [last];
      FineAfter(before + front, last, opts);
      if ScanParts(l, front, opts).Scanned? {
        PartStep(before + front, last, ScanParts(l, front, opts).ledger, opts);
      }
    }
  }

  lemma EmptyMirrors()
    ensures Mirrors([], EMPTY.calls)
  {
  }

  /** The contents are the user's and the model's. */
  predicate RolesKnown(contents: seq<Content>) {
    forall i | 0 <= i < |contents| :: !contents[i].role.OtherRole?
  }

  lemma RolesSplit(contents: seq<Content>)
    requires contents != []
    ensures RolesKnown(contents) <==>
            RolesKnown(contents[..|contents| - 1]) && !contents[|contents| - 1].role.OtherRole?
  {
    var front := contents[..|contents| - 1];
    assert forall i | 0 <= i < |front| :: front[i] == contents[i];
  }

  /** A ledger is accepted exactly when its contents are the user's and the model's
      and every part keeps the rules behind those before it; then the scan knows
      every call by its name, answers and confirmation. */
  lemma {:induction false} AcceptedIff(contents: seq<Content>, opts: Options)
    ensures ScanContents(contents, opts).Scanned? <==>
            RolesKnown(contents) && Fine(PartsOf(contents), opts)
    ensures ScanContents(contents, opts).Scanned? ==>
              Mirrors(PartsOf(contents), ScanContents(contents, opts).ledger.calls)
  {
    hide Fine, Mirrors, ScanParts, FirstFault, RolesKnown;
    if contents == [] {
      EmptyMirrors();
      NothingFine(opts);
    } else {
      var front, last := contents[..|contents| - 1], contents[|contents| - 1];
      AcceptedIff(front, opts);
      RolesSplit(contents);
      if ScanContents(front, opts).Scanned? {
        PartsIff(PartsOf(front), ScanContents(front, opts).ledger, last.parts, opts);
      } else if !Fine(PartsOf(front), opts) {
        StaysBad(PartsOf(front), last.parts, opts);
      }
    }
  }

  lemma NothingFine(opts: Options)
    ensures Fine([], opts) && RolesKnown([])
  {
  }

  lemma StaysBad(ps: Parts, more: Parts, opts: Options)
    requires !Fine(ps, opts)
    ensures !Fine(ps + more, opts)
  {
    hide Fault;
    var k :| 0 <= k < |ps| && Fault(ps[..k], ps[k], opts).Some?;
    assert (ps + more)[..k] == ps[..k] && (ps + more)[k] == ps[k];
  }

  /** A rejection names the first fault: the rule of the first part that breaks
      one, or a content of another role behind parts that are fine. */
  lemma {:induction false} RejectedIs(contents: seq<Content>, opts: Options)
    requires ScanContents(contents, opts).Violated?
    ensures exists n | 0 <= n < |contents| ::
              && RolesKnown(contents[..n]) && Fine(PartsOf(contents[..n]), opts)
              && if contents[n].role.OtherRole? then ScanContents(contents, opts).rule == RoleRule
                 else FirstFault(PartsOf(contents[..n + 1]), opts, ScanContents(contents, opts).rule)
  {
    hide Fine, Mirrors, ScanParts, FirstFault, RolesKnown;
    var m := |contents| - 1;
    var front, last := contents[..m], contents[m];
    if ScanContents(front, opts).Violated? {
      RejectedIs(front, opts);
      var n :| 0 <= n < |front| && RolesKnown(front[..n]) && Fine(PartsOf(front[..n]), opts)
        && if front[n].role.OtherRole? then ScanContents(front, opts).rule == RoleRule
           else FirstFault(PartsOf(front[..n + 1]), opts, ScanContents(front, opts).rule);
      assert front[..n] == contents[..n] && front[..n + 1] == contents[..n + 1];
    } else {
      AcceptedIff(front, opts);
      assert contents[..m + 1] == contents;
      if !last.role.OtherRole? { PartsIff(PartsOf(front), ScanContents(front, opts).ledger, last.parts, opts); }
    }
  }

  // ---- Ledgers without confirmations -------------------------------------

  predicate NoRequests(ps: Parts) {
    forall k | 0 <= k < |ps| && ps[k].call.Some? :: ps[k].call.value.name != "adk_request_confirmation"
  }

  /** Calls and responses are whole and named, every call ID is new, every response
      stands behind the call of its ID and name, and no call is answered twice. */
  ghost predicate Answered(ps: Parts, opts: Options) {
    && (forall k | 0 <= k < |ps| ::
          && Shaped(ps[k])
          && (ps[k].call.Some? ==> !IsBlank(ps[k].call.value.id) && !IsBlank(ps[k].call.value.name))
          && (ps[k].response.Some? ==>
                var r := ps[k].response.value;
                && !IsBlank(r.id) && !IsBlank(r.name) && (r.willContinue ==> opts.allowContinuation)
                && exists j | 0 <= j < k :: IsCall(ps[j], r.id, r.name)))
    && (forall i, j | 0 <= i < j < |ps| && ps[i].call.Some? && ps[j].call.Some? ::
          ps[i].call.value.id != ps[j].call.value.id)
    && (forall i, j | 0 <= i < j < |ps| && ps[i].response.Some? && ps[j].response.Some? ::
          ps[i].response.value.id != ps[j].response.value.id)
  }

  lemma {:induction false} PlainFineIff(ps: Parts, opts: Options)
    requires NoRequests(ps)
    ensures Fine(ps, opts) <==> Answered(ps, opts)
  {
    hide Fine, Answered;
    if ps == [] {
      NothingFine(opts);
      NothingAnswered(opts);
    } else {
      var front, last := ps[..|ps| - 1], ps[|ps| - 1];
      assert ps == front + [last];
      PlainFineIff(front, opts);
      FineAfter(front, last, opts);
      AnsweredAfter(front, last, opts);
    }
  }

  lemma NothingAnswered(opts: Options)
    ensures Answered([], opts)
  {
  }

  /** The same of one part behind others. */
  ghost predicate AnsweredBehind(ps: Parts, p: Part, opts: Options) {
    && Shaped(p)
    && (p.call.Some? ==>
          && !IsBlank(p.call.value.id) && !IsBlank(p.call.value.name)
          && forall i | 0 <= i < |ps| && ps[i].call.Some? :: ps[i].call.value.id != p.call.value.id)
    && (p.response.Some? ==>
          var r := p.response.value;
          && !IsBlank(r.id) && !IsBlank(r.name) && (r.willContinue ==> opts.allowContinuation)
          && (exists j | 0 <= j < |ps| :: IsCall(ps[j], r.id, r.name))
          && forall i | 0 <= i < |ps| && ps[i].response.Some? :: ps[i].response.value.id != r.id)
  }

  lemma AnsweredSplits(ps: Parts, p: Part, opts: Options)
    ensures Answered(ps + [p], opts) <==> Answered(ps, opts) && AnsweredBehind(ps, p, opts)
  {
    hide IsBlank, Shaped, IsCall;
    var qs := ps + [p];
    assert qs[|ps|] == p;
    assert forall i | 0 <= i < |ps| :: qs[i] == ps[i];
  }

  lemma NoAnswerIff(ps: Parts, id: string)
    ensures Answers(ps, id) == {} <==> forall i | 0 <= i < |ps| && ps[i].response.Some? :: ps[i].response.value.id != id
  {
    forall i | 0 <= i < |ps| && IsAnswer(ps[i], id) ensures i in Answers(ps, id) {}
  }

  lemma BehindIff(ps: Parts, p: Part, opts: Options)
    requires NoRequests(ps + [p])
    ensures AnsweredBehind(ps, p, opts) <==> Fault(ps, p, opts).None?
  {
    hide IsBlank, Answers;
    assert (ps + [p])[|ps|] == p;
    assert forall i | 0 <= i < |ps| :: (ps + [p])[i] == ps[i];
    if p.response.Some? {
      NoAnswerIff(ps, p.response.value.id);
      assert forall w :: !Requested(ps, p.response.value.id, w);
    }
  }

  lemma AnsweredAfter(ps: Parts, p: Part, opts: Options)
    requires NoRequests(ps + [p])
    ensures Answered(ps + [p], opts) <==> Answered(ps, opts) && Fault(ps, p, opts).None?
  {
    hide Answered, AnsweredBehind, Fault;
    AnsweredSplits(ps, p, opts);
    BehindIff(ps, p, opts);
  }

  /** Without confirmations that is all the scan asks for. */
  lemma PlainIff(contents: seq<Content>, opts: Options)
    requires NoRequests(PartsOf(contents))
    ensures ScanContents(contents, opts).Scanned? <==>
            RolesKnown(contents) && Answered(PartsOf(contents), opts)
  {
    hide ScanContents, Fine, Answered, Mirrors;
    AcceptedIff(contents, opts);
    PlainFineIff(PartsOf(contents), opts);
  }

  // ---- Open calls --------------------------------------------------------

  /** A confirmation is open until it is answered, a call that one was requested
      for until its second answer, and any other until an answer that does not ask
      for confirmation. */
  lemma OpenIff(contents: seq<Content>, opts: Options, id: string)
    requires ScanContents(contents, opts).Scanned? && Taken(PartsOf(contents), id)
    ensures var ps, calls := PartsOf(contents), ScanContents(contents, opts).ledger.calls;
            && id in calls
            && (Open(calls[id]) <==>
                  || Answers(ps, id) == {}
                  || (!Called(ps, id, "adk_request_confirmation") && |Answers(ps, id)| == 1
                      && ((exists w :: Requested(ps, id, w)) || Asked(ps, id))))
  {
    hide ScanContents, Fine, Called, Taken, Answers, Asked, Requested, IsBlank;
    var ps, calls := PartsOf(contents), ScanContents(contents, opts).ledger.calls;
    AcceptedIff(contents, opts);
    ScanSound(contents, opts);
    assert Knows(ps, calls, id) && CallSound(calls, id);
    EmptyIff(ps, id);
    assert Requested(ps, id, calls[id].wrapper) <==> calls[id].wrapper != "";
  }
}

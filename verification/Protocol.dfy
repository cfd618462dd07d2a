/** The function-call protocol of a content ledger: which calls are open, and how
    a confirmation stands between a call and its final response
    (internal/domain/protocol.go). */
module Protocol {
  import opened Basics
  import opened Text
  import opened Turns

  datatype Options = Options(allowConfirmation: bool, allowContinuation: bool)

  datatype Rule =
    | RoleRule | PartRule | CallIdentity | DuplicateCall | ResponseIdentity | ResponseBeforeCall | ResponseName
    | DuplicateResponse | ConfirmationLifecycle | ContinuationNotAllowed

  /** wrapper is the confirmation call that wraps this one, if any. */
  datatype CallState = CallState(name: string, responses: nat, placeholder: bool, wrapper: string, isWrapper: bool)

  type Calls = map<string, CallState>

  datatype Ledger = Ledger(calls: Calls, order: seq<string>, openCount: int)

  datatype Scan = Scanned(ledger: Ledger) | Violated(rule: Rule, ledger: Ledger)

  const EMPTY := Ledger(map[], [], 0)

  // ---- Open calls --------------------------------------------------------

  /** protocolCallOpen. */
  predicate Open(c: CallState) {
    if c.isWrapper then c.responses == 0
    else if c.wrapper != "" then c.responses < 2
    else c.responses == 0 || (c.placeholder && c.responses == 1)
  }

  /** protocolCallComplete. */
  predicate Complete(c: CallState) {
    if c.isWrapper then c.responses == 1
    else if c.wrapper != "" then c.responses == 2
    else c.responses == 1 && !c.placeholder
  }

  function OpenIDs(calls: Calls): set<string> {
    set id | id in calls && Open(calls[id])
  }

  // ---- One part ----------------------------------------------------------

  /** What keeps a confirmation call from wrapping the call it names. */
  predicate Wraps(calls: Calls, call: Call) {
    call.original.Some? &&
    var (id, name) := call.original.value;
    id in calls && calls[id].name == name && !calls[id].isWrapper && calls[id].responses == 1 && calls[id].placeholder
    && calls[id].wrapper == ""
  }

  function AddCall(l: Ledger, id: string, c: CallState): Ledger {
    Ledger(l.calls[id := c], l.order + [id], l.openCount + 1)
  }

  function ScanCall(l: Ledger, call: Call, opts: Options): Scan {
    if IsBlank(call.id) || IsBlank(call.name) then Violated(CallIdentity, l)
    else if call.id in l.calls then Violated(DuplicateCall, l)
    else if call.name != CONFIRMATION then Scanned(AddCall(l, call.id, CallState(call.name, 0, false, "", false)))
    else if !opts.allowConfirmation || !Wraps(l.calls, call) then Violated(ConfirmationLifecycle, l)
    else
      var original := call.original.value.0;
      var added := AddCall(l, call.id, CallState(call.name, 0, false, "", true));
      Scanned(added.(calls := added.calls[original := added.calls[original].(wrapper := call.id)]))
  }

  /** The rule a response breaks, for a call that is known by its name. */
  function ResponseRule(calls: Calls, c: CallState, r: Response, opts: Options): Option<Rule> {
    if r.willContinue && !opts.allowContinuation then Some(ContinuationNotAllowed)
    else if c.isWrapper then if c.responses != 0 then Some(DuplicateResponse) else None
    else if c.responses == 0 then None
    else if c.wrapper == "" || c.responses != 1 then Some(DuplicateResponse)
    else if c.wrapper !in calls || calls[c.wrapper].responses != 1 then Some(ConfirmationLifecycle)
    else None
  }

  function Answer(c: CallState, r: Response): CallState {
    c.(responses := c.responses + 1, placeholder := c.placeholder || (c.responses == 0 && r.placeholder))
  }

  function ScanResponse(l: Ledger, r: Response, opts: Options): Scan {
    if IsBlank(r.id) || IsBlank(r.name) then Violated(ResponseIdentity, l)
    else if r.id !in l.calls then Violated(ResponseBeforeCall, l)
    else
      var c := l.calls[r.id];
      if c.name != r.name then Violated(ResponseName, l)
      else
        var broken := ResponseRule(l.calls, c, r, opts);
        if broken.Some? then Violated(broken.value, l)
        else
          // The placeholder mark is set before the call is looked at as open.
          var marked, answered := c.(placeholder := c.placeholder || (c.responses == 0 && r.placeholder)), Answer(c, r);
          Scanned(Ledger(l.calls[r.id := answered], l.order,
                         l.openCount + if Open(marked) == Open(answered) then 0 else if Open(answered) then 1 else -1))
  }

  function ScanPart(l: Ledger, p: Part, opts: Options): Scan {
    if p.call.Some? && p.response.Some? then Violated(PartRule, l)
    else if (p.call.Some? || p.response.Some?) && (p.structured || p.text != "") then Violated(PartRule, l)
    else if p.call.Some? then ScanCall(l, p.call.value, opts)
    else if p.response.Some? then ScanResponse(l, p.response.value, opts)
    else Scanned(l)
  }

  function ScanParts(l: Ledger, parts: seq<Part>, opts: Options): Scan {
    if parts == [] then Scanned(l)
    else
      var before := ScanParts(l, parts[..|parts| - 1], opts);
      if before.Violated? then before else ScanPart(before.ledger, parts[|parts| - 1], opts)
  }

  function ScanContents(contents: seq<Content>, opts: Options): Scan {
    if contents == [] then Scanned(EMPTY)
    else
      var before, last := ScanContents(contents[..|contents| - 1], opts), contents[|contents| - 1];
      if before.Violated? then before
      else if last.role.OtherRole? then Violated(RoleRule, before.ledger)
      else ScanParts(before.ledger, last.parts, opts)
  }

  // ---- What a scan keeps -------------------------------------------------

  /** How often a call of each shape may have been answered. */
  predicate CallSound(calls: Calls, id: string)
    requires id in calls
  {
    var c := calls[id];
    && !IsBlank(id)
    && (c.isWrapper ==> c.responses <= 1 && c.wrapper == "" && c.name == CONFIRMATION)
    && (!c.isWrapper && c.wrapper == "" ==> c.responses <= 1)
    && (c.wrapper != "" ==>
          && c.placeholder && 1 <= c.responses <= 2 && c.wrapper in calls && calls[c.wrapper].isWrapper
          && (c.responses == 2 ==> calls[c.wrapper].responses == 1))
  }

  /** Confirmations and the calls they wrap pair up one to one. */
  ghost predicate Paired(calls: Calls) {
    && (forall a, b | a in calls && b in calls && a != b && calls[a].wrapper != "" ::
      calls[a].wrapper != calls[b].wrapper)
    && (forall w | w in calls && calls[w].isWrapper :: exists id :: WrappedBy(calls, id, w))
  }

  predicate WrappedBy(calls: Calls, id: string, w: string) {
    id in calls && calls[id].wrapper == w
  }

  predicate CallsSound(calls: Calls) {
    forall id | id in calls :: CallSound(calls, id)
  }

  /** The running count is the number of open calls. */
  ghost predicate Sound(l: Ledger) {
    && l.openCount == |OpenIDs(l.calls)| && CallsSound(l.calls) && Paired(l.calls)
    && Distinct(l.order) && (forall id :: id in l.order <==> id in l.calls)
  }

  lemma OpenAfter(calls: Calls, id: string, c: CallState)
    ensures OpenIDs(calls[id := c]) == if Open(c) then OpenIDs(calls) + {id} else OpenIDs(calls) - {id}
  {
  }

  lemma BlankNothing()
    ensures IsBlank("")
  {
  }

  lemma AddCallSound(l: Ledger, call: Call)
    requires Sound(l) && call.id !in l.calls && !IsBlank(call.id)
    ensures Sound(AddCall(l, call.id, CallState(call.name, 0, false, "", false)))
  {
    hide IsBlank, Paired;
    BlankNothing();
    var c := CallState(call.name, 0, false, "", false);
    var calls := l.calls[call.id := c];
    OpenAfter(l.calls, call.id, c);
    assert call.id !in OpenIDs(l.calls);
    forall id | id in calls
      ensures CallSound(calls, id)
    {
      if id != call.id { assert CallSound(l.calls, id); }
    }
    AddPaired(l.calls, call.id, c);
  }

  lemma AddPaired(calls: Calls, id: string, c: CallState)
    requires Paired(calls) && id !in calls && c.wrapper == "" && !c.isWrapper
    ensures Paired(calls[id := c])
  {
    var calls' := calls[id := c];
    forall w | w in calls' && calls'[w].isWrapper
      ensures exists o :: WrappedBy(calls', o, w)
    {
      var o :| WrappedBy(calls, o, w);
      assert WrappedBy(calls', o, w);
    }
  }

  lemma WrapCalls(calls: Calls, id: string, original: string, w: CallState, c: CallState)
    requires CallsSound(calls) && id !in calls && !IsBlank(id) && original in calls && original != id
    requires w.isWrapper && w.responses == 0 && w.wrapper == "" && w.name == CONFIRMATION
    requires c == calls[original].(wrapper := id) && c.placeholder && c.responses == 1 && !c.isWrapper
    ensures CallsSound(calls[id := w][original := c])
  {
    hide IsBlank;
    var calls' := calls[id := w][original := c];
    forall k | k in calls'
      ensures CallSound(calls', k)
    {
      if k != id { assert CallSound(calls, k); }
    }
  }

  lemma WrapOpen(calls: Calls, id: string, original: string, w: CallState, c: CallState)
    requires id !in calls && original in calls && original != id && Open(w) && Open(c) && Open(calls[original])
    ensures OpenIDs(calls[id := w][original := c]) == OpenIDs(calls) + {id} && id !in OpenIDs(calls)
  {
    hide Open;
    OpenAfter(calls, id, w);
    OpenAfter(calls[id := w], original, c);
    assert original in OpenIDs(calls);
  }

  /** Wrapping leaves the named call open, so only the confirmation is counted. */
  lemma WrapSound(l: Ledger, call: Call)
    requires Sound(l) && call.id !in l.calls && !IsBlank(call.id) && call.name == CONFIRMATION && Wraps(l.calls, call)
    ensures var original := call.original.value.0;
            var added := AddCall(l, call.id, CallState(call.name, 0, false, "", true));
            Sound(added.(calls := added.calls[original := added.calls[original].(wrapper := call.id)]))
  {
    hide IsBlank, Paired, CallSound, CallsSound, OpenIDs;
    BlankNothing();
    var original := call.original.value.0;
    var c, w := l.calls[original].(wrapper := call.id), CallState(call.name, 0, false, "", true);
    WrapOpen(l.calls, call.id, original, w, c);
    WrapCalls(l.calls, call.id, original, w, c);
    WrapPaired(l.calls, call.id, original, w, c);
  }

  lemma WrapPaired(calls: Calls, w: string, original: string, wrapper: CallState, wrapped: CallState)
    requires Paired(calls) && w !in calls && w != "" && original in calls
    requires !calls[original].isWrapper && calls[original].wrapper == ""
    requires wrapper.isWrapper && wrapper.wrapper == ""
    requires wrapped == calls[original].(wrapper := w) && CallsSound(calls)
    ensures Paired(calls[w := wrapper][original := wrapped])
  {
    hide IsBlank;
    var calls' := calls[w := wrapper][original := wrapped];
    forall v | v in calls' && calls'[v].isWrapper
      ensures exists o :: WrappedBy(calls', o, v)
    {
      if v == w {
        assert WrappedBy(calls', original, v);
      } else {
        BlankNothing();
        assert CallSound(calls, v);
        var o :| WrappedBy(calls, o, v);
        assert WrappedBy(calls', o, v);
      }
    }
    forall a | a in calls && calls[a].wrapper != ""
      ensures calls[a].wrapper != w
    {
      assert CallSound(calls, a);
    }
  }

  lemma AnswerSound(l: Ledger, r: Response, opts: Options)
    requires Sound(l) && r.id in l.calls && ResponseRule(l.calls, l.calls[r.id], r, opts).None?
    ensures var c := l.calls[r.id];
            var marked, answered := c.(placeholder := c.placeholder || (c.responses == 0 && r.placeholder)),
              Answer(c, r);
            Sound(Ledger(l.calls[r.id := answered], l.order,
                         l.openCount + if Open(marked) == Open(answered) then 0 else if Open(answered) then 1 else -1))
  {
    hide IsBlank, Paired;
    var c := l.calls[r.id];
    var answered := Answer(c, r);
    var calls := l.calls[r.id := answered];
    OpenAfter(l.calls, r.id, answered);
    assert CallSound(l.calls, r.id);
    assert Open(c) ==> r.id in OpenIDs(l.calls);
    assert !Open(c) ==> r.id !in OpenIDs(l.calls);
    forall id | id in calls
      ensures CallSound(calls, id)
    {
      assert CallSound(l.calls, id);
    }
    AnswerPaired(l.calls, r.id, answered);
  }

  lemma AnswerPaired(calls: Calls, id: string, c: CallState)
    requires Paired(calls) && id in calls && c.wrapper == calls[id].wrapper && c.isWrapper == calls[id].isWrapper
    ensures Paired(calls[id := c])
  {
    var calls' := calls[id := c];
    forall w | w in calls' && calls'[w].isWrapper
      ensures exists o :: WrappedBy(calls', o, w)
    {
      var o :| WrappedBy(calls, o, w);
      assert WrappedBy(calls', o, w);
    }
  }

  lemma PartSound(l: Ledger, p: Part, opts: Options)
    requires Sound(l)
    ensures Sound(ScanPart(l, p, opts).ledger)
  {
    hide Sound, IsBlank, Open, ResponseRule;
    if p.call.Some? && ScanCall(l, p.call.value, opts).Scanned? {
      if p.call.value.name == CONFIRMATION {
        WrapSound(l, p.call.value);
      } else {
        AddCallSound(l, p.call.value);
      }
    } else if p.response.Some? && ScanResponse(l, p.response.value, opts).Scanned? {
      AnswerSound(l, p.response.value, opts);
    }
  }

  lemma {:induction false} PartsSound(l: Ledger, parts: seq<Part>, opts: Options)
    requires Sound(l)
    ensures Sound(ScanParts(l, parts, opts).ledger)
  {
    hide Sound, ScanPart;
    if parts != [] {
      PartsSound(l, parts[..|parts| - 1], opts);
      PartSound(ScanParts(l, parts[..|parts| - 1], opts).ledger, parts[|parts| - 1], opts);
    }
  }

  /** Over every ledger, accepted or rejected so far: the count is exact, calls
      are answered as their shape allows, confirmations pair up one to one. */
  lemma {:induction false} ScanSound(contents: seq<Content>, opts: Options)
    ensures Sound(ScanContents(contents, opts).ledger)
  {
    hide ScanParts;
    if contents == [] {
      EmptySound();
    } else {
      var front := contents[..|contents| - 1];
      ScanSound(front, opts);
      PartsSound(ScanContents(front, opts).ledger, contents[|contents| - 1].parts, opts);
    }
  }

  lemma EmptySound()
    ensures Sound(EMPTY)
  {
  }

  /** A wrapped call has its final response only after the confirmation was
      answered. */
  lemma FinalAfterDecision(contents: seq<Content>, opts: Options, id: string)
    requires var calls := ScanContents(contents, opts).ledger.calls;
             id in calls && calls[id].wrapper != "" && !Open(calls[id])
    ensures var calls := ScanContents(contents, opts).ledger.calls;
            && calls[id].wrapper in calls && !Open(calls[calls[id].wrapper])
            && forall other | other in calls && other != id :: calls[other].wrapper != calls[id].wrapper
  {
    hide IsBlank, ScanContents;
    ScanSound(contents, opts);
    assert CallSound(ScanContents(contents, opts).ledger.calls, id);
  }

  // ---- The frontier ------------------------------------------------------

  datatype Frontier = Ready | PendingConfirmation | CompletionUnknown | Corrupt

  /** An open call that no open confirmation stands for. */
  predicate Unaccounted(calls: Calls, id: string) {
    id in calls && Open(calls[id]) && !calls[id].isWrapper
    && (calls[id].wrapper == "" || calls[id].wrapper !in calls || !Open(calls[calls[id].wrapper]))
  }

  predicate OpenWrapper(calls: Calls, id: string) {
    id in calls && Open(calls[id]) && calls[id].isWrapper
  }

  function FrontierOf(scan: Scan): Frontier {
    var l := scan.ledger;
    if scan.Violated? then Corrupt
    else if exists i | 0 <= i < |l.order| :: Unaccounted(l.calls, l.order[i]) then CompletionUnknown
    else if exists i | 0 <= i < |l.order| :: OpenWrapper(l.calls, l.order[i]) then PendingConfirmation
    else Ready
  }

  /** One step of the loop below. */
  method Account(calls: Calls, id: string) returns (unknownOpen: bool, pending: bool)
    requires id in calls
    ensures unknownOpen == Unaccounted(calls, id) && pending == OpenWrapper(calls, id)
  {
    hide Open;
    var c := calls[id];
    if !Open(c) { return false, false; }
    if c.isWrapper { return false, true; }
    if c.wrapper == "" { return true, false; }
    return c.wrapper !in calls || !Open(calls[c.wrapper]), false;
  }

  /** ScanProtocolFrontier's loop over the calls in order. */
  method ScanFrontier(contents: seq<Content>, opts: Options) returns (status: Frontier, openCount: int)
    ensures status == FrontierOf(ScanContents(contents, opts))
    ensures openCount == ScanContents(contents, opts).ledger.openCount
  {
    hide Unaccounted, OpenWrapper, ScanContents, CallsSound, Paired, OpenIDs, Distinct;
    var scan := ScanContentProtocol(contents, opts);
    if scan.Violated? { return Corrupt, scan.ledger.openCount; }
    var l := scan.ledger;
    ScanSound(contents, opts);
    var unknownOpen, pending := false, false;
    for i := 0 to |l.order|
      invariant unknownOpen <==> exists k | 0 <= k < i :: Unaccounted(l.calls, l.order[k])
      invariant pending <==> exists k | 0 <= k < i :: OpenWrapper(l.calls, l.order[k])
    {
      assert l.order[i] in l.order;
      var unknown, wrapper := Account(l.calls, l.order[i]);
      unknownOpen, pending := unknownOpen || unknown, pending || wrapper;
    }
    status := if unknownOpen then CompletionUnknown else if pending then PendingConfirmation else Ready;
    openCount := l.openCount;
  }

  /** A ledger is ready exactly when no call is open, and waits for confirmation
      alone exactly when every open call is a confirmation or stands behind one. */
  lemma FrontierIff(contents: seq<Content>, opts: Options)
    requires ScanContents(contents, opts).Scanned?
    ensures var l, status := ScanContents(contents, opts).ledger, FrontierOf(ScanContents(contents, opts));
            && (status.Ready? <==> l.openCount == 0)
            && (status.PendingConfirmation? <==> l.openCount > 0 && forall id :: !Unaccounted(l.calls, id))
  {
    hide Open, ScanContents, CallSound, Paired;
    ScanSound(contents, opts);
    var l := ScanContents(contents, opts).ledger;
    forall id | id in OpenIDs(l.calls)
      ensures Unaccounted(l.calls, id) || OpenWrapper(l.calls, id) || OpenWrapper(l.calls, l.calls[id].wrapper)
    {
      OpenIsExplained(l.calls, id);
    }
    if id :| id in l.calls && Unaccounted(l.calls, id) {
      InOrder(l, id);
    }
    if id :| id in l.calls && OpenWrapper(l.calls, id) {
      InOrder(l, id);
    }
    if l.openCount > 0 {
      var id :| id in OpenIDs(l.calls);
    }
    if id :| id in l.calls && Open(l.calls[id]) {
      assert id in OpenIDs(l.calls);
    }
  }

  lemma OpenIsExplained(calls: Calls, id: string)
    requires id in calls && Open(calls[id]) && CallsSound(calls)
    ensures Unaccounted(calls, id) || OpenWrapper(calls, id) || OpenWrapper(calls, calls[id].wrapper)
  {
    hide Open, IsBlank;
    assert CallSound(calls, id);
  }

  lemma InOrder(l: Ledger, id: string)
    requires Sound(l) && id in l.calls
    ensures exists i | 0 <= i < |l.order| :: l.order[i] == id
  {
    hide CallsSound, Paired, OpenIDs;
    assert id in l.order;
  }

  /** The completeness check over all calls finds nothing exactly when the
      ledger is ready. */
  lemma CompleteIff(contents: seq<Content>, opts: Options)
    requires ScanContents(contents, opts).Scanned?
    ensures var l := ScanContents(contents, opts).ledger;
            (forall i | 0 <= i < |l.order| :: l.order[i] in l.calls && Complete(l.calls[l.order[i]])) <==>
              FrontierOf(ScanContents(contents, opts)).Ready?
  {
    hide ScanContents, Paired, FrontierOf, IsBlank;
    ScanSound(contents, opts);
    FrontierIff(contents, opts);
    var l := ScanContents(contents, opts).ledger;
    forall id | id in l.calls
      ensures Complete(l.calls[id]) <==> id !in OpenIDs(l.calls)
    {
      assert CallSound(l.calls, id);
    }
    if l.openCount > 0 {
      var id :| id in OpenIDs(l.calls);
      InOrder(l, id);
    }
  }

  // ---- The scan as it runs -----------------------------------------------

  /** scanContentProtocol. */
  method ScanContentProtocol(contents: seq<Content>, opts: Options) returns (scan: Scan)
    ensures scan == ScanContents(contents, opts)
  {
    hide ScanParts;
    var l := EMPTY;
    for i := 0 to |contents|
      invariant ScanContents(contents[..i], opts) == Scanned(l)
    {
      assert contents[..i + 1][..i] == contents[..i];
      if contents[i].role.OtherRole? {
        StaysViolated(contents, i + 1, opts);
        return Violated(RoleRule, l);
      }
      var next := ScanContentParts(l, contents[i].parts, opts);
      if next.Violated? {
        StaysViolated(contents, i + 1, opts);
        return next;
      }
      l := next.ledger;
    }
    assert contents[..|contents|] == contents;
    return Scanned(l);
  }

  lemma {:induction false} StaysViolated(contents: seq<Content>, n: nat, opts: Options)
    requires n <= |contents| && ScanContents(contents[..n], opts).Violated?
    ensures ScanContents(contents, opts) == ScanContents(contents[..n], opts)
    decreases |contents|
  {
    hide ScanParts;
    if n < |contents| {
      var m := |contents| - 1;
      assert contents[..m][..n] == contents[..n];
      StaysViolated(contents[..m], n, opts);
    } else {
      assert contents[..n] == contents;
    }
  }

  method ScanContentParts(l: Ledger, parts: seq<Part>, opts: Options) returns (scan: Scan)
    ensures scan == ScanParts(l, parts, opts)
  {
    hide ScanCall, ScanResponse;
    var now := l;
    for i := 0 to |parts|
      invariant ScanParts(l, parts[..i], opts) == Scanned(now)
    {
      assert parts[..i + 1][..i] == parts[..i];
      var p := parts[i];
      var next := ScanOnePart(now, p, opts);
      if next.Violated? {
        PartsStayViolated(l, parts, i + 1, opts);
        return next;
      }
      now := next.ledger;
    }
    assert parts[..|parts|] == parts;
    return Scanned(now);
  }

  lemma {:induction false} PartsStayViolated(l: Ledger, parts: seq<Part>, n: nat, opts: Options)
    requires n <= |parts| && ScanParts(l, parts[..n], opts).Violated?
    ensures ScanParts(l, parts, opts) == ScanParts(l, parts[..n], opts)
    decreases |parts|
  {
    hide ScanPart;
    if n < |parts| {
      var m := |parts| - 1;
      assert parts[..m][..n] == parts[..n];
      PartsStayViolated(l, parts[..m], n, opts);
    } else {
      assert parts[..n] == parts;
    }
  }

  method ScanOnePart(l: Ledger, p: Part, opts: Options) returns (scan: Scan)
    ensures scan == ScanPart(l, p, opts)
  {
    if p.call.Some? && p.response.Some? { return Violated(PartRule, l); }
    if (p.call.Some? || p.response.Some?) && (p.structured || p.text != "") { return Violated(PartRule, l); }
    if p.call.Some? {
      scan := RecordCall(l, p.call.value, opts);
    } else if p.response.Some? {
      scan := RecordResponse(l, p.response.value, opts);
    } else {
      scan := Scanned(l);
    }
  }

  method RecordCall(l: Ledger, call: Call, opts: Options) returns (scan: Scan)
    ensures scan == ScanCall(l, call, opts)
  {
    hide IsBlank;
    if IsBlank(call.id) || IsBlank(call.name) { return Violated(CallIdentity, l); }
    if call.id in l.calls { return Violated(DuplicateCall, l); }
    if call.name == CONFIRMATION {
      if !opts.allowConfirmation { return Violated(ConfirmationLifecycle, l); }
      if call.original.None? { return Violated(ConfirmationLifecycle, l); }
      var (id, name) := call.original.value;
      if id !in l.calls || l.calls[id].name != name || l.calls[id].isWrapper || l.calls[id].responses != 1
         || !l.calls[id].placeholder {
        return Violated(ConfirmationLifecycle, l);
      }
      if l.calls[id].wrapper != "" { return Violated(ConfirmationLifecycle, l); }
      var calls := l.calls[call.id := CallState(call.name, 0, false, "", true)];
      calls := calls[id := calls[id].(wrapper := call.id)];
      return Scanned(Ledger(calls, l.order + [call.id], l.openCount + 1));
    }
    return Scanned(Ledger(l.calls[call.id := CallState(call.name, 0, false, "", false)], l.order + [call.id],
      l.openCount + 1));
  }

  method RecordResponse(l: Ledger, r: Response, opts: Options) returns (scan: Scan)
    ensures scan == ScanResponse(l, r, opts)
  {
    hide IsBlank;
    if IsBlank(r.id) || IsBlank(r.name) { return Violated(ResponseIdentity, l); }
    if r.id !in l.calls { return Violated(ResponseBeforeCall, l); }
    var c := l.calls[r.id];
    if c.name != r.name { return Violated(ResponseName, l); }
    if r.willContinue && !opts.allowContinuation { return Violated(ContinuationNotAllowed, l); }
    if c.isWrapper {
      if c.responses != 0 { return Violated(DuplicateResponse, l); }
    } else if c.responses > 0 {
      if c.wrapper == "" || c.responses != 1 { return Violated(DuplicateResponse, l); }
      if c.wrapper !in l.calls || l.calls[c.wrapper].responses != 1 { return Violated(ConfirmationLifecycle, l); }
    }
    if c.responses == 0 && r.placeholder { c := c.(placeholder := true); }
    var wasOpen := Open(c);
    c := c.(responses := c.responses + 1);
    var openCount := l.openCount;
    if wasOpen != Open(c) { openCount := if Open(c) then openCount + 1 else openCount - 1; }
    return Scanned(Ledger(l.calls[r.id := c], l.order, openCount));
  }
}

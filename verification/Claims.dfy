/** Knowledge claims: admission, status transitions, corrections, and what every
    run of them keeps (internal/domain/knowledge.go). */
module Claims {
  import opened Basics
  import opened Text

  datatype Error =
    | InvalidScope | IdentityRequired | NotWritable | BindingMismatch | InvalidPredicate | InvalidValue | InvalidSource
    | BadTransition | CannotVerify | CannotDispute | Unauthorized | SubjectMismatch | ScopeMismatch | SupersedesMissing
    | LimitExceeded

  datatype ScopeKind =
    | GlobalScope | TeamScope | UserScope | ProjectScope | ConversationScope | WorkstreamScope
    | OtherScope(name: string)

  datatype Source = Human | Decision | Observation | Worker | Root | OtherSource(name: string)

  datatype Status = Asserted | Verified | Disputed | Superseded | Expired | Archived | OtherStatus(name: string)

  datatype Predicate = Is | Uses | RunsOn | LocatedIn | Owns | RelatesTo | OtherPredicate(name: string)

  datatype Number = Finite(value: real) | NotFinite

  datatype ValueKind = StringKind | NumberKind | BooleanKind | ReferenceKind | OtherValueKind(name: string)

  datatype ClaimValue = ClaimValue(kind: ValueKind, text: string, number: Number, boolean: bool, reference: string)

  datatype Claim = Claim(
    id: string, subject: string, predicate_: Predicate, value: ClaimValue, scopeKind: ScopeKind, scopeID: string,
    source: Source, sourceRef: string, authorID: string, status: Status, validFrom: int, validUntil: int,
      supersedesID: string)

  datatype Limits = Limits(subject: nat, value: nat, reference: nat, scopeID: nat, sourceRef: nat)

  /** The trusted identity of one write. */
  datatype Binding = Binding(actor: string, conversation: string, project: string, workstream: string)

  /** The text policy, the shape of a user ID, and the owner key of an actor. */
  datatype Checks = Checks(textAllowed: string -> bool, plausibleUser: string -> bool,
    ownerKey: (string, string) -> string)

  const ZERO_TIME := 0

  // ---- Intrinsic validity ------------------------------------------------

  function First(a: Option<Error>, b: Option<Error>): Option<Error> {
    if a.Some? then a else b
  }

  function When(failed: bool, error: Error): Option<Error> {
    if failed then Some(error) else None
  }

  /** A populated field must be the one the kind names. */
  predicate OnlyOwnField(v: ClaimValue) {
    && (v.text != "" ==> v.kind.StringKind?) && (v.number != Finite(0.0) ==> v.kind.NumberKind?)
    && (v.boolean ==> v.kind.BooleanKind?) && (v.reference != "" ==> v.kind.ReferenceKind?)
  }

  function CheckReference(reference: string, limits: Limits, checks: Checks): Option<Error> {
    First(When(IsBlank(reference), InvalidValue),
          First(When(|reference| > limits.reference, LimitExceeded),
            When(!checks.textAllowed(reference), InvalidValue)))
  }

  /** KnowledgeValue.validate. */
  function CheckValue(v: ClaimValue, p: Predicate, limits: Limits, checks: Checks): Option<Error> {
    if v.kind.OtherValueKind? || !OnlyOwnField(v) then Some(InvalidValue)
    else if p.Owns? || p.RelatesTo? then
      if !v.kind.ReferenceKind? then Some(InvalidValue) else CheckReference(v.reference, limits, checks)
    else
      match v.kind
      case ReferenceKind => Some(InvalidValue)
      case StringKind =>
        First(When(IsBlank(v.text), InvalidValue),
              First(When(|v.text| > limits.value, LimitExceeded), When(!checks.textAllowed(v.text), InvalidValue)))
      case NumberKind => When(v.number.NotFinite?, InvalidValue)
      case _ => None
  }

  /** ValidateKnowledgeScope. */
  function CheckScope(kind: ScopeKind, id: string, limits: Limits): Option<Error> {
    if kind.OtherScope? then Some(InvalidScope)
    else if kind.GlobalScope? then When(!IsBlank(id), InvalidScope)
    else First(When(IsBlank(id), IdentityRequired), When(|id| > limits.scopeID, LimitExceeded))
  }

  /** ValidateKnowledgeScopeWritable. */
  function CheckWritable(source: Source, kind: ScopeKind): Option<Error> {
    if source.OtherSource? then Some(InvalidSource)
    else
      match kind
      case UserScope | ProjectScope => When(!source.Human?, NotWritable)
      case WorkstreamScope => When(!source.Decision?, NotWritable)
      case _ => Some(NotWritable)
  }

  /** ValidateWithLimits, under valid limits with their defaults filled in. */
  function CheckClaim(c: Claim, limits: Limits, checks: Checks): Option<Error> {
    First(CheckScope(c.scopeKind, c.scopeID, limits),
    First(CheckWritable(c.source, c.scopeKind),
    First(When(IsBlank(c.subject), InvalidValue),
    First(When(|c.subject| > limits.subject, LimitExceeded),
    First(When(!checks.textAllowed(c.subject), InvalidValue),
    First(When(c.predicate_.OtherPredicate?, InvalidPredicate),
    First(CheckValue(c.value, c.predicate_, limits, checks),
    First(When(!checks.textAllowed(c.scopeID), InvalidScope),
    First(When(IsBlank(c.sourceRef) || !checks.textAllowed(c.sourceRef), InvalidSource),
    First(When(|c.sourceRef| > limits.sourceRef, LimitExceeded),
    First(When(c.status.OtherStatus? || c.status.Expired?, BadTransition),
          When(c.validFrom != ZERO_TIME && c.validUntil != ZERO_TIME
            && c.validUntil < c.validFrom, InvalidValue))))))))))))
  }

  predicate Words(s: string, limit: nat, checks: Checks) {
    !IsBlank(s) && |s| <= limit && checks.textAllowed(s)
  }

  /** A value has the kind it names and no other field, references stand for owners
      and relations alone, texts are written out and numbers finite. */
  predicate ValueHolds(v: ClaimValue, p: Predicate, limits: Limits, checks: Checks) {
    && v.kind in {StringKind, NumberKind, BooleanKind, ReferenceKind}
    && (v.kind != StringKind ==> v.text == "") && (v.kind != NumberKind ==> v.number == Finite(0.0))
    && (v.kind != BooleanKind ==> !v.boolean) && (v.kind != ReferenceKind ==> v.reference == "")
    && (v.kind == ReferenceKind <==> p in {Owns, RelatesTo})
    && (v.kind == StringKind ==> Words(v.text, limits.value, checks))
    && (v.kind == ReferenceKind ==> Words(v.reference, limits.reference, checks))
    && v.number != NotFinite
  }

  lemma ValueIff(v: ClaimValue, p: Predicate, limits: Limits, checks: Checks)
    ensures CheckValue(v, p, limits, checks).None? <==> ValueHolds(v, p, limits, checks)
  {
    hide IsBlank;
  }

  /** What makes a claim valid, clause by clause. */
  lemma ValidIff(c: Claim, limits: Limits, checks: Checks)
    ensures CheckClaim(c, limits, checks).None? <==>
            && (c.scopeKind, c.source) in
               {(UserScope, Human), (ProjectScope, Human), (WorkstreamScope, Decision)}
            && Words(c.scopeID, limits.scopeID, checks) && Words(c.subject, limits.subject, checks)
            && Words(c.sourceRef, limits.sourceRef, checks)
            && !c.predicate_.OtherPredicate? && ValueHolds(c.value, c.predicate_, limits, checks)
            && c.status in {Asserted, Verified, Disputed, Superseded, Archived}
            && (c.validFrom == ZERO_TIME || c.validUntil == ZERO_TIME || c.validFrom <= c.validUntil)
  {
    hide IsBlank, CheckValue, ValueHolds;
    ValueIff(c.value, c.predicate_, limits, checks);
  }

  // ---- Admission ---------------------------------------------------------

  /** ValidateKnowledgeWriteBinding. */
  function CheckBinding(source: Source, kind: ScopeKind, scopeID: string, binding: Binding,
                        checks: Checks): Option<Error> {
    First(CheckWritable(source, kind),
      match kind
      case UserScope =>
        var owner := checks.ownerKey(binding.conversation, binding.actor);
        When(owner == "" || scopeID != owner, BindingMismatch)
      case ProjectScope => When(binding.project == "" || scopeID != binding.project, BindingMismatch)
      case WorkstreamScope => When(binding.workstream == "" || scopeID != binding.workstream, BindingMismatch)
      case _ => None)
  }

  /** MaxKnowledgeClaimStatus is verified. */
  predicate MayVerify(source: Source) {
    source.Human? || source.Decision?
  }

  function CheckAuthor(c: Claim, binding: Binding, checks: Checks): Option<Error> {
    match c.source
    case Human | Decision => When(c.authorID == "" || c.authorID != binding.actor
      || !checks.plausibleUser(c.authorID), BindingMismatch)
    case Root | Worker => When(c.authorID != "", InvalidSource)
    case _ => None
  }

  function CheckCreation(c: Claim): Option<Error> {
    match c.status
    case Asserted => None
    case Verified => When(!MayVerify(c.source), CannotVerify)
    case _ => Some(BadTransition)
  }

  /** ValidateCandidate. */
  function Admission(c: Claim, limits: Limits, binding: Binding, checks: Checks): Option<Error> {
    First(CheckClaim(c, limits, checks),
    First(CheckBinding(c.source, c.scopeKind, c.scopeID, binding, checks),
    First(CheckAuthor(c, binding, checks), CheckCreation(c))))
  }

  /** The scope is the one the host bound the write to. */
  predicate Bound(c: Claim, binding: Binding, checks: Checks) {
    match c.scopeKind
    case UserScope => c.source.Human? && c.scopeID == checks.ownerKey(binding.conversation, binding.actor) != ""
    case ProjectScope => c.source.Human? && c.scopeID == binding.project != ""
    case WorkstreamScope => c.source.Decision? && c.scopeID == binding.workstream != ""
    case _ => false
  }

  /** Admission in full: only a human or decision source, in a scope bound by the
      host, by the trusted actor; the checks for other sources never decide. */
  lemma AdmittedIff(c: Claim, limits: Limits, binding: Binding, checks: Checks)
    ensures Admission(c, limits, binding, checks).None? <==>
            && CheckClaim(c, limits, checks).None? && Bound(c, binding, checks)
            && c.authorID == binding.actor != "" && checks.plausibleUser(binding.actor)
            && (c.status.Asserted? || c.status.Verified?)
  {
    hide CheckScope, CheckValue, IsBlank;
  }

  lemma AdmittedIsAuthoritative(c: Claim, limits: Limits, binding: Binding, checks: Checks)
    requires Admission(c, limits, binding, checks).None?
    ensures MayVerify(c.source) && c.authorID == binding.actor && c.scopeID != "" && !c.status.Expired?
  {
    hide CheckClaim;
    AdmittedIff(c, limits, binding, checks);
  }

  // ---- Transitions -------------------------------------------------------

  predicate TerminalStatus(s: Status) {
    s.Superseded? || s.Archived?
  }

  predicate Allowed(from: Status, to: Status) {
    match from
    case Asserted | Verified => to.Verified? || to.Disputed? || to.Archived?
    case Disputed => to.Archived?
    case _ => false
  }

  /** The errors of TransitionStatus, in order. */
  function CheckTransition(status: Status, next: Status, source: Source): Option<Error> {
    if source.OtherSource? then Some(InvalidSource)
    else if next.OtherStatus? || next.Expired? || next.Superseded? || TerminalStatus(status) then Some(BadTransition)
    else if next == status then None
    else if !Allowed(status, next) then Some(BadTransition)
    else if next.Verified? && !MayVerify(source) then Some(CannotVerify)
    else if next.Disputed? && !source.Human? then Some(CannotDispute)
    else if next.Archived? && !source.Human? then Some(Unauthorized)
    else None
  }

  /** The changes of status a claim can make by itself. */
  const CHANGES := {
    (Asserted, Verified), (Asserted, Disputed), (Asserted, Archived), (Verified, Disputed), (Verified, Archived),
    (Disputed, Archived)}

  /** A transition succeeds for a change in the table by a source with the authority
      for it, or for a live claim and its own status; each error has its case. */
  lemma TransitionIff(status: Status, next: Status, source: Source)
    ensures var error, known := CheckTransition(status, next, source), !source.OtherSource?;
            var changes := (status, next) in CHANGES;
            && (error == None <==>
                  known && ((status == next && status in {Asserted, Verified, Disputed})
                            || (changes && (next == Verified ==> source in {Human, Decision})
                                && (next in {Disputed, Archived} ==> source == Human))))
            && (error == Some(InvalidSource) <==> !known)
            && (error == Some(CannotVerify) <==>
                  known && changes && next == Verified && source !in {Human, Decision})
            && (error == Some(CannotDispute) <==> known && changes && next == Disputed && source != Human)
            && (error == Some(Unauthorized) <==> known && changes && next == Archived && source != Human)
            && (error == Some(BadTransition) <==>
                  known && !changes && !(status == next && status in {Asserted, Verified, Disputed}))
  {
    hide IsBlank;
  }

  /** ValidateKnowledgeSupersession. */
  function CheckSupersession(fresh_: Claim, prior: Claim): Option<Error> {
    First(When(fresh_.subject != prior.subject, SubjectMismatch),
    First(When(fresh_.scopeKind != prior.scopeKind || fresh_.scopeID != prior.scopeID, ScopeMismatch),
    First(When(fresh_.supersedesID == "" || fresh_.supersedesID != prior.id, SupersedesMissing),
          When(prior.status.Archived?, BadTransition))))
  }

  /** The errors of Correct, in order. */
  function CheckCorrection(prior: Claim, fresh_: Claim, source: Source, limits: Limits, binding: Binding,
                           checks: Checks): Option<Error> {
    First(When(source != fresh_.source, InvalidSource),
    First(Admission(fresh_, limits, binding, checks),
    First(CheckSupersession(fresh_, prior),
    First(When(!MayVerify(source), CannotVerify),
          When(!prior.status.Superseded? && TerminalStatus(prior.status), BadTransition)))))
  }

  /** A correction succeeds exactly for an admitted replacement of its own source,
      for the same subject and scope, that names a prior claim not archived. */
  lemma CorrectionIff(prior: Claim, fresh_: Claim, source: Source, limits: Limits, binding: Binding, checks: Checks)
    ensures CheckCorrection(prior, fresh_, source, limits, binding, checks).None? <==>
            && source == fresh_.source && Admission(fresh_, limits, binding, checks).None?
            && fresh_.subject == prior.subject && fresh_.scopeKind == prior.scopeKind && fresh_.scopeID == prior.scopeID
            && fresh_.supersedesID == prior.id != "" && !prior.status.Archived?
  {
    hide Admission;
    if Admission(fresh_, limits, binding, checks).None? {
      AdmittedIsAuthoritative(fresh_, limits, binding, checks);
    }
  }

  /** EffectiveStatus: expiry is computed, never stored. */
  function EffectiveStatus(c: Claim, now: int): Status {
    if c.validUntil != ZERO_TIME && now > c.validUntil
      && (c.status.Asserted? || c.status.Verified? || c.status.Disputed?) then Expired
    else c.status
  }

  // ---- The claim as it is updated ----------------------------------------

  class Record {
    var claim: Claim

    constructor (claim: Claim)
      ensures this.claim == claim
    {
      this.claim := claim;
    }

    method TransitionStatus(next: Status, source: Source) returns (error: Option<Error>)
      modifies this
      ensures error == CheckTransition(old(claim.status), next, source)
      ensures claim == if error.None? then old(claim).(status := next) else old(claim)
    {
      if source.OtherSource? { return Some(InvalidSource); }
      if next.OtherStatus? { return Some(BadTransition); }
      if next == Expired { return Some(BadTransition); }
      if next == Superseded { return Some(BadTransition); }
      if TerminalStatus(claim.status) { return Some(BadTransition); }
      if next == claim.status { return None; }
      if !Allowed(claim.status, next) { return Some(BadTransition); }
      if next == Verified && !MayVerify(source) { return Some(CannotVerify); }
      if next == Disputed && source != Human { return Some(CannotDispute); }
      if next == Archived && source != Human { return Some(Unauthorized); }
      claim := claim.(status := next);
      return None;
    }

    method Correct(fresh_: Claim, source: Source, limits: Limits, binding: Binding, checks: Checks)
      returns (error: Option<Error>)
      modifies this
      ensures error == CheckCorrection(old(claim), fresh_, source, limits, binding, checks)
      ensures claim == if error.None? then old(claim).(status := Superseded) else old(claim)
    {
      hide Admission, CheckSupersession;
      if source != fresh_.source { return Some(InvalidSource); }
      error := Admission(fresh_, limits, binding, checks);
      if error.Some? { return; }
      error := CheckSupersession(fresh_, claim);
      if error.Some? { return; }
      if !MayVerify(source) { return Some(CannotVerify); }
      if claim.status == Superseded { return None; }
      if TerminalStatus(claim.status) { return Some(BadTransition); }
      claim := claim.(status := Superseded);
      return None;
    }
  }

  // ---- Runs --------------------------------------------------------------

  datatype Op =
    | Transition(next: Status, source: Source)
    | Correction(fresh_: Claim, source: Source, limits: Limits, binding: Binding)

  function Failure(c: Claim, op: Op, checks: Checks): Option<Error> {
    match op
    case Transition(next, source) => CheckTransition(c.status, next, source)
    case Correction(fresh_, source, limits, binding) => CheckCorrection(c, fresh_, source, limits, binding, checks)
  }

  function Apply(c: Claim, op: Op, checks: Checks): Claim {
    if Failure(c, op, checks).Some? then c
    else c.(status := if op.Transition? then op.next else Superseded)
  }

  function Run(c: Claim, ops: seq<Op>, checks: Checks): Claim {
    if ops == [] then c else Apply(Run(c, ops[..|ops| - 1], checks), ops[|ops| - 1], checks)
  }

  /** Every status a claim can leave comes before the ones it can enter. */
  function Rank(s: Status): nat {
    match s
    case Asserted => 0
    case Verified => 1
    case Disputed => 2
    case _ => 3
  }

  predicate Stored(s: Status) {
    s.Asserted? || s.Verified? || s.Disputed? || s.Superseded? || s.Archived?
  }

  lemma ApplyRanks(c: Claim, op: Op, checks: Checks)
    requires Stored(c.status)
    ensures var c' := Apply(c, op, checks);
            && Stored(c'.status) && c' == c.(status := c'.status)
            && (c'.status != c.status ==> Rank(c.status) < Rank(c'.status) && !TerminalStatus(c.status))
  {
    hide Admission;
  }

  /** Along every run the status only moves forward, and everything else stays. */
  lemma {:induction false} RunRanks(c: Claim, ops: seq<Op>, checks: Checks, n: nat)
    requires Stored(c.status) && n <= |ops|
    ensures var mid, end := Run(c, ops[..n], checks), Run(c, ops, checks);
            && Stored(mid.status) && Stored(end.status) && end == c.(status := end.status)
            && (end.status != mid.status ==> Rank(mid.status) < Rank(end.status) && !TerminalStatus(mid.status))
    decreases |ops|
  {
    hide Apply;
    if n == |ops| {
      assert ops[..n] == ops;
    }
    if ops != [] {
      var m := |ops| - 1;
      RunRanks(c, ops[..m], checks, if n <= m then n else m);
      assert ops[..m][..m] == ops[..m];
      ApplyRanks(Run(c, ops[..m], checks), ops[m], checks);
      if n <= m { assert ops[..m][..n] == ops[..n]; }
    }
  }

  /** From an admitted candidate: superseded and archived absorb, nothing returns
      to asserted, a disputed claim is never verified, expired is never stored. */
  lemma Lifecycle(c: Claim, limits: Limits, binding: Binding, checks: Checks, ops: seq<Op>, n: nat)
    requires Admission(c, limits, binding, checks).None? && n <= |ops|
    ensures var mid, end := Run(c, ops[..n], checks), Run(c, ops, checks);
            && Stored(end.status) && end == c.(status := end.status)
            && (TerminalStatus(mid.status) ==> end == mid)
            && (end.status.Asserted? ==> mid.status.Asserted?)
            && (mid.status.Disputed? ==> !end.status.Verified?)
  {
    hide Run, Admission;
    AdmittedIff(c, limits, binding, checks);
    RunRanks(c, ops, checks, n);
    RunRanks(c, ops[..n], checks, 0);
  }

  /** Who may bring a claim to a status. */
  predicate Authority(op: Op, status: Status) {
    match status
    case Verified => op.Transition? && MayVerify(op.source)
    case Disputed | Archived => op.Transition? && op.source.Human?
    case Superseded => op.Correction? && MayVerify(op.source)
    case _ => false
  }

  lemma ApplyAuthority(c: Claim, op: Op, checks: Checks)
    requires Apply(c, op, checks).status != c.status
    ensures Authority(op, Apply(c, op, checks).status)
    ensures op.Correction? ==>
              && Admission(op.fresh_, op.limits, op.binding, checks).None? && op.fresh_.supersedesID == c.id
              && op.fresh_.subject == c.subject && op.fresh_.scopeKind == c.scopeKind && op.fresh_.scopeID == c.scopeID
  {
    hide Admission;
    if op.Correction? {
      CorrectionIff(c, op.fresh_, op.source, op.limits, op.binding, checks);
    }
  }

  /** A status other than the first was brought about by an operation with the
      authority for it. */
  lemma {:induction false} StatusHasAuthority(c: Claim, ops: seq<Op>, checks: Checks)
    requires Run(c, ops, checks).status != c.status
    ensures exists i | 0 <= i < |ops| :: Authority(ops[i], Run(c, ops, checks).status)
  {
    hide Apply, Authority;
    var n := |ops| - 1;
    var front := ops[..n];
    if Run(c, front, checks).status == Run(c, ops, checks).status {
      StatusHasAuthority(c, front, checks);
      var i :| 0 <= i < n && Authority(front[i], Run(c, front, checks).status);
      assert Authority(ops[i], Run(c, ops, checks).status);
    } else {
      ApplyAuthority(Run(c, front, checks), ops[n], checks);
      assert Authority(ops[n], Run(c, ops, checks).status);
    }
  }

  /** A superseded claim accepts further corrections without changing. */
  lemma SupersededAgain(prior: Claim, fresh_: Claim, source: Source, limits: Limits, binding: Binding, checks: Checks)
    requires CheckCorrection(prior, fresh_, source, limits, binding, checks).None?
    ensures var after := prior.(status := Superseded);
            CheckCorrection(after, fresh_, source, limits, binding, checks).None?
            && Apply(after, Correction(fresh_, source, limits, binding), checks) == after
  {
    hide Admission;
    CorrectionIff(prior, fresh_, source, limits, binding, checks);
    CorrectionIff(prior.(status := Superseded), fresh_, source, limits, binding, checks);
  }

  /** Expiry shows exactly on live claims past their validity, and never in store. */
  lemma ExpiryIsComputed(c: Claim, limits: Limits, binding: Binding, checks: Checks, ops: seq<Op>, now: int)
    requires Admission(c, limits, binding, checks).None?
    ensures var end := Run(c, ops, checks);
            EffectiveStatus(end, now).Expired? <==>
                c.validUntil != ZERO_TIME && now > c.validUntil && !TerminalStatus(end.status)
  {
    hide Run, Admission;
    Lifecycle(c, limits, binding, checks, ops, 0);
  }
}

/** External-agent jobs and the activations that answer them: transition tables
    and what every run of requests keeps (internal/domain/external_agent_job.go). */
module Jobs {
  import opened Basics

  datatype JobStatus =
    | Queued | Running | CancelRequested | InterruptedSafe | CompletionUnknown | Reconciling
    | Completed | Failed | Cancelled | Abandoned | OtherJob(name: string)

  /** validJobTransition. */
  predicate JobMoves(from: JobStatus, to: JobStatus) {
    match from
    case Queued => to.Running? || to.Cancelled?
    case Running => to.Completed? || to.Failed? || to.CancelRequested? || to.InterruptedSafe? || to.CompletionUnknown?
    case CancelRequested => to.Cancelled? || to.CompletionUnknown?
    case InterruptedSafe => to.Queued? || to.Cancelled?
    case CompletionUnknown => to.Reconciling? || to.Abandoned?
    case Reconciling => to.Completed? || to.Failed? || to.CompletionUnknown? || to.CancelRequested?
    case _ => false
  }

  datatype ActivationState =
    | Pending | Processing | ModelStarted | ResponsePrepared | Done | Unknown | Broken | OtherActivation(name: string)

  /** validActivationTransition. Repeating a state is allowed for a prepared
      response alone. */
  predicate ActivationMoves(from: ActivationState, to: ActivationState) {
    if from == to then from.ResponsePrepared?
    else
      match from
      case Pending => to.Processing?
      case Processing => to.Pending? || to.ModelStarted? || to.Broken?
      case ModelStarted => to.ResponsePrepared? || to.Unknown?
      case ResponsePrepared => to.Done? || to.Broken?
      case _ => false
  }

  class Job {
    var status: JobStatus

    constructor (status: JobStatus)
      ensures this.status == status
    {
      this.status := status;
    }

    method Transition(next: JobStatus) returns (ok: bool)
      modifies this
      ensures ok == JobMoves(old(status), next) && status == JobStep(old(status), next)
    {
      if !JobMoves(status, next) { return false; }
      status := next;
      return true;
    }
  }

  class Activation {
    var state: ActivationState

    constructor (state: ActivationState)
      ensures this.state == state
    {
      this.state := state;
    }

    method Transition(next: ActivationState) returns (ok: bool)
      modifies this
      ensures ok == ActivationMoves(old(state), next) && state == ActivationStep(old(state), next)
    {
      if !ActivationMoves(state, next) { return false; }
      state := next;
      return true;
    }
  }

  // ---- The tables --------------------------------------------------------

  const JOB_TABLE := {
    (Queued, Running), (Queued, Cancelled),
    (Running, Completed), (Running, Failed), (Running, CancelRequested), (Running, InterruptedSafe),
    (Running, CompletionUnknown),
    (CancelRequested, Cancelled), (CancelRequested, CompletionUnknown),
    (InterruptedSafe, Queued), (InterruptedSafe, Cancelled),
    (CompletionUnknown, Reconciling), (CompletionUnknown, Abandoned),
    (Reconciling, Completed), (Reconciling, Failed), (Reconciling, CompletionUnknown),
    (Reconciling, CancelRequested)}

  const ACTIVATION_TABLE := {
    (Pending, Processing),
    (Processing, Pending), (Processing, ModelStarted), (Processing, Broken),
    (ModelStarted, ResponsePrepared), (ModelStarted, Unknown),
    (ResponsePrepared, ResponsePrepared), (ResponsePrepared, Done), (ResponsePrepared, Broken)}

  lemma JobTable(from: JobStatus, to: JobStatus)
    ensures JobMoves(from, to) <==> (from, to) in JOB_TABLE
  {
  }

  lemma ActivationTable(from: ActivationState, to: ActivationState)
    ensures ActivationMoves(from, to) <==> (from, to) in ACTIVATION_TABLE
  {
  }

  // ---- Job runs ----------------------------------------------------------

  /** A refused request leaves the status as it was. */
  function JobStep(status: JobStatus, next: JobStatus): JobStatus {
    if JobMoves(status, next) then next else status
  }

  function JobRun(status: JobStatus, requests: seq<JobStatus>): JobStatus {
    if requests == [] then status else JobStep(JobRun(status, requests[..|requests| - 1]), requests[|requests| - 1])
  }

  /** How often a run enters a status. */
  function JobEntries(status: JobStatus, requests: seq<JobStatus>, target: JobStatus): nat {
    if requests == [] then 0
    else
      var n := |requests| - 1;
      JobEntries(status, requests[..n], target)
      + if requests[n] == target && JobMoves(JobRun(status, requests[..n]), target) then 1 else 0
  }

  predicate Terminal(status: JobStatus) {
    status.Completed? || status.Failed? || status.Cancelled? || status.Abandoned?
  }

  /** Statuses that cannot lead back to execution. */
  predicate NoMoreExecution(status: JobStatus) {
    status.CompletionUnknown? || status.Reconciling? || status.CancelRequested? || Terminal(status)
  }

  /** What a run leaves behind stays behind, at every later moment. */
  lemma {:induction false} JobForward(status: JobStatus, requests: seq<JobStatus>, n: nat)
    requires n <= |requests|
    ensures var mid, end := JobRun(status, requests[..n]), JobRun(status, requests);
            && (NoMoreExecution(mid) ==> NoMoreExecution(end))
            && (Terminal(mid) ==> end == mid)
    decreases |requests|
  {
    if n == |requests| {
      assert requests[..n] == requests;
    } else {
      var m := |requests| - 1;
      JobForward(status, requests[..m], n);
      assert requests[..m][..n] == requests[..n];
    }
  }

  /** A job whose completion was ever unknown is never queued or running again. */
  lemma NeverRunsAgain(status: JobStatus, requests: seq<JobStatus>, n: nat)
    requires n <= |requests| && JobRun(status, requests[..n]).CompletionUnknown?
    ensures !JobRun(status, requests).Queued? && !JobRun(status, requests).Running?
  {
    hide JobRun;
    JobForward(status, requests, n);
  }

  /** From the queue, a job starts again only after each start ended in a safe
      interruption. */
  lemma {:induction false} StartsAreInterrupted(requests: seq<JobStatus>)
    ensures var status := JobRun(Queued, requests);
            && JobEntries(Queued, requests, Running) <= JobEntries(Queued, requests, InterruptedSafe) + 1
            && (status.Queued? || status.InterruptedSafe? ==>
                  JobEntries(Queued, requests, Running) == JobEntries(Queued, requests, InterruptedSafe))
            && (status.Running? ==>
                JobEntries(Queued, requests, Running) == JobEntries(Queued, requests, InterruptedSafe) + 1)
  {
    if requests != [] {
      StartsAreInterrupted(requests[..|requests| - 1]);
    }
  }

  /** Only a queued or a cancelled job may never have been started. */
  lemma {:induction false} OutcomeWasStarted(requests: seq<JobStatus>)
    ensures var status := JobRun(Queued, requests);
            !status.Queued? && !status.Cancelled? ==> JobEntries(Queued, requests, Running) >= 1
  {
    if requests != [] {
      OutcomeWasStarted(requests[..|requests| - 1]);
    }
  }

  // ---- Activation runs ---------------------------------------------------

  function ActivationStep(state: ActivationState, next: ActivationState): ActivationState {
    if ActivationMoves(state, next) then next else state
  }

  function ActivationRun(state: ActivationState, requests: seq<ActivationState>): ActivationState {
    if requests == [] then state else ActivationStep(ActivationRun(state, requests[..|requests| - 1]),
      requests[|requests| - 1])
  }

  function ActivationEntries(state: ActivationState, requests: seq<ActivationState>, target: ActivationState): nat {
    if requests == [] then 0
    else
      var n := |requests| - 1;
      ActivationEntries(state, requests[..n], target)
      + if requests[n] == target && ActivationMoves(ActivationRun(state, requests[..n]), target) then 1 else 0
  }

  /** The model is started at most once, and not yet while the activation may
      still go back to pending. */
  lemma {:induction false} ModelStartsOnce(requests: seq<ActivationState>)
    ensures var state := ActivationRun(Pending, requests);
            && ActivationEntries(Pending, requests, ModelStarted) <= 1
            && (state.Pending? || state.Processing? ==> ActivationEntries(Pending, requests, ModelStarted) == 0)
            && (state.ModelStarted? || state.ResponsePrepared? || state.Done? || state.Unknown? ==>
                  ActivationEntries(Pending, requests, ModelStarted) == 1)
            && !state.OtherActivation?
  {
    if requests != [] {
      ModelStartsOnce(requests[..|requests| - 1]);
    }
  }

  /** Where a completed activation passed: the model started, and later its
      response was prepared. */
  predicate PassedThrough(requests: seq<ActivationState>, i: nat, j: nat) {
    i < j <= |requests| && ActivationRun(Pending, requests[..i]).ModelStarted?
      && ActivationRun(Pending, requests[..j]).ResponsePrepared?
  }

  lemma {:induction false} CompletedWasPrepared(requests: seq<ActivationState>)
    ensures ActivationRun(Pending, requests).ResponsePrepared? || ActivationRun(Pending, requests).Done? ==>
              exists i: nat, j: nat :: PassedThrough(requests, i, j)
  {
    if requests == [] {
      return;
    }
    var n := |requests| - 1;
    var front := requests[..n];
    CompletedWasPrepared(front);
    assert requests[..|requests|] == requests;
    var before, end := ActivationRun(Pending, front), ActivationRun(Pending, requests);
    if end.ResponsePrepared? && before.ModelStarted? {
      assert PassedThrough(requests, n, |requests|);
    } else if end.ResponsePrepared? || end.Done? {
      var i: nat, j: nat :| PassedThrough(front, i, j);
      assert front[..i] == requests[..i] && front[..j] == requests[..j];
      assert PassedThrough(requests, i, j);
    }
  }

  predicate Settled(state: ActivationState) {
    state.Done? || state.Unknown? || state.Broken?
  }

  /** A settled activation stays as it is, whatever is requested. */
  lemma {:induction false} SettledStays(state: ActivationState, requests: seq<ActivationState>)
    requires Settled(state)
    ensures ActivationRun(state, requests) == state
  {
    if requests != [] {
      SettledStays(state, requests[..|requests| - 1]);
    }
  }
}

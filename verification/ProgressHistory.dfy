/** What each event of a log leaves behind: phases, permission, clocks, and the
    last tool, read off the log (internal/domain/external_agent_progress.go). */
module ProgressHistory {
  import opened Basics
  import opened Progress

  /** The phases that an event of a kind sets, whatever came before. */
  const PHASES := map[
    ProcessStarted := Starting, InitializeResponse := Starting, SessionNew := SessionReady,
    PromptSent := AgentProcessing, Plan := Planning, PermissionRequested := WaitingPermission,
    PermissionResponded := AgentProcessing, MessageChunk := Responding]

  /** The phases a prompt ends in; any other reason is a failure. */
  const ENDINGS := map[EndTurn := Completed, CancelledTurn := Cancelled]

  /** The phase an event sets; active are the calls pending or running after it,
      before is the phase it meets. */
  function PhaseSet(e: Event, active: set<string>, before: Phase): Option<Phase> {
    if e.kind in PHASES then Some(PHASES[e.kind])
    else if e.kind == PromptResponse then Some(if e.stopReason in ENDINGS then ENDINGS[e.stopReason] else Failed)
    else if e.kind == ProcessFailed then if before in {Completed, Cancelled} then None else Some(Failed)
    else if e.kind !in {ToolCall, ToolCallUpdate} || e.tool.None? then None
    else if e.tool.value.status == Running then Some(ToolRunning)
    else if e.tool.value.status == Terminal && active == {} then Some(AgentProcessing)
    else if e.kind == ToolCallUpdate then None
    else if e.tool.value.status == Pending then Some(ToolPending)
    else if e.tool.value.status == Terminal then Some(ToolRunning)
    else None
  }

  /** The phase that entry i of a log sets. */
  function PhaseAt(s: State, log: seq<Entry>, i: nat): Option<Phase>
    requires i < |log|
  {
    PhaseSet(log[i].event, ActiveCalls(log[..i + 1]), Run(s, log[..i]).standing.phase)
  }

  /** p was set last, or never changed. */
  ghost predicate LastSet(s: State, log: seq<Entry>, p: Phase) {
    || ((forall i | 0 <= i < |log| :: PhaseAt(s, log, i).None?) && p == s.standing.phase)
    || exists i | 0 <= i < |log| ::
         PhaseAt(s, log, i) == Some(p) && forall j | i < j < |log| :: PhaseAt(s, log, j).None?
  }

  function After(p: Option<Phase>, before: Phase): Phase {
    if p.Some? then p.value else before
  }

  lemma ToolPhaseSet(e: Event, count: int, active: set<string>, before: Phase)
    requires (count == 0 <==> active == {}) && e.kind in {ToolCall, ToolCallUpdate}
    ensures After(PhaseSet(e, active, before), before) ==
            if e.kind == ToolCall then ToolPhase(before, count, e.tool) else UpdatePhase(before, count, e.tool)
  {
    assert e.kind !in PHASES;
  }

  lemma OtherPhaseSet(o: Standing, e: Event, count: int, active: set<string>)
    requires e.kind !in {ToolCall, ToolCallUpdate}
    ensures Proceed(o, e, count).phase == After(PhaseSet(e, active, o.phase), o.phase)
  {
    hide ToolPhase, UpdatePhase;
  }

  lemma PhaseStep(s: State, e: Event, now: int, active: set<string>)
    requires Track(s.tools, e).count == 0 <==> active == {}
    ensures Step(s, e, now).standing.phase == After(PhaseSet(e, active, s.standing.phase), s.standing.phase)
  {
    hide Track, Tick, PhaseSet, ToolPhase, UpdatePhase;
    if e.kind in {ToolCall, ToolCallUpdate} {
      ToolPhaseSet(e, Track(s.tools, e).count, active, s.standing.phase);
    } else {
      OtherPhaseSet(s.standing, e, Track(s.tools, e).count, active);
    }
  }

  lemma NoOverflowBefore(s: State, log: seq<Entry>)
    requires log != [] && !Run(s, log).tools.overflow
    ensures !Run(s, log[..|log| - 1]).tools.overflow
  {
    hide Proceed, Tick;
  }

  lemma SamePhases(s: State, log: seq<Entry>, n: nat)
    requires n <= |log|
    ensures forall i | 0 <= i < n :: PhaseAt(s, log[..n], i) == PhaseAt(s, log, i)
  {
    hide PhaseSet, Run, ActiveCalls;
    var front := log[..n];
    forall i | 0 <= i < n
      ensures PhaseAt(s, front, i) == PhaseAt(s, log, i)
    {
      assert front[..i] == log[..i] && front[..i + 1] == log[..i + 1] && front[i] == log[i];
    }
  }

  lemma LastSetMore(s: State, log: seq<Entry>, before: Phase)
    requires log != [] && LastSet(s, log[..|log| - 1], before)
    ensures LastSet(s, log, After(PhaseAt(s, log, |log| - 1), before))
  {
    hide PhaseAt;
    var n := |log| - 1;
    var front := log[..n];
    SamePhases(s, log, n);
    if PhaseAt(s, log, n).Some? {
      // Nothing follows the last entry.
    } else if i :| 0 <= i < n && PhaseAt(s, front, i) == Some(before)
                   && forall j | i < j < n :: PhaseAt(s, front, j).None? {
      assert PhaseAt(s, log, i) == Some(before);
    }
  }

  /** While no call went untracked, the phase is the one that was set last. */
  lemma {:induction false} PhaseIsLast(s: State, log: seq<Entry>)
    requires NoTools(s) && !Run(s, log).tools.overflow
    ensures LastSet(s, log, Run(s, log).standing.phase)
  {
    hide Step, LastSet, PhaseSet, ActiveCalls, NoTools;
    if log == [] {
      NoneSet(s);
    } else {
      var n := |log| - 1;
      NoOverflowBefore(s, log);
      PhaseIsLast(s, log[..n]);
      LastSetMore(s, log, Run(s, log[..n]).standing.phase);
      CountIsExact(s, log);
      CountOfStep(Run(s, log[..n]), log[n].event, log[n].now);
      assert log[..n + 1] == log;
      PhaseStep(Run(s, log[..n]), log[n].event, log[n].now, ActiveCalls(log));
    }
  }

  lemma NoneSet(s: State)
    ensures LastSet(s, [], s.standing.phase)
  {
  }

  lemma CountOfStep(s: State, e: Event, now: int)
    ensures Step(s, e, now).tools == Track(s.tools, e)
  {
    hide Track, Tick, Proceed;
  }

  /** What else an event changes of the standing: permission follows the last
      request or response, the stop reason the last prompt response. */
  lemma StandingStep(s: State, e: Event, now: int)
    ensures var o, o' := s.standing, Step(s, e, now).standing;
            && o'.lastEvent == (if e.kind == NoEvent then o.lastEvent else e.kind)
            && o'.pendingPermission == (if e.kind == PermissionRequested then true
                                        else if e.kind == PermissionResponded then false else o.pendingPermission)
            && o'.stopReason == (if e.kind == PromptResponse then e.stopReason else o.stopReason)
            && o'.errorClass == (if e.kind == ProcessFailed && o.phase !in {Completed, Cancelled}
                                    && e.errorClass != NoClass then e.errorClass else o.errorClass)
  {
    hide Track, Tick, ToolPhase, UpdatePhase;
  }

  /** The tool of the last tool event with an ID is kept; its kind, when it has one. */
  lemma ToolStep(s: State, e: Event, now: int)
    ensures var t, t' := s.tools, Step(s, e, now).tools;
            if e.kind in {ToolCall, ToolCallUpdate} && e.tool.Some? && e.tool.value.callID != "" then
              && t'.lastCallID == e.tool.value.callID && t'.lastStatus == e.tool.value.status
              && t'.lastKind == (if e.tool.value.kind == NoKind then t.lastKind else e.tool.value.kind)
            else t' == t
  {
    hide Proceed, Tick;
  }

  /** Frames of the agent, updates of its session, and what counts as progress: a
      new call, a changed status, more usage, and the kinds listed. */
  lemma ClocksMove(s: State, log: seq<Entry>, e: Event)
    requires NoTools(s) && !Run(s, log).tools.overflow
    ensures IsTransport(e) <==> e.kind !in {PromptSent, PermissionResponded, ProcessStarted, ProcessFailed}
    ensures IsSession(e) <==>
            e.kind in {Plan, ToolCall, ToolCallUpdate, MessageChunk, ThoughtChunk, UsageUpdate, ConfigOptionUpdate,
                       UnknownNotification}
    ensures IsMeaningful(Run(s, log).tools.states, e) <==>
            || e.kind in {ProcessStarted, InitializeResponse, SessionNew, PromptSent, PermissionRequested,
                          PermissionResponded, MessageChunk, ThoughtChunk, PromptResponse, ProcessFailed}
            || (e.kind == UsageUpdate && e.usageIncreased)
            || (e.kind == ToolCall && (e.tool.None? || e.tool.value.callID !in ActiveCalls(log)))
            || (e.kind == ToolCallUpdate && e.tool.Some? &&
                  (e.tool.value.callID !in ActiveCalls(log)
                   || Latest(log, e.tool.value.callID) != Some(e.tool.value.status)))
  {
    hide Run, ActiveCalls, Latest, NoTools, Report;
    RunTracks(s, log);
  }
}

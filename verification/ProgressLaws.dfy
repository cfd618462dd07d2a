/** Clocks, phases and validity over whole event logs, and the projection as the
    object that is updated in place. */
module ProgressLaws {
  import opened Basics
  import opened Progress

  // ---- Clocks ------------------------------------------------------------

  datatype Clock = TransportClock | SessionClock | MeaningfulClock

  /** The i-th entry of a log moves a clock; meaning depends on the state it meets. */
  predicate Advances(s: State, log: seq<Entry>, clock: Clock, i: nat)
    requires i < |log|
  {
    match clock
    case TransportClock => IsTransport(log[i].event)
    case SessionClock => IsSession(log[i].event)
    case MeaningfulClock => IsMeaningful(Run(s, log[..i]).tools.states, log[i].event)
  }

  function ReadClock(c: Clocks, clock: Clock): int {
    match clock
    case TransportClock => c.transportAt
    case SessionClock => c.sessionAt
    case MeaningfulClock => c.meaningfulAt
  }

  /** t is the maximum of the start and the times of the entries that move the clock. */
  predicate IsLatest(s: State, log: seq<Entry>, clock: Clock, t: int) {
    && t >= ReadClock(s.clocks, clock)
    && (forall i | 0 <= i < |log| && Advances(s, log, clock, i) :: t >= log[i].now)
    && (t == ReadClock(s.clocks, clock) || exists i | 0 <= i < |log| :: Advances(s, log, clock, i) && t == log[i].now)
  }

  /** Every clock is the latest time of its events, in whatever order they come. */
  lemma {:induction false} ClocksAreLatest(s: State, log: seq<Entry>, clock: Clock)
    ensures IsLatest(s, log, clock, ReadClock(Run(s, log).clocks, clock))
  {
    hide Advances, Track, Proceed;
    if log != [] {
      var n := |log| - 1;
      ClocksAreLatest(s, log[..n], clock);
      ClockMoves(s, log, clock);
      IsLatestMore(s, log, clock, ReadClock(Run(s, log[..n]).clocks, clock));
    }
  }

  lemma ClockMoves(s: State, log: seq<Entry>, clock: Clock)
    requires log != []
    ensures var n := |log| - 1;
            var before, after := ReadClock(Run(s, log[..n]).clocks, clock), ReadClock(Run(s, log).clocks, clock);
            after == if Advances(s, log, clock, n) then MaxTime(before, log[n].now) else before
  {
    hide IsTransport, IsSession, IsMeaningful, MaxTime, Track, Proceed;
  }

  lemma IsLatestMore(s: State, log: seq<Entry>, clock: Clock, before: int)
    requires log != [] && IsLatest(s, log[..|log| - 1], clock, before)
    ensures var n := |log| - 1;
            IsLatest(s, log, clock, if Advances(s, log, clock, n) then MaxTime(before, log[n].now) else before)
  {
    hide Run, ReadClock;
    var n := |log| - 1;
    var front := log[..n];
    forall i | 0 <= i < n
      ensures Advances(s, front, clock, i) == Advances(s, log, clock, i) && front[i] == log[i]
    {
      assert front[..i] == log[..i];
    }
    hide Advances;
    if before != ReadClock(s.clocks, clock) {
      var i :| 0 <= i < |front| && Advances(s, front, clock, i) && before == front[i].now;
      assert Advances(s, log, clock, i) && before == log[i].now;
    }
  }

  predicate NotBefore(a: Clocks, b: Clocks) {
    && a.transportAt <= b.transportAt && a.sessionAt <= b.sessionAt && a.meaningfulAt <= b.meaningfulAt
    && (a.promptStartedAt != ZERO_TIME ==> b.promptStartedAt == a.promptStartedAt)
  }

  /** No clock moves back, the prompt start is set once, and session activity is
      never later than transport activity. */
  lemma {:induction false} ClocksForward(s: State, log: seq<Entry>, n: nat)
    requires n <= |log|
    ensures NotBefore(Run(s, log[..n]).clocks, Run(s, log).clocks)
    ensures s.clocks.sessionAt <= s.clocks.transportAt ==>
            Run(s, log).clocks.sessionAt <= Run(s, log).clocks.transportAt
    decreases |log|
  {
    hide IsMeaningful, Track, Proceed;
    if n == |log| {
      assert log[..n] == log;
    }
    if log != [] {
      var m := |log| - 1;
      ClocksForward(s, log[..m], if n <= m then n else m);
      if n <= m { assert log[..m][..n] == log[..n]; }
    }
  }

  // ---- Phases ------------------------------------------------------------

  /** A terminal prompt response has its stop reason on record, and a wait for
      permission is marked as pending. */
  predicate PhaseSound(o: Standing) {
    && (o.phase.Completed? ==> o.stopReason.EndTurn?)
    && (o.phase.Cancelled? ==> o.stopReason.CancelledTurn?)
    && (o.phase.WaitingPermission? ==> o.pendingPermission)
  }

  lemma ProceedSound(o: Standing, e: Event, count: int)
    requires PhaseSound(o)
    ensures PhaseSound(Proceed(o, e, count))
    ensures e.kind.ProcessFailed? && (o.phase.Completed? || o.phase.Cancelled?) ==>
              Proceed(o, e, count) == o.(lastEvent := ProcessFailed)
    ensures !e.kind.ProcessFailed? ==> Proceed(o, e, count).errorClass == o.errorClass
  {
  }

  lemma {:induction false} RunPhase(s: State, log: seq<Entry>)
    requires PhaseSound(s.standing)
    ensures PhaseSound(Run(s, log).standing)
  {
    hide Proceed, Tick, Track;
    if log != [] {
      var before, last := Run(s, log[..|log| - 1]), log[|log| - 1];
      RunPhase(s, log[..|log| - 1]);
      ProceedSound(before.standing, last.event, Track(before.tools, last.event).count);
    }
  }

  /** Once completed or cancelled, failures reported later change neither the
      phase nor the stop reason nor the error class. */
  lemma {:induction false} FailuresAfterTheEnd(s: State, log: seq<Entry>)
    requires PhaseSound(s.standing) && (s.standing.phase.Completed? || s.standing.phase.Cancelled?)
    requires forall i | 0 <= i < |log| :: log[i].event.kind.ProcessFailed?
    ensures Run(s, log).standing == s.standing.(lastEvent := if log == [] then s.standing.lastEvent else ProcessFailed)
  {
    hide Proceed, Tick, Track, PhaseSound;
    if log != [] {
      var before, last := Run(s, log[..|log| - 1]), log[|log| - 1];
      RunPhase(s, log[..|log| - 1]);
      FailuresAfterTheEnd(s, log[..|log| - 1]);
      ProceedSound(before.standing, last.event, Track(before.tools, last.event).count);
    }
  }

  /** A recorded error class came from a failure event of the log. */
  lemma {:induction false} ErrorClassFromFailure(s: State, log: seq<Entry>)
    ensures Run(s, log).standing.errorClass == s.standing.errorClass
            || exists i | 0 <= i < |log| ::
                log[i].event.kind.ProcessFailed? && log[i].event.errorClass == Run(s, log).standing.errorClass
  {
    hide Tick, Track, ToolPhase, UpdatePhase;
    if log != [] {
      var n := |log| - 1;
      var front := log[..n];
      ErrorClassFromFailure(s, front);
      assert forall i | 0 <= i < n :: front[i] == log[i];
    }
  }

  // ---- Validity ----------------------------------------------------------

  /** Validate reports nothing. */
  predicate Valid(s: State) {
    && s.jobID != "" && s.attempt >= 0 && ValidStanding(s.standing) && ValidTools(s.tools)
  }

  predicate ValidStanding(o: Standing) {
    && !o.phase.OtherPhase? && !o.lastEvent.OtherEvent? && !o.stopReason.OtherReason? && !o.errorClass.OtherClass?
  }

  predicate ValidTools(t: Tools) {
    && 0 <= t.count <= MAX_TRACKED_TOOLS && !t.lastStatus.UnknownStatus?
    && |t.lastCallID| <= MAX_CALL_ID && !t.lastKind.UnknownKind?
  }

  /** What a projection retains of an event lies in the bounded lists. */
  predicate Fits(s: State, e: Event) {
    && !e.kind.OtherEvent? && ToolFits(e) && (e.kind.PromptResponse? ==> !e.stopReason.OtherReason?)
    && (e.kind.ProcessFailed? && !s.standing.phase.Completed? && !s.standing.phase.Cancelled? ==>
      !e.errorClass.OtherClass?)
  }

  predicate ToolFits(e: Event) {
    IsToolEvent(e) && e.tool.Some? && e.tool.value.callID != "" ==>
      |e.tool.value.callID| <= MAX_CALL_ID && !e.tool.value.kind.UnknownKind? && !e.tool.value.status.UnknownStatus?
  }

  /** The tracked calls stay within the bound; a restored projection tracks none. */
  predicate Bounded(t: Tools) {
    |t.states| <= MAX_TRACKED_TOOLS
  }

  lemma TrackBounded(t: Tools, e: Event)
    requires Bounded(t)
    ensures Bounded(Track(t, e)) && (Track(t, e).count == t.count || 0 <= Track(t, e).count <= MAX_TRACKED_TOOLS)
  {
    if IsToolEvent(e) && e.tool.Some? {
      SizeAfter(t.states, e.tool.value.callID, e.tool.value.status);
    }
  }

  /** A step keeps a valid projection valid exactly when its event fits. */
  lemma StepValidIff(s: State, e: Event, now: int)
    requires Valid(s) && Bounded(s.tools)
    ensures Valid(Step(s, e, now)) <==> Fits(s, e)
  {
    hide Tick, Track, Proceed, ValidTools, ValidStanding;
    TrackValidIff(s.tools, e);
    ProceedValidIff(s.standing, e, Track(s.tools, e).count);
  }

  lemma TrackValidIff(t: Tools, e: Event)
    requires ValidTools(t) && Bounded(t)
    ensures ValidTools(Track(t, e)) <==> ToolFits(e)
  {
    hide Account;
    TrackBounded(t, e);
    if IsToolEvent(e) && e.tool.Some? {
      AccountKeeps(Retain(t, e.tool.value), e.tool.value.callID, e.tool.value.status);
    }
  }

  lemma ProceedValidIff(o: Standing, e: Event, count: int)
    requires ValidStanding(o)
    ensures ValidStanding(Proceed(o, e, count)) <==>
            && !e.kind.OtherEvent? && (e.kind.PromptResponse? ==> !e.stopReason.OtherReason?)
            && (e.kind.ProcessFailed? && !o.phase.Completed? && !o.phase.Cancelled? ==> !e.errorClass.OtherClass?)
  {
    hide Proceed;
    ProceedFields(o, e, count);
  }

  /** The fields of a standing that an event sets. */
  lemma ProceedFields(o: Standing, e: Event, count: int)
    ensures var o' := Proceed(o, e, count);
            && o'.lastEvent == (if e.kind.NoEvent? then o.lastEvent else e.kind)
            && o'.stopReason == (if e.kind.PromptResponse? then e.stopReason else o.stopReason)
            && o'.errorClass == (if e.kind.ProcessFailed? && !o.phase.Completed? && !o.phase.Cancelled?
              && !e.errorClass.NoClass?
                                 then e.errorClass else o.errorClass)
            && (!o.phase.OtherPhase? ==> !o'.phase.OtherPhase?)
  {
    hide ToolPhase, UpdatePhase;
    PhasesKnown(o.phase, count, e.tool);
  }

  lemma AccountKeeps(t: Tools, id: string, status: Status)
    ensures var t' := Account(t, id, status);
            t'.lastCallID == t.lastCallID && t'.lastKind == t.lastKind && t'.lastStatus == t.lastStatus
  {
  }

  lemma PhasesKnown(phase: Phase, count: int, tool: Option<Tool>)
    ensures !phase.OtherPhase? ==>
              !ToolPhase(phase, count, tool).OtherPhase? && !UpdatePhase(phase, count, tool).OtherPhase?
  {
  }

  /** Every event of the log fits the state it meets. */
  predicate AllFit(s: State, log: seq<Entry>) {
    log == [] || (AllFit(s, log[..|log| - 1]) && Fits(Run(s, log[..|log| - 1]), log[|log| - 1].event))
  }

  lemma {:induction false} RunValid(s: State, log: seq<Entry>)
    requires Valid(s) && Bounded(s.tools) && AllFit(s, log)
    ensures Valid(Run(s, log)) && Bounded(Run(s, log).tools)
  {
    hide Tick, Track, Proceed, Valid, Fits, Bounded;
    if log != [] {
      var n := |log| - 1;
      RunValid(s, log[..n]);
      TrackBounded(Run(s, log[..n]).tools, log[n].event);
      StepValidIff(Run(s, log[..n]), log[n].event, log[n].now);
    }
  }

  // ---- The object --------------------------------------------------------

  class JobProgress {
    var jobID: string
    var attempt: int
    var phase: Phase
    var lastEventKind: EventKind
    var transportAt: int
    var sessionAt: int
    var meaningfulAt: int
    var promptStartedAt: int
    var activeToolCount: int
    var lastToolCallID: string
    var lastToolKind: ToolKind
    var lastToolStatus: Status
    var toolOverflow: bool
    var pendingPermission: bool
    var stopReason: StopReason
    var errorClass: ErrorClass
    var toolStates: map<string, Status>

    ghost function Value(): State
      reads this
    {
      State(jobID, attempt, ClocksNow(), ToolsNow(), StandingNow())
    }

    ghost function ClocksNow(): Clocks
      reads this
    {
      Clocks(transportAt, sessionAt, meaningfulAt, promptStartedAt)
    }

    ghost function ToolsNow(): Tools
      reads this
    {
      Tools(activeToolCount, lastToolCallID, lastToolKind, lastToolStatus, toolOverflow, toolStates)
    }

    ghost function StandingNow(): Standing
      reads this
    {
      Standing(phase, lastEventKind, pendingPermission, stopReason, errorClass)
    }

    constructor (jobID: string, attempt: int, phase: Phase)
      ensures Value() == State(jobID, attempt, Clocks(ZERO_TIME, ZERO_TIME, ZERO_TIME, ZERO_TIME),
                               Tools(0, "", NoKind, NoStatus, false, map[]),
                                 Standing(phase, NoEvent, false, NoReason, NoClass))
    {
      this.jobID, this.attempt, this.phase, lastEventKind := jobID, attempt, phase, NoEvent;
      transportAt, sessionAt, meaningfulAt, promptStartedAt := ZERO_TIME, ZERO_TIME, ZERO_TIME, ZERO_TIME;
      activeToolCount, lastToolCallID, lastToolKind, lastToolStatus := 0, "", NoKind, NoStatus;
      toolOverflow, pendingPermission, stopReason, errorClass, toolStates := false, false, NoReason, NoClass, map[];
    }

    method Apply(event: Event, now: int)
      modifies this
      ensures Value() == Step(old(Value()), event, now)
    {
      hide Tick, Track, Proceed;
      TouchClocks(event, now);
      Dispatch(event, now);
      TickSplits(old(ClocksNow()), old(toolStates), event, now);
    }

    /** The event's own effect on phase, tools and prompt start. */
    method Dispatch(event: Event, now: int)
      modifies this
      ensures jobID == old(jobID) && attempt == old(attempt)
      ensures StandingNow() == Proceed(old(StandingNow()), event, activeToolCount)
      ensures ToolsNow() == Track(old(ToolsNow()), event)
      ensures ClocksNow() == old(ClocksNow()).(promptStartedAt := promptStartedAt)
      ensures promptStartedAt == if event.kind.PromptSent? && old(promptStartedAt) == ZERO_TIME then now
              else old(promptStartedAt)
    {
      hide ApplyTool, Proceed;
      ghost var before := StandingNow();
      if event.kind != NoEvent { lastEventKind := event.kind; }
      if event.kind == ToolCall || event.kind == ToolCallUpdate {
        ApplyToolEvent(event.tool);
        DispatchTool(event, before);
      } else {
        DispatchOther(event, now, before);
      }
    }

    method DispatchTool(event: Event, ghost before: Standing)
      requires IsToolEvent(event) && StandingNow() == before.(lastEvent := event.kind)
      modifies `phase
      ensures StandingNow() == Proceed(before, event, activeToolCount)
    {
      hide ToolPhase, UpdatePhase;
      if event.kind == ToolCall {
        phase := ToolPhaseNow(event.tool);
      } else {
        UpdatePhaseNow(event.tool);
      }
    }

    method DispatchOther(event: Event, now: int, ghost before: Standing)
      requires !IsToolEvent(event)
      requires StandingNow() == before.(lastEvent := if event.kind.NoEvent? then before.lastEvent else event.kind)
      modifies `phase, `pendingPermission, `stopReason, `errorClass, `promptStartedAt
      ensures StandingNow() == Proceed(before, event, activeToolCount)
      ensures promptStartedAt == if event.kind.PromptSent? && old(promptStartedAt) == ZERO_TIME then now
              else old(promptStartedAt)
    {
      hide ToolPhase, UpdatePhase;
      match event.kind {
        case ProcessStarted => phase := Starting;
        case InitializeResponse => phase := Starting;
        case SessionNew => phase := SessionReady;
        case PromptSent =>
          phase := AgentProcessing;
          if promptStartedAt == ZERO_TIME { promptStartedAt := now; }
        case Plan => phase := Planning;
        case PermissionRequested => pendingPermission, phase := true, WaitingPermission;
        case PermissionResponded => pendingPermission, phase := false, AgentProcessing;
        case MessageChunk => phase := Responding;
        case PromptResponse =>
          phase := match event.stopReason case EndTurn => Completed case CancelledTurn => Cancelled case _ => Failed;
          stopReason := event.stopReason;
        case ProcessFailed =>
          if phase != Completed && phase != Cancelled {
            phase := Failed;
            if event.errorClass != NoClass { errorClass := event.errorClass; }
          }
        case _ =>
      }
    }

    /** The three activity clocks; the prompt's start is set with the phase. */
    method TouchClocks(event: Event, now: int)
      modifies `transportAt, `sessionAt, `meaningfulAt
      ensures ClocksNow() == Tick(old(ClocksNow()), toolStates, event, now).(promptStartedAt := promptStartedAt)
    {
      hide IsMeaningful, IsTransport, IsSession, MaxTime;
      var meaningful := EventMeaningful(event);
      if IsTransport(event) { transportAt := MaxTime(transportAt, now); }
      if IsSession(event) { sessionAt := MaxTime(sessionAt, now); }
      if meaningful { meaningfulAt := MaxTime(meaningfulAt, now); }
    }

    method EventMeaningful(event: Event) returns (meaningful: bool)
      ensures meaningful == IsMeaningful(toolStates, event)
    {
      match event.kind {
        case ToolCall =>
          if event.tool.None? { return true; }
          var id := event.tool.value.callID;
          return id !in toolStates || toolStates[id] == Terminal;
        case ToolCallUpdate =>
          if event.tool.None? { return false; }
          var id := event.tool.value.callID;
          return id !in toolStates || toolStates[id] != event.tool.value.status;
        case UsageUpdate => return event.usageIncreased;
        case Plan => return false;
        case ConfigOptionUpdate => return false;
        case UnknownNotification => return false;
        case TransportActivity => return false;
        case NoEvent => return false;
        case OtherEvent(_) => return false;
        case _ => return true;
      }
    }

    method ApplyToolEvent(tool: Option<Tool>)
      modifies `lastToolCallID, `lastToolKind, `lastToolStatus, `toolStates, `activeToolCount, `toolOverflow
      ensures ToolsNow() == ApplyTool(old(ToolsNow()), tool)
    {
      hide Account;
      if tool.None? || tool.value.callID == "" { return; }
      var t := tool.value;
      lastToolCallID := t.callID;
      if t.kind != NoKind { lastToolKind := t.kind; }
      lastToolStatus := t.status;
      AccountFor(t.callID, t.status);
    }

    method AccountFor(id: string, status: Status)
      modifies `toolStates, `activeToolCount, `toolOverflow
      ensures ToolsNow() == Account(old(ToolsNow()), id, status)
    {
      if status == Pending || status == Running {
        if id !in toolStates && |toolStates| >= MAX_TRACKED_TOOLS {
          toolOverflow := true;
          return;
        }
        toolStates := toolStates[id := status];
      } else if status == Terminal {
        toolStates := toolStates - {id};
      }
      activeToolCount := |toolStates|;
    }

    method ToolPhaseNow(tool: Option<Tool>) returns (p: Phase)
      ensures p == ToolPhase(phase, activeToolCount, tool)
    {
      if tool.None? { return phase; }
      match tool.value.status {
        case Pending => return ToolPending;
        case Running => return ToolRunning;
        case Terminal => return if activeToolCount == 0 then AgentProcessing else ToolRunning;
        case _ => return phase;
      }
    }

    method UpdatePhaseNow(tool: Option<Tool>)
      modifies `phase
      ensures phase == UpdatePhase(old(phase), activeToolCount, tool)
    {
      if tool.None? { return; }
      match tool.value.status {
        case Running => phase := ToolRunning;
        case Terminal => if activeToolCount == 0 { phase := AgentProcessing; }
        case _ =>
      }
    }
  }

  lemma TickSplits(c: Clocks, states: map<string, Status>, e: Event, now: int)
    ensures Tick(c, states, e, now).promptStartedAt == if e.kind.PromptSent?
            && c.promptStartedAt == ZERO_TIME then now else c.promptStartedAt
  {
  }
}

/** The live projection of an external-agent job: one event at a time, and over
    whole event logs (internal/domain/external_agent_progress.go). */
module Progress {
  import opened Basics

  const MAX_TRACKED_TOOLS := 16
  const MAX_CALL_ID := 256
  const ZERO_TIME := 0

  datatype Phase =
    | Starting | SessionReady | AgentProcessing | Planning | ToolPending | WaitingPermission | ToolRunning
    | Responding | Completed | Cancelled | Failed | OtherPhase(name: string)

  datatype EventKind =
    | ProcessStarted | InitializeResponse | SessionNew | PromptSent | Plan | ToolCall | ToolCallUpdate
    | PermissionRequested | PermissionResponded | MessageChunk | ThoughtChunk | UsageUpdate | ConfigOptionUpdate
    | UnknownNotification | TransportActivity | PromptResponse | ProcessFailed | NoEvent | OtherEvent(name: string)

  datatype ErrorClass =
    | NoClass | LineTooLarge | StdoutTooLarge | ProviderFailed | ProcessExit | Timeout | NoResponse
    | OtherClass(name: string)

  datatype StopReason = NoReason | EndTurn | CancelledTurn | MaxTokens | Refusal | OtherReason(name: string)

  datatype ToolKind =
    | NoKind | Read | Edit | Delete | Move | Search | Execute | Think | Fetch | Other
    | UnknownKind(name: string)

  datatype Status = NoStatus | Pending | Running | Terminal | UnknownStatus(name: string)

  datatype Tool = Tool(callID: string, kind: ToolKind, status: Status)

  datatype Event = Event(kind: EventKind, tool: Option<Tool>, stopReason: StopReason, errorClass: ErrorClass,
    usageIncreased: bool)

  datatype Clocks = Clocks(transportAt: int, sessionAt: int, meaningfulAt: int, promptStartedAt: int)

  /** states is the in-memory status of every tracked call. */
  datatype Tools = Tools(count: int, lastCallID: string, lastKind: ToolKind, lastStatus: Status, overflow: bool,
    states: map<string, Status>)

  datatype Standing = Standing(phase: Phase, lastEvent: EventKind, pendingPermission: bool, stopReason: StopReason,
    errorClass: ErrorClass)

  datatype State = State(jobID: string, attempt: int, clocks: Clocks, tools: Tools, standing: Standing)

  // ---- Events ------------------------------------------------------------

  predicate IsTransport(e: Event) {
    !(e.kind.PromptSent? || e.kind.PermissionResponded? || e.kind.ProcessStarted? || e.kind.ProcessFailed?)
  }

  predicate IsSession(e: Event) {
    || e.kind.Plan? || e.kind.ToolCall? || e.kind.ToolCallUpdate? || e.kind.MessageChunk? || e.kind.ThoughtChunk?
    || e.kind.UsageUpdate? || e.kind.ConfigOptionUpdate? || e.kind.UnknownNotification?
  }

  predicate IsMeaningful(states: map<string, Status>, e: Event) {
    match e.kind
    case ProcessStarted | InitializeResponse | SessionNew | PromptSent | PermissionRequested | PermissionResponded
       | MessageChunk | ThoughtChunk | PromptResponse | ProcessFailed => true
    case ToolCall => e.tool.None? || e.tool.value.callID !in states || states[e.tool.value.callID].Terminal?
    case ToolCallUpdate => e.tool.Some? && (e.tool.value.callID !in states
      || states[e.tool.value.callID] != e.tool.value.status)
    case UsageUpdate => e.usageIncreased
    case _ => false
  }

  predicate IsToolEvent(e: Event) {
    e.kind.ToolCall? || e.kind.ToolCallUpdate?
  }

  function MaxTime(a: int, b: int): int {
    if a > b then a else b
  }

  predicate Active(status: Status) {
    status.Pending? || status.Running?
  }

  // ---- One event ---------------------------------------------------------

  /** The activity clocks, and the first prompt's start. */
  function Tick(c: Clocks, states: map<string, Status>, e: Event, now: int): Clocks {
    Clocks(if IsTransport(e) then MaxTime(c.transportAt, now) else c.transportAt,
           if IsSession(e) then MaxTime(c.sessionAt, now) else c.sessionAt,
           if IsMeaningful(states, e) then MaxTime(c.meaningfulAt, now) else c.meaningfulAt,
           if e.kind.PromptSent? && c.promptStartedAt == ZERO_TIME then now else c.promptStartedAt)
  }

  /** applyToolEvent. */
  function ApplyTool(t: Tools, tool: Option<Tool>): Tools {
    if tool.None? || tool.value.callID == "" then t
      else Account(Retain(t, tool.value), tool.value.callID, tool.value.status)
  }

  /** The last tool identity. */
  function Retain(t: Tools, tool: Tool): Tools {
    t.(lastCallID := tool.callID, lastKind := if tool.kind.NoKind? then t.lastKind
      else tool.kind, lastStatus := tool.status)
  }

  /** The tracked calls and their count; a new call beyond the bound is not tracked. */
  function Account(t: Tools, id: string, status: Status): Tools {
    if Active(status) && id !in t.states && |t.states| >= MAX_TRACKED_TOOLS then t.(overflow := true)
    else
      var states := if Active(status) then t.states[id := status] else if status.Terminal? then t.states - {id}
        else t.states;
      t.(states := states, count := |states|)
  }

  function Track(t: Tools, e: Event): Tools {
    if IsToolEvent(e) then ApplyTool(t, e.tool) else t
  }

  /** toolPhase, after the tool event was counted. */
  function ToolPhase(phase: Phase, count: int, tool: Option<Tool>): Phase {
    if tool.None? then phase
    else
      match tool.value.status
      case Pending => ToolPending
      case Running => ToolRunning
      case Terminal => if count == 0 then AgentProcessing else ToolRunning
      case _ => phase
  }

  function UpdatePhase(phase: Phase, count: int, tool: Option<Tool>): Phase {
    if tool.Some? && tool.value.status.Running? then ToolRunning
    else if tool.Some? && tool.value.status.Terminal? && count == 0 then AgentProcessing
    else phase
  }

  /** The phase and what belongs to it; count is the number of tracked calls after the event. */
  function Proceed(o: Standing, e: Event, count: int): Standing {
    var o := o.(lastEvent := if e.kind.NoEvent? then o.lastEvent else e.kind);
    match e.kind
    case ProcessStarted | InitializeResponse => o.(phase := Starting)
    case SessionNew => o.(phase := SessionReady)
    case PromptSent => o.(phase := AgentProcessing)
    case Plan => o.(phase := Planning)
    case ToolCall => o.(phase := ToolPhase(o.phase, count, e.tool))
    case ToolCallUpdate => o.(phase := UpdatePhase(o.phase, count, e.tool))
    case PermissionRequested => o.(pendingPermission := true, phase := WaitingPermission)
    case PermissionResponded => o.(pendingPermission := false, phase := AgentProcessing)
    case MessageChunk => o.(phase := Responding)
    case PromptResponse =>
      o.(phase := match e.stopReason case EndTurn => Completed case CancelledTurn => Cancelled case _ => Failed,
        stopReason := e.stopReason)
    case ProcessFailed =>
      if o.phase.Completed? || o.phase.Cancelled? then o
      else o.(phase := Failed, errorClass := if e.errorClass.NoClass? then o.errorClass else e.errorClass)
    case _ => o
  }

  /** Apply. */
  function Step(s: State, e: Event, now: int): State {
    var tools := Track(s.tools, e);
    s.(clocks := Tick(s.clocks, s.tools.states, e, now), tools := tools,
      standing := Proceed(s.standing, e, tools.count))
  }

  // ---- Logs --------------------------------------------------------------

  datatype Entry = Entry(event: Event, now: int)

  function Run(s: State, log: seq<Entry>): State {
    if log == [] then s
    else Step(Run(s, log[..|log| - 1]), log[|log| - 1].event, log[|log| - 1].now)
  }

  /** The call ID and status a log entry reports, when the status is known. */
  function Report(e: Event): Option<Tool> {
    if (e.kind.ToolCall? || e.kind.ToolCallUpdate?) && e.tool.Some? && e.tool.value.callID != ""
       && (Active(e.tool.value.status) || e.tool.value.status.Terminal?) then e.tool else None
  }

  /** The latest known status a log reports for a call. */
  function Latest(log: seq<Entry>, id: string): Option<Status> {
    if log == [] then None
    else
      var r := Report(log[|log| - 1].event);
      if r.Some? && r.value.callID == id then Some(r.value.status) else Latest(log[..|log| - 1], id)
  }

  /** The calls a log leaves pending or running. */
  function ActiveCalls(log: seq<Entry>): set<string> {
    if log == [] then {}
    else
      var r, before := Report(log[|log| - 1].event), ActiveCalls(log[..|log| - 1]);
      if r.None? then before
      else if Active(r.value.status) then before + {r.value.callID}
      else before - {r.value.callID}
  }

  lemma {:induction false} ActiveCallsIff(log: seq<Entry>, id: string)
    ensures id in ActiveCalls(log) <==> Latest(log, id).Some? && Active(Latest(log, id).value)
  {
    if log != [] {
      ActiveCallsIff(log[..|log| - 1], id);
    }
  }

  // ---- Tool accounting over all logs -------------------------------------

  /** The tracked calls are active, counted, and within the bound. */
  predicate Accounted(t: Tools) {
    t.count == |t.states| <= MAX_TRACKED_TOOLS && forall id | id in t.states :: Active(t.states[id])
  }

  lemma TrackAccounted(t: Tools, e: Event)
    requires Accounted(t)
    ensures Accounted(Track(t, e)) && (t.overflow ==> Track(t, e).overflow)
  {
    if IsToolEvent(e) && e.tool.Some? {
      SizeAfter(t.states, e.tool.value.callID, e.tool.value.status);
    }
  }

  lemma SizeAfter(tools: map<string, Status>, id: string, status: Status)
    ensures id in tools ==> |tools[id := status]| == |tools|
    ensures id !in tools ==> |tools[id := status]| == |tools| + 1
    ensures |tools - {id}| <= |tools|
  {
    assert tools[id := status].Keys == tools.Keys + {id};
    assert (tools - {id}).Keys == tools.Keys - {id};
    assert |tools| == |tools.Keys| && |tools[id := status]| == |tools[id := status].Keys|
           && |tools - {id}| == |(tools - {id}).Keys|;
  }

  predicate Tracks(t: Tools, log: seq<Entry>) {
    && t.states.Keys <= ActiveCalls(log) && (forall id | id in t.states :: Latest(log, id) == Some(t.states[id]))
    && (!t.overflow ==> t.states.Keys == ActiveCalls(log))
  }

  predicate NoTools(s: State) {
    s.tools.states == map[] && s.tools.count == 0 && !s.tools.overflow
  }

  /** What an event does to the tool accounting depends on its report alone. */
  lemma TrackReport(t: Tools, e: Event)
    ensures var t', r := Track(t, e), Report(e);
            && (r.None? ==> t'.states == t.states && t'.overflow == t.overflow)
            && (r.Some? ==> Reported(t, t', r.value))
  {
    hide Account, Reported;
    if IsToolEvent(e) && e.tool.Some? {
      AccountReport(Retain(t, e.tool.value), e.tool.value);
      if Report(e).Some? { ReportedSame(t, Retain(t, e.tool.value), Track(t, e), e.tool.value); }
    }
  }

  /** t' is t after a known status of one call. */
  predicate Reported(t: Tools, t': Tools, tool: Tool) {
    if Active(tool.status) && tool.callID !in t.states && |t.states| >= MAX_TRACKED_TOOLS then
      t'.states == t.states && t'.overflow
    else
      t'.overflow == t.overflow
      && t'.states == if Active(tool.status) then t.states[tool.callID := tool.status] else t.states - {tool.callID}
  }

  lemma AccountReport(t: Tools, tool: Tool)
    ensures var t' := Account(t, tool.callID, tool.status);
            if Active(tool.status) || tool.status.Terminal? then Reported(t, t', tool)
            else t'.states == t.states && t'.overflow == t.overflow
  {
  }

  lemma ReportedSame(a: Tools, b: Tools, t': Tools, tool: Tool)
    requires a.states == b.states && a.overflow == b.overflow && Reported(b, t', tool)
    ensures Reported(a, t', tool)
  {
  }

  /** From no tools, every log: the tracked calls are active with their latest
      status, all of them while nothing overflowed. */
  lemma {:induction false} RunTracks(s: State, log: seq<Entry>)
    requires NoTools(s)
    ensures Tracks(Run(s, log).tools, log) && Accounted(Run(s, log).tools)
  {
    hide Track, Report, Tick, Proceed;
    if log != [] {
      var n := |log| - 1;
      var before := Run(s, log[..n]).tools;
      RunTracks(s, log[..n]);
      TrackAccounted(before, log[n].event);
      TrackReport(before, log[n].event);
      ActiveAreKnown(log[..n]);
    }
  }

  lemma ActiveAreKnown(log: seq<Entry>)
    ensures forall id | id in ActiveCalls(log) :: Latest(log, id).Some? && Active(Latest(log, id).value)
  {
    forall id | id in ActiveCalls(log)
      ensures Latest(log, id).Some? && Active(Latest(log, id).value)
    {
      ActiveCallsIff(log, id);
    }
  }

  /** While nothing overflowed the count is exact. */
  lemma CountIsExact(s: State, log: seq<Entry>)
    requires NoTools(s)
    ensures var end := Run(s, log).tools;
            && end.count == |end.states| <= MAX_TRACKED_TOOLS && end.count <= |ActiveCalls(log)|
            && (!end.overflow ==> end.count == |ActiveCalls(log)|)
  {
    hide Step, ActiveCalls, Latest;
    RunTracks(s, log);
    var end := Run(s, log).tools;
    Subset(end.states.Keys, ActiveCalls(log));
    assert |end.states| == |end.states.Keys|;
  }

  lemma {:induction false} Subset<T>(a: set<T>, b: set<T>)
    requires a <= b
    ensures |a| <= |b|
  {
    if a != {} {
      var x :| x in a;
      Subset(a - {x}, b - {x});
    }
  }

  predicate EverTooMany(log: seq<Entry>) {
    exists n | 0 <= n <= |log| :: |ActiveCalls(log[..n])| > MAX_TRACKED_TOOLS
  }

  /** The overflow flag is set exactly when, at some moment of the log, more calls
      were active than are tracked. */
  lemma {:induction false} OverflowIff(s: State, log: seq<Entry>)
    requires NoTools(s)
    ensures Run(s, log).tools.overflow <==> EverTooMany(log)
  {
    hide Track, Report, EverTooMany, Latest, Tick, Proceed;
    if log == [] {
      NeverTooManyAtFirst(log);
    } else {
      var n := |log| - 1;
      var before := Run(s, log[..n]).tools;
      OverflowIff(s, log[..n]);
      TooManyStep(log);
      RunTracks(s, log[..n]);
      RunTracks(s, log);
      TrackReport(before, log[n].event);
      TrackAccounted(before, log[n].event);
      CountIsExact(s, log);
      assert |before.states| == |before.states.Keys|;
      var r := Report(log[n].event);
      if r.Some? && r.value.callID !in before.states && before.states.Keys == ActiveCalls(log[..n]) {
        assert |before.states.Keys + {r.value.callID}| == |before.states.Keys| + 1;
      }
    }
  }

  lemma NeverTooManyAtFirst(log: seq<Entry>)
    requires log == []
    ensures !EverTooMany(log)
  {
  }

  lemma TooManyStep(log: seq<Entry>)
    requires log != []
    ensures EverTooMany(log) <==> EverTooMany(log[..|log| - 1]) || |ActiveCalls(log)| > MAX_TRACKED_TOOLS
  {
    hide ActiveCalls;
    var front := log[..|log| - 1];
    assert forall n | 0 <= n <= |front| :: front[..n] == log[..n];
    assert log[..|log|] == log;
    if EverTooMany(front) {
      var n :| 0 <= n <= |front| && |ActiveCalls(front[..n])| > MAX_TRACKED_TOOLS;
      assert |ActiveCalls(log[..n])| > MAX_TRACKED_TOOLS;
    }
    if EverTooMany(log) {
      var n :| 0 <= n <= |log| && |ActiveCalls(log[..n])| > MAX_TRACKED_TOOLS;
      if n < |log| { assert |ActiveCalls(front[..n])| > MAX_TRACKED_TOOLS; }
    }
  }
}

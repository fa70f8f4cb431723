/** Tool calls through `src/gateway/index.ts`. A call is checked and counted in one go, then waits for
    its handler; its result is traced and logged later, so calls interleave. */
module Gateway {
  import opened Common
  import opened Canonical
  import opened Hashing
  import opened Policy
  import opened Signing
  import T = Trace

  datatype Request = Request(tool: string, input: Json, risk: RiskLevel, dataScope: Option<string>)

  /** A call whose handler is running. */
  datatype Ticket = Ticket(tool: string, inputHash: string)

  datatype Status = Succeeded | Failed

  /** What the handler came back with; an exception is an output with status `error`. */
  datatype Outcome = Outcome(status: Status, output: Json, durationMs: int)

  datatype LogEntry = LogEntry(tool: string, inputHash: string, outputHash: string, status: Status, durationMs: int)

  datatype CallError = ToolNotFound | Unauthorized | ConfirmationRequired | TraceClosed(reason: T.TraceError)

  /** Clock readings of one half of a call: seconds for the policy, milliseconds for the gateway's signature,
      texts for the trace. */
  datatype Clock = Clock(seconds: int, millis: int, ts: string, cpTs: string)

  /** An identity of the gateway's own, with which it signs what it traces. */
  datatype Signer = Signer(identity: Identity, scheme: SignatureScheme)

  datatype Setup = Setup(token: ConsentToken, tools: set<string>, defaultDataScope: Option<string>, h: HashFn,
                         trace: Option<T.Config>, signer: Option<Signer>)

  datatype Core = Core(policyCalls: int, callCount: int, callLog: seq<LogEntry>, trace: T.State)

  const FRESH_CORE := Core(0, 0, [], T.EMPTY_TRACE)

  // ---------- One call ----------

  /** Everything before the first dot, and everything after it or `*`. */
  function ParseTool(tool: string): (string, string) {
    if tool == "" then ("", "*")
    else if tool[0] == '.' then ("", if tool[1..] == "" then "*" else tool[1..])
    else var (t, r) := ParseTool(tool[1..]); ([tool[0]] + t, r)
  }

  /** The first `data:` scope of the token without its prefix, or `*`. */
  function DataScopeOf(scopes: seq<string>): string {
    if scopes == [] then "*"
    else if "data:" <= scopes[0] then scopes[0][5..]
    else DataScopeOf(scopes[1..])
  }

  function ActionOf(u: Setup, q: Request): ProposedAction {
    var (typ, resource) := ParseTool(q.tool);
    ProposedAction(typ, resource,
      if q.dataScope.Some? then q.dataScope.value
      else if u.defaultDataScope.Some? then u.defaultDataScope.value
      else DataScopeOf(u.token.scopes))
  }

  function CallMembers(q: Request, inputHash: string): seq<Member> {
    [Member("tool", Str(q.tool)), Member("input_hash", Str(inputHash))]
  }

  function ResultMembers(entry: LogEntry): seq<Member> {
    [Member("tool", Str(entry.tool)), Member("output_hash", Str(entry.outputHash)),
     Member("status", Str(if entry.status.Succeeded? then "ok" else "error")),
     Member("duration_ms", Num(entry.durationMs))]
  }

  /** `JSON.stringify` of a flat object, in the order of its properties. */
  function PlainText(ms: seq<Member>): string {
    "{" + Join(seq(|ms|, i requires 0 <= i < |ms| => Quote(ms[i].key) + ":" + Stringify(ms[i].value))) + "}"
  }

  /** What the gateway's signature covers. */
  function SignedText(ms: seq<Member>, millis: int): string {
    PlainText(ms + [Member("ts", Num(millis))])
  }

  /** The payload of a tool event; a gateway with an identity adds its DID and its signature. */
  function Payload(u: Setup, ms: seq<Member>, millis: int): Json {
    match u.signer
    case None => Obj(ms)
    case Some(g) =>
      Obj(ms + [Member("gateway_did", Str(g.identity.Did(g.scheme))),
                Member("gateway_sig", Str(g.identity.Sign(g.scheme, SignedText(ms, millis))))])
  }

  /** Up to the handler: nothing changes unless the policy allows the call. */
  ghost function Begin(u: Setup, s: Core, q: Request, c: Clock): (Core, Result<Ticket, CallError>) {
    if q.tool !in u.tools then (s, Err(ToolNotFound))
    else
      match Decide(u.token, s.policyCalls, ActionOf(u, q), q.risk, c.seconds)
      case Deny => (s, Err(Unauthorized))
      case NeedsConfirm => (s, Err(ConfirmationRequired))
      case Allow =>
        var s1 := s.(policyCalls := s.policyCalls + 1, callCount := s.callCount + 1);
        var inputHash := u.h(Stringify(q.input));
        if u.trace.None? then (s1, Ok(Ticket(q.tool, inputHash)))
        else if T.Closed(s.trace).Err? then (s1, Err(TraceClosed(T.Closed(s.trace).error)))
        else
          var data := Payload(u, CallMembers(q, inputHash), c.millis);
          (s1.(trace := T.AfterAppend(u.trace.value, s.trace, T.ToolCall, data, c.ts, c.cpTs)),
           Ok(Ticket(q.tool, inputHash)))
  }

  /** From the handler's return: the result is traced, then logged. */
  function Finish(u: Setup, s: Core, k: Ticket, o: Outcome, c: Clock): (Core, Result<LogEntry, CallError>) {
    var outputHash := u.h(Stringify(o.output));
    if u.trace.Some? && T.Closed(s.trace).Err? then (s, Err(TraceClosed(T.Closed(s.trace).error)))
    else
      var entry := LogEntry(k.tool, k.inputHash, outputHash, o.status, o.durationMs);
      (s.(callLog := s.callLog + [entry],
          trace := if u.trace.None? then s.trace
                   else T.AfterAppend(u.trace.value, s.trace, T.ToolResult,
                                      Payload(u, ResultMembers(entry), c.millis), c.ts, c.cpTs)),
       Ok(entry))
  }

  class ToolGateway {
    const setup: Setup
    const policy: PolicyEngine
    const trace: T.ExecutionTrace?
    var callCount: int
    var callLog: seq<LogEntry>

    ghost predicate Valid() {
      policy.token == setup.token && (trace == null <==> setup.trace.None?) &&
      (trace != null ==> trace.config == setup.trace.value)
    }

    ghost function Now(): Core
      reads this, policy, trace
    {
      Core(policy.callCount, callCount, callLog, if trace == null then T.EMPTY_TRACE else trace.Now())
    }

    constructor (setup: Setup, policy: PolicyEngine, trace: T.ExecutionTrace?)
      requires policy.token == setup.token && (trace == null <==> setup.trace.None?)
      requires trace != null ==> trace.config == setup.trace.value
      ensures Valid() && this.setup == setup && this.policy == policy && this.trace == trace
      ensures callCount == 0 && callLog == []
    {
      this.setup, this.policy, this.trace := setup, policy, trace;
      callCount, callLog := 0, [];
    }

    /** `callTool` up to its `await`. */
    method BeginCall(q: Request, c: Clock) returns (r: Result<Ticket, CallError>)
      requires Valid()
      modifies this, policy, trace
      ensures (Now(), r) == Begin(setup, old(Now()), q, c)
    {
      hide T.AfterAppend, Permitted, ProducesDigests;
      if q.tool !in setup.tools { return Err(ToolNotFound); }
      var decision := policy.Evaluate(ActionOf(setup, q), q.risk, c.seconds);
      match decision {
        case Deny => return Err(Unauthorized);
        case NeedsConfirm => return Err(ConfirmationRequired);
        case Allow =>
      }
      AllowedUnderLimit(setup.token, policy.callCount, ActionOf(setup, q), q.risk, c.seconds);
      var _ := policy.RecordCall();
      callCount := callCount + 1;
      var inputHash := setup.h(Stringify(q.input));
      if trace != null {
        var appended := trace.Append(T.ToolCall, Payload(setup, CallMembers(q, inputHash), c.millis), c.ts, c.cpTs);
        if appended.Err? { return Err(TraceClosed(appended.error)); }
      }
      r := Ok(Ticket(q.tool, inputHash));
    }

    /** The rest of `callTool`, with the outcome of the handler. */
    method FinishCall(k: Ticket, o: Outcome, c: Clock) returns (r: Result<LogEntry, CallError>)
      requires Valid()
      modifies this, trace
      ensures (Now(), r) == Finish(setup, old(Now()), k, o, c)
    {
      hide T.AfterAppend, ProducesDigests;
      var outputHash := setup.h(Stringify(o.output));
      var entry := LogEntry(k.tool, k.inputHash, outputHash, o.status, o.durationMs);
      if trace != null {
        var appended := trace.Append(T.ToolResult, Payload(setup, ResultMembers(entry), c.millis), c.ts, c.cpTs);
        if appended.Err? { return Err(TraceClosed(appended.error)); }
      }
      callLog := callLog + [entry];
      r := Ok(entry);
    }
  }

  lemma AllowedUnderLimit(t: ConsentToken, n: int, a: ProposedAction, risk: RiskLevel, now: int)
    requires Decide(t, n, a, risk, now) == Allow
    ensures n < t.maxCalls
  {}

  // ---------- All interleavings ----------

  /** The gateway with its outstanding calls. `refused` counts admitted calls that met a closed trace,
      `lost` those whose result did. */
  datatype World = World(core: Core, outstanding: seq<Ticket>, refused: nat, lost: nat)

  datatype Step =
    | Start(q: Request, c: Clock)
    | Complete(index: nat, o: Outcome, c: Clock)
    | UseTrace(op: T.Op)

  const FRESH_WORLD := World(FRESH_CORE, [], 0, 0)

  /** Tool events are written by the gateway only. */
  predicate Permissible(w: World, step: Step) {
    match step
    case Start(_, _) => true
    case Complete(index, _, _) => index < |w.outstanding|
    case UseTrace(op) => op.DoAppend? ==> op.typ != T.ToolCall && op.typ != T.ToolResult
  }

  ghost function Next(u: Setup, w: World, step: Step): World
    requires Permissible(w, step)
  {
    match step
    case Start(q, c) =>
      var (core, r) := Begin(u, w.core, q, c);
      (match r
       case Ok(ticket) => World(core, w.outstanding + [ticket], w.refused, w.lost)
       case Err(e) => World(core, w.outstanding, w.refused + (if e.TraceClosed? then 1 else 0), w.lost))
    case Complete(index, o, c) =>
      var (core, r) := Finish(u, w.core, w.outstanding[index], o, c);
      World(core, w.outstanding[..index] + w.outstanding[index + 1..], w.refused, w.lost + (if r.Err? then 1 else 0))
    case UseTrace(op) =>
      if u.trace.None? then w else w.(core := w.core.(trace := T.Step(u.trace.value, w.core.trace, op)))
  }

  ghost predicate IsRun(u: Setup, worlds: seq<World>, steps: seq<Step>) {
    |worlds| == |steps| + 1 && worlds[0] == FRESH_WORLD &&
    forall i :: 0 <= i < |steps| ==> Follows(u, worlds[i], steps[i], worlds[i + 1])
  }

  ghost predicate Follows(u: Setup, w: World, step: Step, w': World) {
    Permissible(w, step) && w' == Next(u, w, step)
  }

  /** The payloads of the events of one type, in order. */
  function DataOf(events: seq<T.Event>, t: T.EventType): seq<Json> {
    if events == [] then []
    else
      var e := events[|events| - 1];
      DataOf(events[..|events| - 1], t) + (if e.typ == t then [e.data] else [])
  }

  function Calls(s: Core): nat { |DataOf(s.trace.events, T.ToolCall)| }

  function Results(s: Core): seq<Json> { DataOf(s.trace.events, T.ToolResult) }

  /** A traced result says what a log entry says, signed at some moment if the gateway signs. */
  ghost predicate Tells(u: Setup, data: Json, entry: LogEntry) {
    exists millis: int :: data == Payload(u, ResultMembers(entry), millis)
  }

  /** The traced results are the log entries, in order and with their contents. */
  ghost predicate TellsLog(u: Setup, results: seq<Json>, log: seq<LogEntry>) {
    |results| == |log| && forall i :: 0 <= i < |log| ==> Tells(u, results[i], log[i])
  }

  ghost predicate Accounted(u: Setup, w: World) {
    var s := w.core;
    0 <= s.callCount == s.policyCalls <= (if u.token.maxCalls < 0 then 0 else u.token.maxCalls) &&
    if u.trace.Some?
    then TellsLog(u, Results(s), s.callLog) && Calls(s) == |s.callLog| + |w.outstanding| + w.lost &&
      s.callCount == Calls(s) + w.refused
    else Results(s) == [] && Calls(s) == 0 && s.callCount == |s.callLog| + |w.outstanding| && w.refused == w.lost == 0
  }

  lemma TellsLogPush(u: Setup, results: seq<Json>, log: seq<LogEntry>, entry: LogEntry, millis: int)
    requires TellsLog(u, results, log)
    ensures TellsLog(u, results + [Payload(u, ResultMembers(entry), millis)], log + [entry])
  {
    hide Payload, ResultMembers;
    assert Tells(u, Payload(u, ResultMembers(entry), millis), entry);
    hide Tells;
  }

  lemma {:induction false} DataPush(events: seq<T.Event>, e: T.Event, t: T.EventType)
    ensures DataOf(events + [e], t) == DataOf(events, t) + (if e.typ == t then [e.data] else [])
  {
    assert (events + [e])[..|events|] == events;
  }

  /** The trace's own statistics count the same events. */
  lemma {:induction false} CountIsLength(events: seq<T.Event>, t: T.EventType)
    ensures T.CountType(events, t) == |DataOf(events, t)|
  {
    if events != [] { CountIsLength(events[..|events| - 1], t); }
  }

  /** An append adds one event of its type, and perhaps a checkpoint. */
  lemma AppendAdds(c: T.Config, s: T.State, typ: T.EventType, data: Json, ts: string, cpTs: string, t: T.EventType)
    requires t != T.Checkpoint
    ensures DataOf(T.AfterAppend(c, s, typ, data, ts, cpTs).events, t) ==
            DataOf(s.events, t) + (if typ == t then [data] else [])
  {
    hide T.ComputeEventHash, T.CheckpointData, DataOf, ProducesDigests;
    var event := T.NewEvent(c, s, ts, typ, data, false);
    DataPush(s.events, event, t);
    var s1 := s.(events := s.events + [event], seqNo := s.seqNo + 1, sinceCheckpoint := s.sinceCheckpoint + 1);
    DataPush(s1.events, T.NewEvent(c, s1, cpTs, T.Checkpoint, T.CheckpointData(c.h, s1.events), true), t);
  }

  lemma OthersAddNothing(c: T.Config, s: T.State, op: T.Op, t: T.EventType)
    requires t == T.ToolCall || t == T.ToolResult
    requires op.DoAppend? ==> op.typ != T.ToolCall && op.typ != T.ToolResult
    ensures DataOf(T.Step(c, s, op).events, t) == DataOf(s.events, t)
  {
    hide T.AfterAppend, DataOf, T.CheckpointData, T.ComputeEventHash, ProducesDigests;
    if T.Closed(s).Ok? {
      match op
      case DoAppend(typ, data, ts, cpTs) => AppendAdds(c, s, typ, data, ts, cpTs, t);
      case DoCheckpoint(ts) =>
        DataPush(s.events, T.NewEvent(c, s, ts, T.Checkpoint, T.CheckpointData(c.h, s.events), true), t);
      case DoFinalize(data, ts, cpTs) => AppendAdds(c, s, T.TaskResult, data, ts, cpTs, t);
      case DoFail(data, ts, cpTs) => AppendAdds(c, s, T.TaskFailed, data, ts, cpTs, t);
    }
  }

  lemma StepKeepsAccounts(u: Setup, w: World, step: Step)
    requires Permissible(w, step) && Accounted(u, w)
    ensures Accounted(u, Next(u, w, step))
  {
    hide T.AfterAppend, DataOf, Payload, CallMembers, ResultMembers, TellsLog, T.Step, ProducesDigests, Stringify;
    match step
    case Start(q, c) =>
      if u.trace.Some? {
        var data := Payload(u, CallMembers(q, u.h(Stringify(q.input))), c.millis);
        AppendAdds(u.trace.value, w.core.trace, T.ToolCall, data, c.ts, c.cpTs, T.ToolCall);
        AppendAdds(u.trace.value, w.core.trace, T.ToolCall, data, c.ts, c.cpTs, T.ToolResult);
        assert Results(w.core) + [] == Results(w.core);
      }
    case Complete(index, o, c) =>
      if u.trace.Some? {
        var k := w.outstanding[index];
        var entry := LogEntry(k.tool, k.inputHash, u.h(Stringify(o.output)), o.status, o.durationMs);
        var data := Payload(u, ResultMembers(entry), c.millis);
        AppendAdds(u.trace.value, w.core.trace, T.ToolResult, data, c.ts, c.cpTs, T.ToolCall);
        AppendAdds(u.trace.value, w.core.trace, T.ToolResult, data, c.ts, c.cpTs, T.ToolResult);
        TellsLogPush(u, Results(w.core), w.core.callLog, entry, c.millis);
      }
    case UseTrace(op) =>
      if u.trace.Some? {
        OthersAddNothing(u.trace.value, w.core.trace, op, T.ToolCall);
        OthersAddNothing(u.trace.value, w.core.trace, op, T.ToolResult);
      }
  }

  lemma {:induction false} RunAccounted(u: Setup, worlds: seq<World>, steps: seq<Step>, i: nat)
    requires IsRun(u, worlds, steps) && i < |worlds|
    ensures Accounted(u, worlds[i])
  {
    hide Next, Permissible;
    if i == 0 {
    } else {
      RunAccounted(u, worlds, steps, i - 1);
      assert Follows(u, worlds[i - 1], steps[i - 1], worlds[i]);
      StepKeepsAccounts(u, worlds[i - 1], steps[i - 1]);
    }
  }

  /** Main result: in every interleaving the books balance. The traced results are the log entries, in
      order and with their contents; every traced call is logged, outstanding or lost to a closed trace;
      every counted call is traced or was refused by a closed trace; the consent limit holds with nothing
      unaccounted for; and the trace's own statistics show the same numbers. */
  lemma ToolCallsAccounted(u: Setup, worlds: seq<World>, steps: seq<Step>, i: nat)
    requires IsRun(u, worlds, steps) && i < |worlds| && u.trace.Some? && u.token.maxCalls >= 0
    ensures var w := worlds[i];
            TellsLog(u, Results(w.core), w.core.callLog) &&
            |w.core.callLog| <= Calls(w.core) <= w.core.callCount == w.core.policyCalls <= u.token.maxCalls &&
            Calls(w.core) == |w.core.callLog| + |w.outstanding| + w.lost &&
            w.core.callCount == Calls(w.core) + w.refused &&
            Remaining(u.token, w.core.policyCalls) + w.core.callCount == u.token.maxCalls &&
            T.CountType(w.core.trace.events, T.ToolCall) == Calls(w.core) &&
            T.CountType(w.core.trace.events, T.ToolResult) == |w.core.callLog|
  {
    hide IsRun;
    RunAccounted(u, worlds, steps, i);
    CountIsLength(worlds[i].core.trace.events, T.ToolCall);
    CountIsLength(worlds[i].core.trace.events, T.ToolResult);
  }

  /** With an identity, every traced result ends with a signature that verifies under the gateway's own key
      for what the log says about the call and a moment in time. */
  lemma ResultsSigned(u: Setup, worlds: seq<World>, steps: seq<Step>, i: nat, j: nat)
    requires IsRun(u, worlds, steps) && i < |worlds| && u.trace.Some? && u.signer.Some?
    requires j < |worlds[i].core.callLog|
    ensures j < |Results(worlds[i].core)| && Results(worlds[i].core)[j].Obj?
    ensures var g, entry, ms := u.signer.value, worlds[i].core.callLog[j], Results(worlds[i].core)[j].members;
            |ms| == 6 && ms[5].key == "gateway_sig" && ms[5].value.Str? &&
            exists millis ::
              g.identity.Verify(g.scheme, SignedText(ResultMembers(entry), millis), ms[5].value.s)
  {
    hide IsRun;
    RunAccounted(u, worlds, steps, i);
    var entry := worlds[i].core.callLog[j];
    hide Results, SignedText;
    assert Tells(u, Results(worlds[i].core)[j], entry);
    var millis: int :| Results(worlds[i].core)[j] == Payload(u, ResultMembers(entry), millis);
    var g := u.signer.value;
    assert g.identity.Verify(g.scheme, SignedText(ResultMembers(entry), millis),
                             g.identity.Sign(g.scheme, SignedText(ResultMembers(entry), millis)));
  }
}

/** The execution trace of `src/trace/index.ts`: an append-only log in which every event carries the
    hash of the one before, with automatic signed checkpoints and two terminal states. */
module Trace {
  import opened Common
  import opened Canonical
  import opened Hashing
  import opened Merkle
  import opened Sequences
  import opened Signing

  datatype EventType =
    | TaskAccepted | ToolCall | ToolResult | PolicyCheck | PolicyViolation
    | Checkpoint | TaskResult | TaskFailed | Rollback | ThinkingChain

  datatype Event = Event(
    seqNo: int, ts: string, typ: EventType, taskId: string, data: Json,
    prev: string, hash: string, sig: Option<string>)

  datatype TraceError = AlreadyFinalized | AlreadyFailed

  /** What is fixed when a trace is created. */
  datatype Config = Config(h: HashFn, scheme: SignatureScheme, identity: Identity, taskId: string, interval: int)

  datatype State = State(events: seq<Event>, seqNo: nat, finalized: bool, failed: bool, sinceCheckpoint: nat)

  const GENESIS_PREV := "0x00"

  function TypeName(t: EventType): string {
    match t
    case TaskAccepted => "TASK_ACCEPTED"
    case ToolCall => "TOOL_CALL"
    case ToolResult => "TOOL_RESULT"
    case PolicyCheck => "POLICY_CHECK"
    case PolicyViolation => "POLICY_VIOLATION"
    case Checkpoint => "CHECKPOINT"
    case TaskResult => "TASK_RESULT"
    case TaskFailed => "TASK_FAILED"
    case Rollback => "ROLLBACK"
    case ThinkingChain => "THINKING_CHAIN"
  }

  // ---------- Event hashes ----------

  function Preimage(seqNo: int, ts: string, typ: EventType, dataHash: string, prev: string): string {
    IntText(seqNo) + "|" + ts + "|" + TypeName(typ) + "|" + dataHash + "|" + prev
  }

  function ComputeEventHash(h: HashFn, seqNo: int, ts: string, typ: EventType, data: Json, prev: string): string {
    h(Preimage(seqNo, ts, typ, h(Stringify(data)), prev))
  }

  function Rehash(h: HashFn, e: Event): string {
    ComputeEventHash(h, e.seqNo, e.ts, e.typ, e.data, e.prev)
  }

  function Hashes(events: seq<Event>): seq<string> {
    seq(|events|, i requires 0 <= i < |events| => events[i].hash)
  }

  function LastHash(events: seq<Event>): string {
    if events == [] then GENESIS_PREV else events[|events| - 1].hash
  }

  function CountType(events: seq<Event>, t: EventType): nat {
    if events == [] then 0
    else CountType(events[..|events| - 1], t) + (if events[|events| - 1].typ == t then 1 else 0)
  }

  // ---------- Steps ----------

  /** The root stored in checkpoints; the tree of `Merkle` has no value for the empty log. */
  function CheckpointRoot(h: HashFn, leaves: seq<string>): string {
    if leaves == [] then h("empty") else MerkleRoot(h, leaves)
  }

  function CheckpointData(h: HashFn, events: seq<Event>): Json {
    Obj([Member("merkle_root", Str(CheckpointRoot(h, Hashes(events)))),
         Member("event_count", Num(|events|)),
         Member("tool_calls", Num(CountType(events, ToolCall))),
         Member("last_hash", Str(LastHash(events)))])
  }

  function NewEvent(c: Config, s: State, ts: string, typ: EventType, data: Json, signed: bool): Event {
    var prev := LastHash(s.events);
    var hash := ComputeEventHash(c.h, s.seqNo, ts, typ, data, prev);
    Event(s.seqNo, ts, typ, c.taskId, data, prev, hash, if signed then Some(c.identity.Sign(c.scheme, hash)) else None)
  }

  const EMPTY_TRACE := State([], 0, false, false, 0)

  function Closed(s: State): Result<(), TraceError> {
    if s.finalized then Err(AlreadyFinalized) else if s.failed then Err(AlreadyFailed) else Ok(())
  }

  function AfterCheckpoint(c: Config, s: State, ts: string): State {
    var event := NewEvent(c, s, ts, Checkpoint, CheckpointData(c.h, s.events), true);
    s.(events := s.events + [event], seqNo := s.seqNo + 1, sinceCheckpoint := 0)
  }

  function AfterAppend(c: Config, s: State, typ: EventType, data: Json, ts: string, cpTs: string): State {
    var event := NewEvent(c, s, ts, typ, data, false);
    var s1 := s.(events := s.events + [event], seqNo := s.seqNo + 1, sinceCheckpoint := s.sinceCheckpoint + 1);
    if typ != Checkpoint && s1.sinceCheckpoint >= c.interval then AfterCheckpoint(c, s1, cpTs) else s1
  }

  /** A call on a trace. `ts` and `cpTs` are the clock readings of the event itself and of the
      checkpoint it may trigger. */
  datatype Op =
    | DoAppend(typ: EventType, data: Json, ts: string, cpTs: string)
    | DoCheckpoint(ts: string)
    | DoFinalize(data: Json, ts: string, cpTs: string)
    | DoFail(data: Json, ts: string, cpTs: string)

  /** The state after a call; a call that throws leaves it as it was. */
  function Step(c: Config, s: State, op: Op): State {
    if Closed(s).Err? then s else
    match op
    case DoAppend(typ, data, ts, cpTs) => AfterAppend(c, s, typ, data, ts, cpTs)
    case DoCheckpoint(ts) => AfterCheckpoint(c, s, ts)
    case DoFinalize(data, ts, cpTs) => AfterAppend(c, s, TaskResult, data, ts, cpTs).(finalized := true)
    case DoFail(data, ts, cpTs) => AfterAppend(c, s, TaskFailed, data, ts, cpTs).(failed := true)
  }

  function Run(c: Config, ops: seq<Op>): State {
    if ops == [] then EMPTY_TRACE else Step(c, Run(c, ops[..|ops| - 1]), ops[|ops| - 1])
  }

  // ---------- Integrity ----------

  datatype Finding = PrevMismatch(seqNo: int) | HashMismatch(seqNo: int) | BadSignature(seqNo: int)

  predicate Linked(events: seq<Event>, i: nat)
    requires i < |events|
  {
    events[i].prev == if i == 0 then GENESIS_PREV else events[i - 1].hash
  }

  predicate NeedsSignatureCheck(e: Event) {
    e.typ == Checkpoint && e.sig.Some? && e.sig.value != ""
  }

  predicate SignatureFine(c: Config, e: Event) {
    NeedsSignatureCheck(e) ==> c.identity.Verify(c.scheme, e.hash, e.sig.value)
  }

  predicate ChainedAt(h: HashFn, events: seq<Event>, i: nat)
    requires i < |events|
  {
    Linked(events, i) && events[i].hash == Rehash(h, events[i])
  }

  predicate FineAt(c: Config, events: seq<Event>, i: nat)
    requires i < |events|
  {
    ChainedAt(c.h, events, i) && SignatureFine(c, events[i])
  }

  /** The hash chain is unbroken. */
  ghost predicate Chained(h: HashFn, events: seq<Event>) {
    forall i :: 0 <= i < |events| ==> ChainedAt(h, events, i)
  }

  /** The chain is unbroken and every checkpoint signature verifies. */
  ghost predicate Intact(c: Config, events: seq<Event>) {
    forall i :: 0 <= i < |events| ==> FineAt(c, events, i)
  }

  lemma IntactChained(c: Config, events: seq<Event>)
    ensures Intact(c, events) <==>
            Chained(c.h, events) && forall i :: 0 <= i < |events| ==> SignatureFine(c, events[i])
  {
    hide Linked, Rehash, SignatureFine;
    if Intact(c, events) {
      forall i | 0 <= i < |events| ensures ChainedAt(c.h, events, i) && SignatureFine(c, events[i]) {
        assert FineAt(c, events, i);
      }
    }
    if Chained(c.h, events) && forall i :: 0 <= i < |events| ==> SignatureFine(c, events[i]) {
      forall i | 0 <= i < |events| ensures FineAt(c, events, i) {
        assert ChainedAt(c.h, events, i);
      }
    }
  }

  function FindingsAt(c: Config, events: seq<Event>, i: nat): seq<Finding>
    requires i < |events|
  {
    (if Linked(events, i) then [] else [PrevMismatch(events[i].seqNo)]) +
    (if events[i].hash == Rehash(c.h, events[i]) then [] else [HashMismatch(events[i].seqNo)]) +
    (if SignatureFine(c, events[i]) then [] else [BadSignature(events[i].seqNo)])
  }

  function Findings(c: Config, events: seq<Event>, n: nat): seq<Finding>
    requires n <= |events|
  {
    if n == 0 then [] else Findings(c, events, n - 1) + FindingsAt(c, events, n - 1)
  }

  lemma {:induction false} NoFindingsMeansFine(c: Config, events: seq<Event>, n: nat)
    requires n <= |events|
    ensures Findings(c, events, n) == [] <==> forall i :: 0 <= i < n ==> FineAt(c, events, i)
  {
    hide Rehash, Linked, SignatureFine, ProducesDigests, Lawful;
    if n > 0 {
      NoFindingsMeansFine(c, events, n - 1);
      assert FineAt(c, events, n - 1) <==> FindingsAt(c, events, n - 1) == [];
    }
  }

  // ---------- The class ----------

  class ExecutionTrace {
    const config: Config
    var events: seq<Event>
    var seqNo: nat
    var finalized: bool
    var failed: bool
    var sinceCheckpoint: nat

    ghost function Now(): State
      reads this
    {
      State(events, seqNo, finalized, failed, sinceCheckpoint)
    }

    constructor (config: Config)
      ensures this.config == config && Now() == EMPTY_TRACE
    {
      this.config := config;
      events, seqNo, finalized, failed, sinceCheckpoint := [], 0, false, false, 0;
    }

    /** The second Merkle implementation of the repository, used for checkpoints only. */
    method SimpleMerkleRoot(leaves: seq<string>) returns (root: string)
      ensures root == CheckpointRoot(config.h, leaves)
    {
      hide ProducesDigests, Lawful;
      if |leaves| == 0 { return config.h("empty"); }
      if |leaves| == 1 { return leaves[0]; }
      var layer := leaves;
      while |layer| > 1
        invariant layer != [] && MerkleRoot(config.h, layer) == MerkleRoot(config.h, leaves)
        decreases |layer|
      {
        var next: seq<string> := [];
        var i := 0;
        while i < |layer|
          invariant i % 2 == 0 && 0 <= i <= |layer| + 1 && |next| == i / 2
          invariant forall j :: 0 <= j < |next| ==> next[j] == config.h(PairText(layer, j))
        {
          assert PairText(layer, i / 2) == layer[i] + (if i + 1 < |layer| then layer[i + 1] else layer[i]);
          if i + 1 < |layer| {
            next := next + [config.h(layer[i] + layer[i + 1])];
          } else {
            next := next + [config.h(layer[i] + layer[i])];
          }
          i := i + 2;
        }
        assert next == NextLayer(config.h, layer);
        layer := next;
      }
      root := layer[0];
    }

    method CountToolCalls() returns (n: nat)
      ensures n == CountType(events, ToolCall)
    {
      n := 0;
      for i := 0 to |events|
        invariant n == CountType(events[..i], ToolCall)
      {
        assert events[..i + 1][..i] == events[..i];
        if events[i].typ == ToolCall { n := n + 1; }
      }
      assert events[..|events|] == events;
    }

    method AddCheckpoint(ts: string) returns (r: Result<Event, TraceError>)
      modifies this
      ensures old(Closed(Now())).Err? ==> r == Err(old(Closed(Now())).error) && Now() == old(Now())
      ensures old(Closed(Now())).Ok? ==>
                Now() == old(AfterCheckpoint(config, Now(), ts)) && r == Ok(events[|events| - 1])
    {
      hide ComputeEventHash, ProducesDigests, Lawful;
      if finalized { return Err(AlreadyFinalized); }
      if failed { return Err(AlreadyFailed); }
      var eventHashes := seq(|events|, i requires 0 <= i < |events| reads this => events[i].hash);
      assert eventHashes == Hashes(events);
      var merkleRoot := SimpleMerkleRoot(eventHashes);
      var toolCalls := CountToolCalls();
      var data := Obj([Member("merkle_root", Str(merkleRoot)), Member("event_count", Num(|events|)),
                       Member("tool_calls", Num(toolCalls)), Member("last_hash", Str(LastHash(events)))]);
      var prev := LastHash(events);
      var hash := ComputeEventHash(config.h, seqNo, ts, Checkpoint, data, prev);
      var sig := config.identity.Sign(config.scheme, hash);
      var event := Event(seqNo, ts, Checkpoint, config.taskId, data, prev, hash, Some(sig));
      events := events + [event];
      seqNo := seqNo + 1;
      sinceCheckpoint := 0;
      r := Ok(event);
    }

    method Append(typ: EventType, data: Json, ts: string, cpTs: string) returns (r: Result<Event, TraceError>)
      modifies this
      ensures old(Closed(Now())).Err? ==> r == Err(old(Closed(Now())).error) && Now() == old(Now())
      ensures old(Closed(Now())).Ok? ==>
                Now() == old(AfterAppend(config, Now(), typ, data, ts, cpTs)) &&
                |old(events)| < |events| && r == Ok(events[|old(events)|])
    {
      hide ComputeEventHash, CheckpointData, ProducesDigests, Lawful;
      if finalized { return Err(AlreadyFinalized); }
      if failed { return Err(AlreadyFailed); }
      var prev := LastHash(events);
      var hash := ComputeEventHash(config.h, seqNo, ts, typ, data, prev);
      var event := Event(seqNo, ts, typ, config.taskId, data, prev, hash, None);
      events := events + [event];
      seqNo := seqNo + 1;
      sinceCheckpoint := sinceCheckpoint + 1;
      if typ != Checkpoint && sinceCheckpoint >= config.interval {
        var _ := AddCheckpoint(cpTs);
      }
      r := Ok(event);
    }

    method Finalize(result: Json, ts: string, cpTs: string) returns (r: Result<string, TraceError>)
      modifies this
      ensures Now() == old(Step(config, Now(), DoFinalize(result, ts, cpTs)))
      ensures old(Closed(Now())).Err? ==> r == Err(old(Closed(Now())).error)
      ensures old(Closed(Now())).Ok? ==> |old(events)| < |events| && r == Ok(events[|old(events)|].hash)
    {
      hide AfterAppend, ProducesDigests, Lawful;
      if finalized { return Err(AlreadyFinalized); }
      if failed { return Err(AlreadyFailed); }
      var event := Append(TaskResult, result, ts, cpTs);
      finalized := true;
      r := Ok(event.value.hash);
    }

    method Fail(error: Json, ts: string, cpTs: string) returns (r: Result<Event, TraceError>)
      modifies this
      ensures Now() == old(Step(config, Now(), DoFail(error, ts, cpTs)))
      ensures old(Closed(Now())).Err? ==> r == Err(old(Closed(Now())).error)
      ensures old(Closed(Now())).Ok? ==> |old(events)| < |events| && r == Ok(events[|old(events)|])
    {
      hide AfterAppend, ProducesDigests, Lawful;
      if finalized { return Err(AlreadyFinalized); }
      if failed { return Err(AlreadyFailed); }
      r := Append(TaskFailed, error, ts, cpTs);
      failed := true;
    }

    /** The checks on one event, in the order in which they are reported. */
    method CheckEvent(i: nat) returns (found: seq<Finding>)
      requires i < |events|
      ensures found == FindingsAt(config, events, i)
    {
      hide ComputeEventHash, ProducesDigests, Lawful;
      found := [];
      var event := events[i];
      var expectedPrev := if i == 0 then GENESIS_PREV else events[i - 1].hash;
      if event.prev != expectedPrev { found := found + [PrevMismatch(event.seqNo)]; }
      var recomputed := ComputeEventHash(config.h, event.seqNo, event.ts, event.typ, event.data, event.prev);
      if recomputed != event.hash { found := found + [HashMismatch(event.seqNo)]; }
      if NeedsSignatureCheck(event) {
        var sigValid := config.identity.Verify(config.scheme, event.hash, event.sig.value);
        if !sigValid { found := found + [BadSignature(event.seqNo)]; }
      }
    }

    /** `errors` lists every broken link, hash and signature in order. */
    method Verify() returns (valid: bool, errors: seq<Finding>)
      ensures errors == Findings(config, events, |events|)
      ensures valid <==> Intact(config, events)
    {
      hide FindingsAt, FineAt, ProducesDigests, Lawful;
      errors := [];
      for i := 0 to |events|
        invariant errors == Findings(config, events, i)
      {
        var found := CheckEvent(i);
        errors := errors + found;
      }
      NoFindingsMeansFine(config, events, |events|);
      valid := |errors| == 0;
    }
  }

  // ---------- Invariants over every run ----------

  ghost predicate Numbered(c: Config, s: State) {
    s.seqNo == |s.events| &&
    forall i :: 0 <= i < |s.events| ==> s.events[i].seqNo == i && s.events[i].taskId == c.taskId
  }

  lemma NewEventFine(c: Config, s: State, ts: string, typ: EventType, data: Json, signed: bool)
    ensures var event := NewEvent(c, s, ts, typ, data, signed);
            event.prev == LastHash(s.events) && event.hash == Rehash(c.h, event) && SignatureFine(c, event)
  {
    hide ComputeEventHash, ProducesDigests;
    var event := NewEvent(c, s, ts, typ, data, signed);
    assert signed ==> c.identity.Verify(c.scheme, event.hash, c.identity.Sign(c.scheme, event.hash));
  }

  lemma PushKeepsIntact(c: Config, s: State, ts: string, typ: EventType, data: Json, signed: bool)
    requires Intact(c, s.events)
    ensures Intact(c, s.events + [NewEvent(c, s, ts, typ, data, signed)])
  {
    hide NewEvent, Rehash, SignatureFine, ProducesDigests, Lawful;
    NewEventFine(c, s, ts, typ, data, signed);
    var more := s.events + [NewEvent(c, s, ts, typ, data, signed)];
    forall i | 0 <= i < |more| ensures FineAt(c, more, i) {
      assert i < |s.events| ==> FineAt(c, s.events, i);
    }
  }

  /** Whatever is appended, checkpointed, finalized or failed, in whatever order, sequence numbers
      equal positions and the chain verifies. */
  lemma {:induction false} EveryRunVerifies(c: Config, ops: seq<Op>)
    ensures Numbered(c, Run(c, ops)) && Intact(c, Run(c, ops).events)
    ensures Findings(c, Run(c, ops).events, |Run(c, ops).events|) == []
  {
    if ops != [] {
      EveryRunVerifies(c, ops[..|ops| - 1]);
      StepKeepsIntact(c, Run(c, ops[..|ops| - 1]), ops[|ops| - 1]);
    }
    NoFindingsMeansFine(c, Run(c, ops).events, |Run(c, ops).events|);
  }

  lemma StepKeepsIntact(c: Config, s: State, op: Op)
    requires Numbered(c, s) && Intact(c, s.events)
    ensures Numbered(c, Step(c, s, op)) && Intact(c, Step(c, s, op).events)
  {
    hide AfterAppend, Intact, CheckpointData, ComputeEventHash, ProducesDigests, Lawful;
    if Closed(s).Ok? {
      match op
      case DoAppend(typ, data, ts, cpTs) => AppendKeepsIntact(c, s, typ, data, ts, cpTs);
      case DoCheckpoint(ts) => PushKeepsIntact(c, s, ts, Checkpoint, CheckpointData(c.h, s.events), true);
      case DoFinalize(data, ts, cpTs) => AppendKeepsIntact(c, s, TaskResult, data, ts, cpTs);
      case DoFail(data, ts, cpTs) => AppendKeepsIntact(c, s, TaskFailed, data, ts, cpTs);
    }
  }

  lemma AppendKeepsIntact(c: Config, s: State, typ: EventType, data: Json, ts: string, cpTs: string)
    requires Numbered(c, s) && Intact(c, s.events)
    ensures Numbered(c, AfterAppend(c, s, typ, data, ts, cpTs)) &&
            Intact(c, AfterAppend(c, s, typ, data, ts, cpTs).events)
  {
    hide Intact, ComputeEventHash, CheckpointData, Stringify, ProducesDigests, Lawful;
    PushKeepsIntact(c, s, ts, typ, data, false);
    var event := NewEvent(c, s, ts, typ, data, false);
    var s1 := s.(events := s.events + [event], seqNo := s.seqNo + 1, sinceCheckpoint := s.sinceCheckpoint + 1);
    PushKeepsIntact(c, s1, cpTs, Checkpoint, CheckpointData(c.h, s1.events), true);
  }

  predicate IsTerminal(t: EventType) {
    t == TaskResult || t == TaskFailed
  }

  /** Calls that leave checkpoints and terminal events to the methods made for them. */
  predicate Ordinary(op: Op) {
    op.DoAppend? ==> op.typ != Checkpoint && !IsTerminal(op.typ)
  }

  /** Number of events after the last checkpoint. */
  function Trailing(events: seq<Event>): nat {
    if events == [] || events[|events| - 1].typ == Checkpoint then 0 else 1 + Trailing(events[..|events| - 1])
  }

  /** A checkpoint records, and signs, exactly the log before it. */
  ghost predicate FaithfulCheckpoints(c: Config, events: seq<Event>) {
    forall k :: 0 <= k < |events| && events[k].typ == Checkpoint ==>
      events[k].data == CheckpointData(c.h, events[..k]) &&
      events[k].sig == Some(c.identity.Sign(c.scheme, events[k].hash))
  }

  ghost predicate NoTerminal(events: seq<Event>) {
    forall i :: 0 <= i < |events| ==> !IsTerminal(events[i].typ)
  }

  /** The one terminal event is the last, or has exactly one checkpoint after it. */
  ghost predicate TerminalPlaced(s: State) {
    var n := |s.events|;
    if !s.finalized && !s.failed then NoTerminal(s.events)
    else
      var t := if s.finalized then TaskResult else TaskFailed;
      s.finalized != s.failed &&
      ((n >= 1 && s.events[n - 1].typ == t && NoTerminal(s.events[..n - 1])) ||
       (n >= 2 && s.events[n - 1].typ == Checkpoint && s.events[n - 2].typ == t && NoTerminal(s.events[..n - 2])))
  }

  ghost predicate WellKept(c: Config, s: State) {
    Numbered(c, s) && FaithfulCheckpoints(c, s.events) && TerminalPlaced(s) &&
    s.sinceCheckpoint == Trailing(s.events) < c.interval
  }

  lemma PushKeepsCheckpoints(c: Config, events: seq<Event>, event: Event)
    requires FaithfulCheckpoints(c, events)
    requires event.typ == Checkpoint ==>
               event.data == CheckpointData(c.h, events) && event.sig == Some(c.identity.Sign(c.scheme, event.hash))
    ensures FaithfulCheckpoints(c, events + [event])
  {
    var more := events + [event];
    forall k | 0 <= k < |more| && more[k].typ == Checkpoint
      ensures more[k].data == CheckpointData(c.h, more[..k]) &&
              more[k].sig == Some(c.identity.Sign(c.scheme, more[k].hash))
    {
      assert more[..k] == events[..k];
      if k == |events| { assert events[..k] == events; }
    }
  }

  lemma AppendKeepsWell(c: Config, s: State, typ: EventType, data: Json, ts: string, cpTs: string)
    requires c.interval >= 1 && WellKept(c, s) && typ != Checkpoint && NoTerminal(s.events)
    ensures var s' := AfterAppend(c, s, typ, data, ts, cpTs);
            Numbered(c, s') && FaithfulCheckpoints(c, s'.events) &&
              s'.sinceCheckpoint == Trailing(s'.events) < c.interval
    ensures var s', n := AfterAppend(c, s, typ, data, ts, cpTs), |s.events|;
            s'.finalized == s.finalized && s'.failed == s.failed && n < |s'.events| <= n + 2 &&
            s'.events[..n] == s.events && s'.events[n].typ == typ &&
            (|s'.events| == n + 2 ==> s'.events[n + 1].typ == Checkpoint)
  {
    hide ComputeEventHash, CheckpointData, ProducesDigests, Lawful;
    var event := NewEvent(c, s, ts, typ, data, false);
    PushKeepsCheckpoints(c, s.events, event);
    assert (s.events + [event])[..|s.events|] == s.events;
    var s1 := s.(events := s.events + [event], seqNo := s.seqNo + 1, sinceCheckpoint := s.sinceCheckpoint + 1);
    assert s1.events[..|s.events|] == s.events;
    PushKeepsCheckpoints(c, s1.events, NewEvent(c, s1, cpTs, Checkpoint, CheckpointData(c.h, s1.events), true));
  }

  /** The terminal event is appended to an open log, then the flag is set. */
  lemma ClosingKeepsWell(c: Config, s: State, success: bool, data: Json, ts: string, cpTs: string)
    requires c.interval >= 1 && WellKept(c, s) && NoTerminal(s.events) && !s.finalized && !s.failed
    ensures var s' := AfterAppend(c, s, if success then TaskResult else TaskFailed, data, ts, cpTs);
            WellKept(c, if success then s'.(finalized := true) else s'.(failed := true))
  {
    hide AfterAppend, CheckpointData;
    var t := if success then TaskResult else TaskFailed;
    AppendKeepsWell(c, s, t, data, ts, cpTs);
    var s', n := AfterAppend(c, s, t, data, ts, cpTs), |s.events|;
    assert s'.events[..n] == s.events;
  }

  lemma StepKeepsWell(c: Config, s: State, op: Op)
    requires c.interval >= 1 && Ordinary(op) && WellKept(c, s)
    ensures WellKept(c, Step(c, s, op))
  {
    hide ComputeEventHash, CheckpointData, AfterAppend, ProducesDigests, Lawful;
    if Closed(s).Ok? {
      match op
      case DoAppend(typ, data, ts, cpTs) => OrdinaryAppendKeepsWell(c, s, typ, data, ts, cpTs);
      case DoCheckpoint(ts) =>
        PushKeepsCheckpoints(c, s.events, NewEvent(c, s, ts, Checkpoint, CheckpointData(c.h, s.events), true));
      case DoFinalize(data, ts, cpTs) => ClosingKeepsWell(c, s, true, data, ts, cpTs);
      case DoFail(data, ts, cpTs) => ClosingKeepsWell(c, s, false, data, ts, cpTs);
    }
  }

  lemma OrdinaryAppendKeepsWell(c: Config, s: State, typ: EventType, data: Json, ts: string, cpTs: string)
    requires c.interval >= 1 && WellKept(c, s) && !s.finalized && !s.failed
    requires typ != Checkpoint && !IsTerminal(typ)
    ensures WellKept(c, AfterAppend(c, s, typ, data, ts, cpTs))
  {
    hide AfterAppend, CheckpointData;
    AppendKeepsWell(c, s, typ, data, ts, cpTs);
    var s', n := AfterAppend(c, s, typ, data, ts, cpTs), |s.events|;
    assert forall i :: 0 <= i < n ==> s'.events[i] == s'.events[..n][i] == s.events[i];
  }

  /** Over every run of ordinary calls: checkpoints are faithful and at most `interval` apart, and a
      terminal event closes the log. */
  lemma {:induction false} EveryRunWellKept(c: Config, ops: seq<Op>)
    requires c.interval >= 1 && forall i :: 0 <= i < |ops| ==> Ordinary(ops[i])
    ensures WellKept(c, Run(c, ops))
  {
    if ops != [] {
      EveryRunWellKept(c, ops[..|ops| - 1]);
      StepKeepsWell(c, Run(c, ops[..|ops| - 1]), ops[|ops| - 1]);
    }
  }

  // ---------- What an event hash binds ----------

  lemma TypeNameInjective(s: EventType, t: EventType)
    requires TypeName(s) == TypeName(t)
    ensures s == t
  {
    assert |TypeName(s)| == |TypeName(t)|;
    assert TypeName(s)[5] == TypeName(t)[5] && TypeName(s)[0] == TypeName(t)[0];
  }

  lemma TypeNameBarFree(t: EventType)
    ensures Free('|', TypeName(t))
  {}

  /** The bar-separated text names its five parts; the timestamp may be any string. */
  lemma PreimageInjective(s1: int, ts1: string, t1: EventType, d1: string, p1: string,
                          s2: int, ts2: string, t2: EventType, d2: string, p2: string)
    requires Free('|', d1) && Free('|', p1) && Free('|', d2) && Free('|', p2)
    requires Preimage(s1, ts1, t1, d1, p1) == Preimage(s2, ts2, t2, d2, p2)
    ensures s1 == s2 && ts1 == ts2 && t1 == t2 && d1 == d2 && p1 == p2
  {
    hide TypeName;
    var a1, a2 := IntText(s1) + "|" + ts1, IntText(s2) + "|" + ts2;
    TypeNameBarFree(t1);
    TypeNameBarFree(t2);
    LastSeparatorSplits('|', a1 + "|" + TypeName(t1) + "|" + d1, p1, a2 + "|" + TypeName(t2) + "|" + d2, p2);
    LastSeparatorSplits('|', a1 + "|" + TypeName(t1), d1, a2 + "|" + TypeName(t2), d2);
    LastSeparatorSplits('|', a1, TypeName(t1), a2, TypeName(t2));
    TypeNameInjective(t1, t2);
    IntTextShape(s1);
    IntTextShape(s2);
    assert forall i :: 1 <= i < |IntText(s1)| ==> IntText(s1)[i] == IntText(s1)[1..][i - 1];
    assert forall i :: 1 <= i < |IntText(s2)| ==> IntText(s2)[i] == IntText(s2)[1..][i - 1];
    FirstSeparatorSplits('|', IntText(s1), ts1, IntText(s2), ts2);
    IntTextInjective(s1, s2);
  }

  lemma DigestBarFree(s: string)
    requires IsDigest(s)
    ensures Free('|', s) && |s| != |GENESIS_PREV|
  {
    assert forall i :: 0 <= i < |s| ==> IsHexDigit(s[i]);
  }

  /** The two strings that are hashed for one event. */
  ghost function EventInputs(h: HashFn, e: Event): set<string> {
    {Stringify(e.data), Preimage(e.seqNo, e.ts, e.typ, h(Stringify(e.data)), e.prev)}
  }

  ghost function ChainInputs(h: HashFn, events: seq<Event>): set<string> {
    set i, x | 0 <= i < |events| && x in EventInputs(h, events[i]) :: x
  }

  /** Two events agree on everything the hash covers; the data up to the order of keys. */
  ghost predicate SameRecord(a: Event, b: Event) {
    a.seqNo == b.seqNo && a.ts == b.ts && a.typ == b.typ && a.prev == b.prev && a.hash == b.hash &&
    SameUpToKeyOrder(a.data, b.data)
  }

  ghost predicate SameLog(xs: seq<Event>, ys: seq<Event>) {
    |xs| == |ys| && forall i :: 0 <= i < |xs| ==> SameRecord(xs[i], ys[i])
  }

  ghost predicate WellFormedData(events: seq<Event>) {
    forall i :: 0 <= i < |events| ==> WellFormed(events[i].data)
  }

  lemma EventHashBinds(h: HashFn, a: Event, b: Event)
    requires WellFormed(a.data) && WellFormed(b.data) && Free('|', a.prev) && Free('|', b.prev)
    requires a.hash == Rehash(h, a) && b.hash == Rehash(h, b) && a.hash == b.hash
    requires CollisionFreeOn(h, EventInputs(h, a) + EventInputs(h, b))
    ensures SameRecord(a, b)
  {
    var da, db := h(Stringify(a.data)), h(Stringify(b.data));
    assert IsDigest(da) && IsDigest(db);
    DigestBarFree(da);
    DigestBarFree(db);
    PreimageInjective(a.seqNo, a.ts, a.typ, da, a.prev, b.seqNo, b.ts, b.typ, db, b.prev);
    CanonicalForm(a.data, b.data);
  }

  /** In an unbroken chain every back link is the genesis marker or a digest, never confusable. */
  lemma LinksBarFree(h: HashFn, events: seq<Event>, i: nat)
    requires Chained(h, events) && i < |events|
    ensures Free('|', events[i].prev) && IsDigest(events[i].hash)
    ensures events[i].prev == GENESIS_PREV <==> i == 0
  {
    assert ChainedAt(h, events, i);
    if i > 0 {
      assert ChainedAt(h, events, i - 1);
      DigestBarFree(events[i - 1].hash);
    }
  }

  lemma CollisionFreeAt(h: HashFn, xs: seq<Event>, i: nat, ys: seq<Event>, j: nat)
    requires i < |xs| && j < |ys|
    requires CollisionFreeOn(h, ChainInputs(h, xs) + ChainInputs(h, ys))
    ensures CollisionFreeOn(h, EventInputs(h, xs[i]) + EventInputs(h, ys[j]))
  {
    hide EventInputs;
    assert EventInputs(h, xs[i]) <= ChainInputs(h, xs) && EventInputs(h, ys[j]) <= ChainInputs(h, ys);
  }

  lemma LastEventsAgree(h: HashFn, xs: seq<Event>, ys: seq<Event>)
    requires xs != [] && ys != [] && Chained(h, xs) && Chained(h, ys)
    requires WellFormedData(xs) && WellFormedData(ys) && LastHash(xs) == LastHash(ys)
    requires CollisionFreeOn(h, ChainInputs(h, xs) + ChainInputs(h, ys))
    ensures SameRecord(xs[|xs| - 1], ys[|ys| - 1])
    ensures |xs| == 1 <==> |ys| == 1
    ensures |xs| > 1 ==> LastHash(xs[..|xs| - 1]) == LastHash(ys[..|ys| - 1])
  {
    hide Rehash, EventInputs, Free, SameRecord, ProducesDigests, CollisionFreeOn, IsDigest, ChainInputs;
    var m, n := |xs| - 1, |ys| - 1;
    LinksBarFree(h, xs, m);
    LinksBarFree(h, ys, n);
    CollisionFreeAt(h, xs, m, ys, n);
    assert ChainedAt(h, xs, m) && ChainedAt(h, ys, n);
    EventHashBinds(h, xs[m], ys[n]);
    SameRecordSamePrev(xs[m], ys[n]);
  }

  lemma SameRecordSamePrev(a: Event, b: Event)
    requires SameRecord(a, b)
    ensures a.prev == b.prev
  {}

  /** Main result: the hash of the last event binds the whole log, including its length. */
  lemma {:induction false} ChainHeadBindsLog(h: HashFn, xs: seq<Event>, ys: seq<Event>)
    requires xs != [] && ys != [] && Chained(h, xs) && Chained(h, ys)
    requires WellFormedData(xs) && WellFormedData(ys)
    requires LastHash(xs) == LastHash(ys)
    requires CollisionFreeOn(h, ChainInputs(h, xs) + ChainInputs(h, ys))
    ensures SameLog(xs, ys)
    decreases |xs|
  {
    hide Chained, SameRecord, ChainInputs, LastHash;
    LastEventsAgree(h, xs, ys);
    if |xs| > 1 {
      var xs', ys' := xs[..|xs| - 1], ys[..|ys| - 1];
      PrefixChained(h, xs, |xs| - 1);
      PrefixChained(h, ys, |ys| - 1);
      ChainHeadBindsLog(h, xs', ys');
      assert forall i :: 0 <= i < |xs'| ==> xs'[i] == xs[i] && ys'[i] == ys[i] && SameRecord(xs'[i], ys'[i]);
    }
  }

  lemma PrefixChained(h: HashFn, xs: seq<Event>, m: nat)
    requires m <= |xs| && Chained(h, xs) && WellFormedData(xs)
    ensures Chained(h, xs[..m]) && WellFormedData(xs[..m])
    ensures ChainInputs(h, xs[..m]) <= ChainInputs(h, xs)
  {
    forall i | 0 <= i < m ensures ChainedAt(h, xs[..m], i) {
      assert ChainedAt(h, xs, i);
    }
  }
}

/** Traces of `src/trace/index.ts` spelled out: what is hashed, what checkpoints say and where they stand, and the
    first trees of `src/proof/index.ts`. */
module TraceText {
  import opened Canonical
  import opened Common
  import opened Hashing
  import opened Merkle
  import opened Signing
  import opened Trace

  lemma TypeNames()
    ensures TypeName(TaskAccepted) == "TASK_ACCEPTED" && TypeName(ToolCall) == "TOOL_CALL"
    ensures TypeName(ToolResult) == "TOOL_RESULT" && TypeName(PolicyCheck) == "POLICY_CHECK"
    ensures TypeName(PolicyViolation) == "POLICY_VIOLATION" && TypeName(Checkpoint) == "CHECKPOINT"
    ensures TypeName(TaskResult) == "TASK_RESULT" && TypeName(TaskFailed) == "TASK_FAILED"
    ensures TypeName(Rollback) == "ROLLBACK" && TypeName(ThinkingChain) == "THINKING_CHAIN"
  {}

  /** Main result: after any run every event carries its position, the hash before it or the genesis marker, and the
      hash of these, its time, its type and the hash of its data, with bars in between. */
  lemma EventSpelledOut(c: Config, ops: seq<Op>, i: nat)
    requires i < |Run(c, ops).events|
    ensures var events := Run(c, ops).events;
            var e := events[i];
            e.seqNo == i && e.prev == (if i == 0 then "0x00" else events[i - 1].hash) &&
            e.hash == c.h(IntText(i) + "|" + e.ts + "|" + TypeName(e.typ) + "|" + c.h(Stringify(e.data)) + "|" + e.prev)
  {
    EveryRunVerifies(c, ops);
    var events := Run(c, ops).events;
    assert FineAt(c, events, i);
    hide Stringify, IntText, TypeName, Run, Findings, SignatureFine;
  }

  /** Main result: after any run of ordinary calls every checkpoint says the Merkle root and the number of all events
      before it, the number of tool calls among them and the last hash; and is signed. */
  lemma CheckpointSpelledOut(c: Config, ops: seq<Op>, k: nat)
    requires c.interval >= 1 && forall i :: 0 <= i < |ops| ==> Ordinary(ops[i])
    requires k < |Run(c, ops).events| && Run(c, ops).events[k].typ == Checkpoint
    ensures var events := Run(c, ops).events;
            var before := events[..k];
            events[k].data == Obj([
              Member("merkle_root", Str(if k == 0 then c.h("empty") else MerkleRoot(c.h, Hashes(before)))),
              Member("event_count", Num(k)),
              Member("tool_calls", Num(CountType(before, ToolCall))),
              Member("last_hash", Str(if k == 0 then "0x00" else events[k - 1].hash))]) &&
            events[k].sig == Some(c.identity.Sign(c.scheme, events[k].hash))
  {
    EveryRunWellKept(c, ops);
    hide Run, TerminalPlaced, MerkleRoot, CountType, ProducesDigests, Lawful;
  }

  /** A trace that has ended refuses every further call, and says how it ended. */
  lemma EndsForGood(c: Config, ops: seq<Op>, op: Op)
    requires Run(c, ops).finalized || Run(c, ops).failed
    ensures Run(c, ops + [op]) == Run(c, ops)
    ensures Closed(Run(c, ops)) == if Run(c, ops).finalized then Err(AlreadyFinalized) else Err(AlreadyFailed)
  {
    assert (ops + [op])[..|ops|] == ops;
    hide AfterAppend, AfterCheckpoint;
  }

  // ---------- Where checkpoints stand ----------

  /** Every m-th event is a checkpoint, and no other is. */
  ghost predicate EveryMth(events: seq<Event>, m: int)
    requires m > 0
  {
    forall k :: 0 <= k < |events| ==> (events[k].typ == Checkpoint <==> (k + 1) % m == 0)
  }

  /** After every `interval` events stands a checkpoint, and nowhere else. */
  ghost predicate Regular(c: Config, s: State) {
    c.interval >= 1 && s.sinceCheckpoint == |s.events| % (c.interval + 1) < c.interval &&
    EveryMth(s.events, c.interval + 1)
  }

  lemma PushKeepsEveryMth(events: seq<Event>, e: Event, m: int)
    requires m > 0 && EveryMth(events, m) && (e.typ == Checkpoint <==> (|events| + 1) % m == 0)
    ensures EveryMth(events + [e], m)
  {}

  lemma NextRemainder(n: nat, m: nat)
    requires m >= 2
    ensures (n + 1) % m == if n % m == m - 1 then 0 else n % m + 1
  {
    var q, r := n / m, n % m;
    assert n == q * m + r;
    if r == m - 1 {
      assert n + 1 == (q + 1) * m;
      RemainderOf(q + 1, 0, m);
    } else {
      RemainderOf(q, r + 1, m);
    }
  }

  lemma RemainderOf(q: nat, r: nat, m: nat)
    requires r < m
    ensures (q * m + r) % m == r
  {
    var n := q * m + r;
    assert n == (n / m) * m + n % m;
    SameQuotient(q, r, n / m, n % m, m);
  }

  lemma SameQuotient(q: int, r: int, p: int, s: int, m: int)
    requires 0 <= r < m && 0 <= s < m && q * m + r == p * m + s
    ensures r == s
  {
    assert (q - p) * m == q * m - p * m;
    SmallMultiple(q - p, m);
  }

  lemma SmallMultiple(d: int, m: int)
    requires m > 0 && -m < d * m < m
    ensures d == 0
  {
    if d >= 1 { AtLeastOnce(d, m); }
    if d <= -1 { AtLeastOnce(-d, m); }
  }

  lemma AtLeastOnce(d: int, m: int)
    requires m > 0 && d >= 1
    ensures d * m >= m && (-d) * m == -(d * m)
  {
    assert d * m == (d - 1) * m + m;
  }

  lemma NewEventTyp(c: Config, s: State, ts: string, typ: EventType, data: Json, signed: bool)
    ensures NewEvent(c, s, ts, typ, data, signed).typ == typ
  {}

  /** The events that an append adds. */
  lemma AppendShape(c: Config, s: State, typ: EventType, data: Json, ts: string, cpTs: string)
    returns (e: Event, cp: Event)
    requires typ != Checkpoint
    ensures e.typ == typ && cp.typ == Checkpoint
    ensures var s' := AfterAppend(c, s, typ, data, ts, cpTs);
            if s.sinceCheckpoint + 1 >= c.interval then s'.events == (s.events + [e]) + [cp] && s'.sinceCheckpoint == 0
            else s'.events == s.events + [e] && s'.sinceCheckpoint == s.sinceCheckpoint + 1
  {
    e := NewEvent(c, s, ts, typ, data, false);
    NewEventTyp(c, s, ts, typ, data, false);
    var s1 := s.(events := s.events + [e], seqNo := s.seqNo + 1, sinceCheckpoint := s.sinceCheckpoint + 1);
    cp := NewEvent(c, s1, cpTs, Checkpoint, CheckpointData(c.h, s1.events), true);
    NewEventTyp(c, s1, cpTs, Checkpoint, CheckpointData(c.h, s1.events), true);
    hide NewEvent, CheckpointData, ProducesDigests, Lawful;
  }

  lemma AppendKeepsRegular(c: Config, s: State, typ: EventType, data: Json, ts: string, cpTs: string)
    requires Regular(c, s) && typ != Checkpoint
    ensures Regular(c, AfterAppend(c, s, typ, data, ts, cpTs))
  {
    hide AfterAppend, EveryMth, ProducesDigests, Lawful;
    var n, m := |s.events|, c.interval + 1;
    NextRemainder(n, m);
    NextRemainder(n + 1, m);
    var e, cp := AppendShape(c, s, typ, data, ts, cpTs);
    PushKeepsEveryMth(s.events, e, m);
    if s.sinceCheckpoint + 1 >= c.interval { PushKeepsEveryMth(s.events + [e], cp, m); }
  }

  /** Main result: in a trace whose owner places no checkpoint by hand, every (interval + 1)-th event is a checkpoint
      and no other is, the terminal event included. */
  lemma {:induction false} CheckpointsRegular(c: Config, ops: seq<Op>)
    requires c.interval >= 1 && forall i :: 0 <= i < |ops| ==> Ordinary(ops[i]) && !ops[i].DoCheckpoint?
    ensures Regular(c, Run(c, ops))
  {
    if ops != [] {
      var init, op := ops[..|ops| - 1], ops[|ops| - 1];
      CheckpointsRegular(c, init);
      assert Ordinary(op) && !op.DoCheckpoint?;
      var s := Run(c, init);
      hide AfterAppend;
      match op
      case DoAppend(typ, data, ts, cpTs) => AppendKeepsRegular(c, s, typ, data, ts, cpTs);
      case DoFinalize(data, ts, cpTs) => AppendKeepsRegular(c, s, TaskResult, data, ts, cpTs);
      case DoFail(data, ts, cpTs) => AppendKeepsRegular(c, s, TaskFailed, data, ts, cpTs);
    }
  }

  // ---------- The first trees ----------

  /** Neighbours are hashed left before right, and an odd last node with itself. */
  lemma SmallTrees(h: HashFn, a: string, b: string, c: string)
    ensures MerkleRoot(h, [a]) == a && MerkleRoot(h, [a, b]) == h(a + b)
    ensures MerkleRoot(h, [a, b, c]) == h(h(a + b) + h(c + c))
  {
    hide ProducesDigests;
    PairOfTwo(h, a, b);
    PairOfTwo(h, h(a + b), h(c + c));
    PairOfThree(h, a, b, c);
    hide NextLayer;
    assert MerkleRoot(h, [a, b]) == MerkleRoot(h, [h(a + b)]);
    assert MerkleRoot(h, [h(a + b), h(c + c)]) == MerkleRoot(h, [h(h(a + b) + h(c + c))]);
    assert MerkleRoot(h, [a, b, c]) == MerkleRoot(h, [h(a + b), h(c + c)]);
  }

  lemma PairOfTwo(h: HashFn, a: string, b: string)
    ensures NextLayer(h, [a, b]) == [h(a + b)]
  {
    hide ProducesDigests;
    assert PairText([a, b], 0) == a + b;
    assert NextLayer(h, [a, b])[0] == h(PairText([a, b], 0));
  }

  lemma PairOfThree(h: HashFn, a: string, b: string, c: string)
    ensures NextLayer(h, [a, b, c]) == [h(a + b), h(c + c)]
  {
    hide ProducesDigests;
    assert PairText([a, b, c], 0) == a + b && PairText([a, b, c], 1) == c + c;
    assert NextLayer(h, [a, b, c])[0] == h(PairText([a, b, c], 0));
    assert NextLayer(h, [a, b, c])[1] == h(PairText([a, b, c], 1));
  }
}

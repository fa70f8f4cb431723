/** What the call log of `src/gateway/index.ts` says about the calls that were made, and how a request names the
    action that the policy judges. */
module GatewayRecords {
  import opened Canonical
  import opened Common
  import opened Gateway
  import opened Hashing
  import opened Policy
  import T = Trace

  // ---------- Actions ----------

  ghost predicate DotFree(s: string) {
    forall i :: 0 <= i < |s| ==> s[i] != '.'
  }

  /** The first dot separates the tool from the method, which is `*` if there is nothing after it, or no dot. */
  lemma {:induction false} ToolSpelledOut(tool: string)
    ensures var (name, access) := ParseTool(tool);
            DotFree(name) &&
            (if DotFree(tool) then name == tool && access == "*"
             else exists rest: string :: tool == name + "." + rest && access == if rest == "" then "*" else rest)
  {
    if tool != "" {
      if tool[0] == '.' {
        assert tool == "" + "." + tool[1..];
        assert !DotFree(tool);
      } else {
        ToolSpelledOut(tool[1..]);
        var (name, access) := ParseTool(tool[1..]);
        DotFreeCons(tool[0], tool[1..]);
        DotFreeCons(tool[0], name);
        assert tool == [tool[0]] + tool[1..];
        hide DotFree;
        if !DotFree(tool[1..]) {
          var rest: string :| tool[1..] == name + "." + rest && access == if rest == "" then "*" else rest;
          assert tool == ([tool[0]] + name) + "." + rest;
        }
      }
    }
  }

  lemma DotFreeCons(c: char, s: string)
    requires c != '.'
    ensures DotFree([c] + s) <==> DotFree(s)
  {
    assert forall i :: 0 <= i < |s| ==> ([c] + s)[i + 1] == s[i];
  }

  ghost predicate IsData(scope: string) {
    |scope| >= 5 && scope[..5] == "data:"
  }

  ghost predicate FirstData(scopes: seq<string>, i: int) {
    0 <= i < |scopes| && IsData(scopes[i]) && forall j :: 0 <= j < i ==> !IsData(scopes[j])
  }

  /** The data scope is what the first `data:` scope of the token names, or `*` if there is none. */
  lemma {:induction false} DataScopeSpelledOut(scopes: seq<string>, i: nat)
    ensures FirstData(scopes, i) ==> DataScopeOf(scopes) == scopes[i][5..]
    ensures i == |scopes| && (forall j :: 0 <= j < i ==> !IsData(scopes[j])) ==> DataScopeOf(scopes) == "*"
  {
    if scopes != [] && i > 0 {
      DataScopeSpelledOut(scopes[1..], i - 1);
      assert "data:" <= scopes[0] <==> IsData(scopes[0]);
      assert forall j :: 0 <= j < |scopes[1..]| ==> scopes[1..][j] == scopes[j + 1];
    }
  }

  // ---------- Refusals ----------

  /** Every refusal says what it is: no such tool, or what the policy says of the action; neither changes anything.
      A permitted call counts for the gateway and for the policy, even when a closed trace then stops it. */
  lemma RefusalsSpelledOut(u: Setup, s: Core, q: Request, c: Clock)
    ensures var (s', r) := Begin(u, s, q, c);
            var known := q.tool in u.tools;
            var d := Decide(u.token, s.policyCalls, ActionOf(u, q), q.risk, c.seconds);
            (r == Err(ToolNotFound) <==> !known) &&
            (r == Err(Unauthorized) <==> known && d == Deny) &&
            (r == Err(ConfirmationRequired) <==> known && d == NeedsConfirm) &&
            (r.Ok? <==> known && d == Allow && (u.trace.Some? ==> !s.trace.finalized && !s.trace.failed)) &&
            (!known || d != Allow ==> s' == s) &&
            (known && d == Allow ==>
             s'.policyCalls == s.policyCalls + 1 && s'.callCount == s.callCount + 1 && s'.callLog == s.callLog)
  {
    hide Decide, ActionOf, Stringify, Payload, T.AfterAppend, ProducesDigests;
  }

  // ---------- The log ----------

  /** The call starts here: the tool is there and the policy permits the action; the ticket names both. */
  ghost predicate StartsCall(u: Setup, w: World, step: Step, ticket: Ticket) {
    step.Start? && step.q.tool in u.tools &&
    Permitted(u.token, w.core.policyCalls, ActionOf(u, step.q), step.q.risk, step.c.seconds) &&
    ticket == Ticket(step.q.tool, u.h(Stringify(step.q.input)))
  }

  ghost predicate Started(u: Setup, worlds: seq<World>, steps: seq<Step>, i: nat, ticket: Ticket)
    requires i <= |steps| <= |worlds|
  {
    exists a :: 0 <= a < i && StartsCall(u, worlds[a], steps[a], ticket)
  }

  /** The entry says what came back from a call with this ticket. */
  ghost predicate EndsCall(u: Setup, step: Step, ticket: Ticket, entry: LogEntry) {
    step.Complete? &&
    entry == LogEntry(ticket.tool, ticket.inputHash, u.h(Stringify(step.o.output)), step.o.status, step.o.durationMs)
  }

  ghost predicate Ended(u: Setup, worlds: seq<World>, steps: seq<Step>, i: nat, entry: LogEntry)
    requires i <= |steps| <= |worlds|
  {
    exists b, ticket :: 0 <= b < i && EndsCall(u, steps[b], ticket, entry) && Started(u, worlds, steps, b, ticket)
  }

  /** The effect of one step on what is outstanding and logged. */
  lemma StepRecords(u: Setup, w: World, step: Step)
    requires Permissible(w, step)
    ensures var w' := Next(u, w, step);
            (forall t :: t in w'.outstanding ==> t in w.outstanding || StartsCall(u, w, step, t)) &&
            forall e :: e in w'.core.callLog ==>
              e in w.core.callLog || (step.Complete? && EndsCall(u, step, w.outstanding[step.index], e))
  {
    hide Stringify, Permitted, Confirmable, ActionOf, Payload;
  }

  lemma {:induction false} EverythingStarted(u: Setup, worlds: seq<World>, steps: seq<Step>, i: nat)
    requires IsRun(u, worlds, steps) && i < |worlds|
    ensures forall t :: t in worlds[i].outstanding ==> Started(u, worlds, steps, i, t)
    ensures forall e :: e in worlds[i].core.callLog ==> Ended(u, worlds, steps, i, e)
  {
    hide Next, Permissible, StartsCall, EndsCall;
    if i > 0 {
      EverythingStarted(u, worlds, steps, i - 1);
      assert Follows(u, worlds[i - 1], steps[i - 1], worlds[i]);
      StepRecords(u, worlds[i - 1], steps[i - 1]);
      hide IsRun;
      var w, step := worlds[i - 1], steps[i - 1];
      forall t | t in worlds[i].outstanding ensures Started(u, worlds, steps, i, t) {
        if t in w.outstanding {
          var a :| 0 <= a < i - 1 && StartsCall(u, worlds[a], steps[a], t);
        }
      }
      forall e | e in worlds[i].core.callLog ensures Ended(u, worlds, steps, i, e) {
        if e in w.core.callLog {
          var b, ticket :| 0 <= b < i - 1 && EndsCall(u, steps[b], ticket, e) && Started(u, worlds, steps, b, ticket);
        } else {
          var ticket := OutstandingAt(u, w, step, e);
          assert Started(u, worlds, steps, i - 1, ticket);
        }
      }
    }
  }

  lemma OutstandingAt(u: Setup, w: World, step: Step, e: LogEntry) returns (ticket: Ticket)
    requires Permissible(w, step) && e in Next(u, w, step).core.callLog && e !in w.core.callLog
    ensures ticket in w.outstanding && EndsCall(u, step, ticket, e)
  {
    StepRecords(u, w, step);
    hide EndsCall, Next;
    assert step.Complete?;
    ticket := w.outstanding[step.index];
  }

  /** Main result: in every interleaving, every entry of the log tells of a call that was made: of a tool that is
      registered, for an action that the policy permitted at that moment, with the hash of the input that was given
      and the hash, status and duration of what came back. */
  lemma LogTellsCalls(u: Setup, worlds: seq<World>, steps: seq<Step>, i: nat, entry: LogEntry)
    requires IsRun(u, worlds, steps) && i < |worlds| && entry in worlds[i].core.callLog
    ensures exists a, b :: 0 <= a < b < i && steps[a].Start? && steps[b].Complete? &&
              var q, o := steps[a].q, steps[b].o;
              q.tool in u.tools &&
              Decide(u.token, worlds[a].core.policyCalls, ActionOf(u, q), q.risk, steps[a].c.seconds) == Allow &&
              entry == LogEntry(q.tool, u.h(Stringify(q.input)), u.h(Stringify(o.output)), o.status, o.durationMs)
  {
    EverythingStarted(u, worlds, steps, i);
    hide IsRun, Stringify, Permitted, ActionOf;
    var b, ticket :| 0 <= b < i && EndsCall(u, steps[b], ticket, entry) && Started(u, worlds, steps, b, ticket);
    var a :| 0 <= a < b && StartsCall(u, worlds[a], steps[a], ticket);
  }

  // ---------- The traced events ----------

  /** What a tool event says: the members given, and for a gateway with an identity its DID and a signature that
      verifies over these members and a moment in time. */
  ghost predicate Says(u: Setup, data: Json, ms: seq<Member>) {
    match u.signer
    case None => data == Obj(ms)
    case Some(g) =>
      exists sig, millis: int ::
        data == Obj(ms + [Member("gateway_did", Str(g.identity.Did(g.scheme))), Member("gateway_sig", Str(sig))]) &&
        g.identity.Verify(g.scheme, SignedText(ms, millis), sig)
  }

  lemma PayloadSays(u: Setup, ms: seq<Member>, millis: int)
    ensures Says(u, Payload(u, ms, millis), ms)
  {
    hide SignedText;
    match u.signer
    case None =>
    case Some(g) =>
      var sig := g.identity.Sign(g.scheme, SignedText(ms, millis));
      assert g.identity.Verify(g.scheme, SignedText(ms, millis), sig);
  }

  /** `"key":value` for each member, as `PlainText` joins them. */
  ghost function Pairs(ms: seq<Member>): (ts: seq<string>)
    ensures |ts| == |ms|
    ensures forall i :: 0 <= i < |ms| ==> ts[i] == Quote(ms[i].key) + ":" + Stringify(ms[i].value)
    ensures PlainText(ms) == "{" + Join(ts) + "}"
  {
    seq(|ms|, i requires 0 <= i < |ms| => Quote(ms[i].key) + ":" + Stringify(ms[i].value))
  }

  /** The text that is signed, by an example. */
  lemma SignedTextSample()
    ensures SignedText([Member("tool", Str("x"))], 5) == "{\"tool\":\"x\",\"ts\":5}"
  {
    var ms := [Member("tool", Str("x"))] + [Member("ts", Num(5))];
    var ts := Pairs(ms);
    SampleQuotes();
    SampleValues();
    SampleTexts();
    assert ts[0] == Quote("tool") + ":" + Stringify(Str("x")) && ts[1] == Quote("ts") + ":" + Stringify(Num(5));
    assert ts == ["\"tool\":\"x\"", "\"ts\":5"] by { hide Quote, Stringify; }
    assert ts[1..] == ["\"ts\":5"];
    assert Join(ts) == "\"tool\":\"x\"" + "," + "\"ts\":5" by { hide Quote, Stringify; }
  }

  lemma SampleTexts()
    ensures "\"tool\"" + ":" + "\"x\"" == "\"tool\":\"x\"" && "\"ts\"" + ":" + "5" == "\"ts\":5"
    ensures "{" + ("\"tool\":\"x\"" + "," + "\"ts\":5") + "}" == "{\"tool\":\"x\",\"ts\":5}"
  {}

  lemma SampleValues()
    ensures Stringify(Str("x")) == "\"x\"" && Stringify(Num(5)) == "5"
  {
    SampleQuotes();
  }

  lemma SampleQuotes()
    ensures Quote("tool") == "\"tool\"" && Quote("ts") == "\"ts\"" && Quote("x") == "\"x\""
  {
    assert "tool"[1..] == "ool" && "ool"[1..] == "ol" && "ol"[1..] == "l" && "l"[1..] == "" && "ts"[1..] == "s";
    assert Escape("l") == "l" && Escape("ol") == "ol" && Escape("ool") == "ool" && Escape("tool") == "tool";
    assert Escape("s") == "s" && Escape("ts") == "ts" && Escape("x") == "x";
  }

  lemma PairsReadable(ms: seq<Member>, ns: seq<Member>)
    requires PlainText(ms) == PlainText(ns)
    ensures Pairs(ms) == Pairs(ns)
  {
    var ts, us := Pairs(ms), Pairs(ns);
    forall i, j | 0 <= i < |ts| && 0 <= j < |us| ensures Separable(ts[i], us[j]) {
      TextsSeparable(ms[i].value, ns[j].value);
      RenderedSeparable(ms[i].key, Stringify(ms[i].value), ns[j].key, Stringify(ns[j].value));
    }
    assert forall i :: 0 <= i < |ts| ==> IsToken(ts[i]);
    assert forall j :: 0 <= j < |us| ==> IsToken(us[j]);
    hide PlainText, Separable, IsToken, Join, Quote, Stringify;
    Unbraced(Join(ts), Join(us));
    JoinReadable(ts, us, '}', "", "");
  }

  lemma Unbraced(t: string, u: string)
    requires "{" + t + "}" == "{" + u + "}"
    ensures t + ['}'] + "" == u + ['}'] + ""
  {
    assert "{" + t + "}" == "{" + (t + ['}'] + "") && "{" + u + "}" == "{" + (u + ['}'] + "");
    CancelPrefix("{", t + ['}'] + "", u + ['}'] + "");
  }

  lemma PairReadable(k: string, t: string, l: string, u: string)
    requires Quote(k) + ":" + t == Quote(l) + ":" + u
    ensures k == l && t == u
  {
    hide Quote;
    Regroup(Quote(k), t, "");
    Regroup(Quote(l), u, "");
    assert t + "" == t && u + "" == u;
    assert (Quote(k) + ":" + t) + "" == Quote(k) + ":" + t && (Quote(l) + ":" + u) + "" == Quote(l) + ":" + u;
    QuoteReadable(k, l, ":" + t, ":" + u);
    CancelPrefix(":", t, u);
  }

  /** Main result: the text that is signed determines every member, in order, and the moment. */
  lemma SignedTextBinds(ms: seq<Member>, m: int, ns: seq<Member>, n: int)
    requires forall i :: 0 <= i < |ms| ==> WellFormed(ms[i].value)
    requires forall i :: 0 <= i < |ns| ==> WellFormed(ns[i].value)
    requires SignedText(ms, m) == SignedText(ns, n)
    ensures |ms| == |ns| && m == n
    ensures forall i :: 0 <= i < |ms| ==> ms[i].key == ns[i].key && SameUpToKeyOrder(ms[i].value, ns[i].value)
  {
    var ms', ns' := ms + [Member("ts", Num(m))], ns + [Member("ts", Num(n))];
    PairsReadable(ms', ns');
    hide PlainText, Stringify, Quote;
    forall i | 0 <= i < |ms'| ensures ms'[i].key == ns'[i].key && Stringify(ms'[i].value) == Stringify(ns'[i].value) {
      assert Pairs(ms')[i] == Pairs(ns')[i];
      PairReadable(ms'[i].key, Stringify(ms'[i].value), ns'[i].key, Stringify(ns'[i].value));
    }
    TextDeterminesValue(ms'[|ms|].value, ns'[|ns|].value);
    forall i | 0 <= i < |ms| ensures ms[i].key == ns[i].key && SameUpToKeyOrder(ms[i].value, ns[i].value) {
      assert ms'[i] == ms[i] && ns'[i] == ns[i];
      TextDeterminesValue(ms[i].value, ns[i].value);
    }
  }

  /** Main result: in every interleaving the j-th traced result says tool, output hash, status and duration of the
      j-th log entry. */
  lemma ResultSpelledOut(u: Setup, worlds: seq<World>, steps: seq<Step>, i: nat, j: nat)
    requires IsRun(u, worlds, steps) && i < |worlds| && u.trace.Some? && j < |worlds[i].core.callLog|
    ensures var entry, results := worlds[i].core.callLog[j], DataOf(worlds[i].core.trace.events, T.ToolResult);
            j < |results| &&
            Says(u, results[j],
                 [Member("tool", Str(entry.tool)), Member("output_hash", Str(entry.outputHash)),
                  Member("status", Str(match entry.status case Succeeded => "ok" case Failed => "error")),
                  Member("duration_ms", Num(entry.durationMs))])
  {
    hide IsRun, DataOf;
    RunAccounted(u, worlds, steps, i);
    var entry, results := worlds[i].core.callLog[j], Results(worlds[i].core);
    assert Tells(u, results[j], entry);
    hide Payload, Says;
    var millis: int :| results[j] == Payload(u, ResultMembers(entry), millis);
    PayloadSays(u, ResultMembers(entry), millis);
  }

  /** The traced call tells of a start: tool and input hash. */
  ghost predicate TellsStart(u: Setup, step: Step, data: Json) {
    step.Start? && step.q.tool in u.tools &&
    Says(u, data, [Member("tool", Str(step.q.tool)), Member("input_hash", Str(u.h(Stringify(step.q.input))))])
  }

  ghost predicate CallsTold(u: Setup, worlds: seq<World>, steps: seq<Step>, i: nat)
    requires i < |worlds| && i <= |steps|
  {
    forall d :: d in DataOf(worlds[i].core.trace.events, T.ToolCall) ==>
      exists a :: 0 <= a < i && TellsStart(u, steps[a], d)
  }

  lemma StepCalls(u: Setup, w: World, step: Step)
    requires Permissible(w, step) && u.trace.Some?
    ensures forall d :: d in DataOf(Next(u, w, step).core.trace.events, T.ToolCall) ==>
              d in DataOf(w.core.trace.events, T.ToolCall) || TellsStart(u, step, d)
  {
    hide T.AfterAppend, DataOf, Payload, ResultMembers, T.Step, ProducesDigests, Stringify, Says, Permitted, ActionOf;
    match step
    case Start(q, c) =>
      var ms := CallMembers(q, u.h(Stringify(q.input)));
      PayloadSays(u, ms, c.millis);
      AppendAdds(u.trace.value, w.core.trace, T.ToolCall, Payload(u, ms, c.millis), c.ts, c.cpTs, T.ToolCall);
    case Complete(index, o, c) =>
      var k := w.outstanding[index];
      var entry := LogEntry(k.tool, k.inputHash, u.h(Stringify(o.output)), o.status, o.durationMs);
      AppendAdds(u.trace.value, w.core.trace, T.ToolResult, Payload(u, ResultMembers(entry), c.millis), c.ts, c.cpTs,
                 T.ToolCall);
    case UseTrace(op) => OthersAddNothing(u.trace.value, w.core.trace, op, T.ToolCall);
  }

  /** Main result: and every traced call says tool and input hash of a call that was started. */
  lemma {:induction false} CallSpelledOut(u: Setup, worlds: seq<World>, steps: seq<Step>, i: nat)
    requires IsRun(u, worlds, steps) && i < |worlds| && u.trace.Some?
    ensures CallsTold(u, worlds, steps, i)
  {
    hide Next, Permissible, TellsStart;
    if i > 0 {
      CallSpelledOut(u, worlds, steps, i - 1);
      assert Follows(u, worlds[i - 1], steps[i - 1], worlds[i]);
      StepCalls(u, worlds[i - 1], steps[i - 1]);
      hide IsRun, DataOf;
    }
  }
}

/** Exactly which messages an endpoint admits (`src/endpoint/index.ts`, `src/envelope/index.ts`), stated over the
    calls of a run. */
module AdmissionExact {
  import opened Common
  import opened Admission

  // ---------- The rate limit ----------

  /** When the window in force under a key was opened: by the first request, and again by every request that comes
      later than the window's length after the last opening. */
  function Opened(s: Settings, rs: seq<Request>, key: string): Option<int> {
    if rs == [] then None
    else
      var before, r := Opened(s, rs[..|rs| - 1], key), rs[|rs| - 1];
      if r.key == key && (before.None? || r.now > before.value + s.windowMs) then Some(r.now) else before
  }

  /** Room for one more request: no window is in force, or fewer than the limit got through since it opened. */
  ghost predicate Room(s: Settings, rs: seq<Request>, key: string, now: int) {
    var since := Opened(s, rs, key);
    since.None? || now > since.value + s.windowMs || Passed(s, rs, key, since.value, now) < s.maxRequests
  }

  lemma {:induction false} OpenedIsWindow(s: Settings, rs: seq<Request>, key: string)
    ensures key in Windows(s, rs) <==> Opened(s, rs, key).Some?
    ensures key in Windows(s, rs) ==> Windows(s, rs)[key].resetAt == Opened(s, rs, key).value + s.windowMs
  {
    if rs != [] {
      OpenedIsWindow(s, rs[..|rs| - 1], key);
    }
  }

  lemma {:induction false} OpenedBefore(s: Settings, rs: seq<Request>, key: string)
    requires Ordered(rs)
    ensures Opened(s, rs, key).Some? ==> rs != [] && Opened(s, rs, key).value <= rs[|rs| - 1].now
  {
    if rs != [] {
      OpenedBefore(s, rs[..|rs| - 1], key);
    }
  }

  /** Main result: over every run the limiter lets a request through exactly when there is room. */
  lemma LimiterExact(s: Settings, rs: seq<Request>, r: Request)
    requires Ordered(rs + [r])
    ensures LastPasses(s, rs + [r]) <==> Room(s, rs, r.key, r.now)
  {
    var all := rs + [r];
    assert all[..|rs|] == rs;
    assert Ordered(rs) by {
      assert forall i :: 0 <= i < |rs| ==> rs[i] == all[i];
    }
    OpenedIsWindow(s, rs, r.key);
    if s.windowMs >= 0 {
      CurrentWindow(s, rs, r.key);
    } else {
      OpenedBefore(s, rs, r.key);
    }
    assert rs != [] ==> all[|rs| - 1].now <= all[|rs|].now;
    hide Windows, Passed, Opened, Ordered;
  }

  // ---------- Nonces ----------

  /** The i-th call got through the limiter. */
  predicate Let(s: Settings, calls: seq<Call>, i: nat)
    requires i < |calls|
  {
    CheckRate(s, Run(s, calls[..i]).windows, calls[i].m.from, calls[i].now).1
  }

  /** The i-th call got through the limiter with a nonce that no other such call had taken up within the window. */
  ghost predicate TakesUp(s: Settings, calls: seq<Call>, i: nat)
    requires i < |calls|
    decreases i
  {
    Let(s, calls, i) &&
    forall j: nat :: j < i && calls[j].m.nonce == calls[i].m.nonce && calls[i].now - calls[j].now <= s.nonceAgeMs ==>
      !TakesUp(s, calls, j)
  }

  /** What is recorded for a nonce comes from a call that took it up. */
  ghost predicate Sourced(s: Settings, calls: seq<Call>, k: nat, nonce: string)
    requires k <= |calls|
  {
    var seen := Run(s, calls[..k]).seen;
    nonce in seen ==>
      exists j: nat :: j < k && TakesUp(s, calls, j) && calls[j].m.nonce == nonce && calls[j].now == seen[nonce]
  }

  /** What took up a nonce is recorded for as long as the window lasts. */
  ghost predicate Kept(s: Settings, calls: seq<Call>, k: nat, nonce: string)
    requires k <= |calls|
  {
    var seen := Run(s, calls[..k]).seen;
    forall j: nat :: j < k && TakesUp(s, calls, j) && calls[j].m.nonce == nonce &&
                     calls[k - 1].now - calls[j].now <= s.nonceAgeMs ==>
      nonce in seen && seen[nonce] >= calls[j].now
  }

  /** The tracker holds a nonce from the call that took it up. */
  ghost predicate Holding(s: Settings, calls: seq<Call>, k: nat, nonce: string)
    requires k <= |calls|
  {
    Sourced(s, calls, k, nonce) && Kept(s, calls, k, nonce)
  }

  lemma RunStep(s: Settings, calls: seq<Call>, k: nat)
    requires k < |calls|
    ensures Run(s, calls[..k + 1]) == Incoming(s, Run(s, calls[..k]), calls[k]).0
  {
    assert calls[..k + 1][..k] == calls[..k];
  }

  /** What one call does to the nonces. */
  lemma SeenStep(s: Settings, calls: seq<Call>, k: nat)
    requires k < |calls|
    ensures var before, after, c := Run(s, calls[..k]).seen, Run(s, calls[..k + 1]).seen, calls[k];
            after == if !Let(s, calls, k) then before
                     else if c.m.nonce in Evict(s, before, c.now) then Evict(s, before, c.now)
                     else Evict(s, before, c.now)[c.m.nonce := c.now]
  {
    RunStep(s, calls, k);
    hide CheckRate, VerifyMessage, Run, Evict;
  }

  /** A call that the limiter lets through finds its nonce unused exactly when it takes it up. */
  lemma FreshNonce(s: Settings, calls: seq<Call>, k: nat)
    requires ClockMonotone(calls) && k < |calls| && Holding(s, calls, k, calls[k].m.nonce) && Let(s, calls, k)
    ensures TakesUp(s, calls, k) <==> calls[k].m.nonce !in Evict(s, Run(s, calls[..k]).seen, calls[k].now)
  {
    hide Run, Let;
    var nonce, now := calls[k].m.nonce, calls[k].now;
    assert k > 0 ==> calls[k - 1].now <= now;
  }

  lemma SourcedStep(s: Settings, calls: seq<Call>, k: nat, nonce: string)
    requires k < |calls| && Sourced(s, calls, k, nonce)
    requires Let(s, calls, k) ==>
               (TakesUp(s, calls, k) <==> calls[k].m.nonce !in Evict(s, Run(s, calls[..k]).seen, calls[k].now))
    ensures Sourced(s, calls, k + 1, nonce)
  {
    SeenStep(s, calls, k);
    hide Run, Let, TakesUp;
    assert TakesUp(s, calls, k) ==> Let(s, calls, k) by { TakerIsLet(s, calls, k); }
  }

  lemma TakerIsLet(s: Settings, calls: seq<Call>, k: nat)
    requires k < |calls|
    ensures TakesUp(s, calls, k) ==> Let(s, calls, k)
  {
    hide Let;
  }

  lemma KeptStep(s: Settings, calls: seq<Call>, k: nat, nonce: string)
    requires ClockMonotone(calls) && k < |calls| && Kept(s, calls, k, nonce)
    requires Let(s, calls, k) ==>
               (TakesUp(s, calls, k) <==> calls[k].m.nonce !in Evict(s, Run(s, calls[..k]).seen, calls[k].now))
    ensures Kept(s, calls, k + 1, nonce)
  {
    SeenStep(s, calls, k);
    TakerIsLet(s, calls, k);
    assert k > 0 ==> calls[k - 1].now <= calls[k].now;
    hide Run, Let, TakesUp;
    forall j: nat | j < k + 1 && TakesUp(s, calls, j) && calls[j].m.nonce == nonce &&
                    calls[k].now - calls[j].now <= s.nonceAgeMs
      ensures var seen := Run(s, calls[..k + 1]).seen; nonce in seen && seen[nonce] >= calls[j].now
    {
      assert calls[j].now <= calls[k].now;
    }
  }

  lemma HoldingStep(s: Settings, calls: seq<Call>, k: nat, nonce: string)
    requires ClockMonotone(calls) && k < |calls|
    requires Holding(s, calls, k, nonce) && Holding(s, calls, k, calls[k].m.nonce)
    ensures Holding(s, calls, k + 1, nonce)
  {
    hide Run, Let, TakesUp, Sourced, Kept, Evict;
    if Let(s, calls, k) { FreshNonce(s, calls, k); }
    SourcedStep(s, calls, k, nonce);
    KeptStep(s, calls, k, nonce);
  }

  lemma {:induction false} AlwaysHolding(s: Settings, calls: seq<Call>, k: nat, nonce: string)
    requires ClockMonotone(calls) && k <= |calls|
    ensures Holding(s, calls, k, nonce)
  {
    if k == 0 {
      assert calls[..0] == [];
    } else {
      AlwaysHolding(s, calls, k - 1, nonce);
      AlwaysHolding(s, calls, k - 1, calls[k - 1].m.nonce);
      HoldingStep(s, calls, k - 1, nonce);
    }
  }

  // ---------- Admission ----------

  /** All fields are there, the version is the one in force, and the timestamp is neither old nor ahead. */
  ghost predicate Proper(s: Settings, m: Message, now: int) {
    m.envelope == "atel.msg.v1" && m.from != "" && m.to != "" && m.typ != "" && m.nonce != "" &&
    m.timestamp.Some? && now - s.messageAgeMs <= m.timestamp.value <= now + 30_000
  }

  /** Main result: over every run a message is admitted exactly when the limiter has room for its sender, its
      nonce was not taken up within the window by a call that got through, a key is known for its sender, it is well
      formed and fresh, and its signature verifies under that key. */
  lemma AdmittedExactly(s: Settings, calls: seq<Call>, i: nat)
    requires ClockMonotone(calls) && i < |calls|
    ensures var c := calls[i];
            Verdict(s, calls, i).Ok? <==>
            Room(s, Requests(calls[..i]), c.m.from, c.now) && TakesUp(s, calls, i) &&
            c.key.Some? && Proper(s, c.m, c.now) && s.verify(c.m, c.key.value)
  {
    AlwaysHolding(s, calls, i, calls[i].m.nonce);
    LetIsRoom(s, calls, i);
    if Let(s, calls, i) { FreshNonce(s, calls, i); }
    hide Run, Room, Holding, CheckRate, Evict;
    MessageExact(s, calls[i].m, calls[i].key, calls[i].now);
    hide VerifyMessage, Proper;
  }

  lemma MessageExact(s: Settings, m: Message, key: Option<string>, now: int)
    ensures key.Some? ==> (VerifyMessage(s, m, key.value, now).Ok? <==> Proper(s, m, now) && s.verify(m, key.value))
  {}

  lemma LetIsRoom(s: Settings, calls: seq<Call>, i: nat)
    requires ClockMonotone(calls) && i < |calls|
    ensures Let(s, calls, i) <==> Room(s, Requests(calls[..i]), calls[i].m.from, calls[i].now)
  {
    var rs, r := Requests(calls[..i]), Request(calls[i].m.from, calls[i].now);
    AdmittedPassed(s, calls[..i], "", 0, 0);
    assert (rs + [r])[..|rs|] == rs;
    assert Ordered(rs + [r]) by {
      forall a, b | 0 <= a <= b < |rs + [r]| ensures (rs + [r])[a].now <= (rs + [r])[b].now {
        assert (rs + [r])[a].now == calls[a].now && (rs + [r])[b].now == calls[b].now;
      }
    }
    hide Run, Windows, Room;
    LimiterExact(s, rs, r);
  }

  /** The sender, the receiver, the type and the nonce are there. */
  ghost predicate Complete(m: Message) {
    m.from != "" && m.to != "" && m.typ != "" && m.nonce != ""
  }

  /** Main result: and a refusal says over every run what was wrong, in this order: no room, a nonce taken up before,
      no key, and then the message itself, its signature last. */
  lemma RefusedExactly(s: Settings, calls: seq<Call>, i: nat)
    requires ClockMonotone(calls) && i < |calls|
    ensures var c, v := calls[i], Verdict(s, calls, i);
            var m, looked := c.m, TakesUp(s, calls, i) && c.key.Some?;
            var known := looked && m.envelope == "atel.msg.v1";
            var dated := known && Complete(m) && m.timestamp.Some?;
            (v == Err(RateLimited) <==> !Room(s, Requests(calls[..i]), m.from, c.now)) &&
            (v == Err(Replayed) <==>
             Room(s, Requests(calls[..i]), m.from, c.now) && !TakesUp(s, calls, i)) &&
            (v == Err(UnknownSender) <==> TakesUp(s, calls, i) && c.key.None?) &&
            (v == Err(UnsupportedEnvelope) <==> looked && !known) &&
            (v == Err(MissingFields) <==> known && !Complete(m)) &&
            (v == Err(InvalidTimestamp) <==> known && Complete(m) && m.timestamp.None?) &&
            (v == Err(Expired) <==> dated && m.timestamp.value < c.now - s.messageAgeMs) &&
            (v == Err(FromFuture) <==>
             dated && c.now - s.messageAgeMs <= m.timestamp.value && c.now + 30_000 < m.timestamp.value) &&
            (v == Err(BadSignature) <==> looked && Proper(s, m, c.now) && !s.verify(m, c.key.value))
  {
    AlwaysHolding(s, calls, i, calls[i].m.nonce);
    LetIsRoom(s, calls, i);
    TakerIsLet(s, calls, i);
    if Let(s, calls, i) { FreshNonce(s, calls, i); }
    VerdictSteps(s, calls, i);
    hide Run, Room, Holding, CheckRate, Evict, TakesUp, Let, Verdict, Incoming;
  }

  lemma VerdictSteps(s: Settings, calls: seq<Call>, i: nat)
    requires i < |calls|
    ensures var c := calls[i];
            Verdict(s, calls, i) ==
            if !Let(s, calls, i) then Err(RateLimited)
            else if c.m.nonce in Evict(s, Run(s, calls[..i]).seen, c.now) then Err(Replayed)
            else if c.key.None? then Err(UnknownSender)
            else VerifyMessage(s, c.m, c.key.value, c.now)
  {
    hide Run, CheckRate, VerifyMessage, Evict;
  }

  /** In particular, nothing is admitted without a signature that verifies under a key that was resolved. */
  lemma AdmittedIsSigned(s: Settings, calls: seq<Call>, i: nat)
    requires i < |calls| && Verdict(s, calls, i).Ok?
    ensures calls[i].key.Some? && s.verify(calls[i].m, calls[i].key.value)
  {
    hide Run, CheckRate, CheckNonce;
  }
}

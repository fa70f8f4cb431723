/** Message admission: the freshness check and nonce tracker of `src/envelope/index.ts`, and the rate
    limiter and `verifyIncoming` of `src/endpoint/index.ts`. Times are milliseconds. */
module Admission {
  import opened Common

  /** `timestamp` is `None` when the text does not parse as a date. */
  datatype Message = Message(
    envelope: string, typ: string, from: string, to: string,
    timestamp: Option<int>, nonce: string, payload: string, signature: string)

  datatype Refusal =
    | RateLimited | Replayed | UnknownSender | UnsupportedEnvelope | MissingFields
    | InvalidTimestamp | Expired | FromFuture | BadSignature

  const MAX_MESSAGE_AGE_MS := 300_000
  const FUTURE_TOLERANCE_MS := 30_000

  datatype Window = Window(count: int, resetAt: int)

  /** What an endpoint is configured with; `verify` is the signature check under a public key. */
  datatype Settings = Settings(
    maxRequests: int, windowMs: int, nonceAgeMs: int, messageAgeMs: int, verify: (Message, string) -> bool)

  datatype State = State(windows: map<string, Window>, seen: map<string, int>)

  const FRESH_STATE := State(map[], map[])

  /** One incoming message, the clock reading of the call, and the sender's key if it resolves. */
  datatype Call = Call(m: Message, now: int, key: Option<string>)

  function DefaultSettings(maxRequests: int, windowMs: int, verify: (Message, string) -> bool): Settings {
    Settings(maxRequests, windowMs, MAX_MESSAGE_AGE_MS * 2, MAX_MESSAGE_AGE_MS, verify)
  }

  // ---------- Steps ----------

  function VerifyMessage(s: Settings, m: Message, key: string, now: int): Result<(), Refusal> {
    if m.envelope != "atel.msg.v1" then Err(UnsupportedEnvelope)
    else if m.from == "" || m.to == "" || m.typ == "" || m.nonce == "" then Err(MissingFields)
    else if m.timestamp.None? then Err(InvalidTimestamp)
    else if now - m.timestamp.value > s.messageAgeMs then Err(Expired)
    else if m.timestamp.value > now + FUTURE_TOLERANCE_MS then Err(FromFuture)
    else if !s.verify(m, key) then Err(BadSignature)
    else Ok(())
  }

  function CheckRate(s: Settings, windows: map<string, Window>, key: string, now: int): (map<string, Window>, bool) {
    if key !in windows || now > windows[key].resetAt then (windows[key := Window(1, now + s.windowMs)], true)
    else if windows[key].count >= s.maxRequests then (windows, false)
    else (windows[key := Window(windows[key].count + 1, windows[key].resetAt)], true)
  }

  function Evict(s: Settings, seen: map<string, int>, now: int): map<string, int> {
    map n | n in seen && seen[n] >= now - s.nonceAgeMs :: seen[n]
  }

  function CheckNonce(s: Settings, seen: map<string, int>, nonce: string, now: int): (map<string, int>, bool) {
    var kept := Evict(s, seen, now);
    if nonce in kept then (kept, false) else (kept[nonce := now], true)
  }

  function Incoming(s: Settings, st: State, c: Call): (State, Result<(), Refusal>) {
    var (windows, underLimit) := CheckRate(s, st.windows, c.m.from, c.now);
    if !underLimit then (State(windows, st.seen), Err(RateLimited))
    else
      var (seen, isNew) := CheckNonce(s, st.seen, c.m.nonce, c.now);
      (State(windows, seen),
       if !isNew then Err(Replayed)
       else if c.key.None? then Err(UnknownSender)
       else VerifyMessage(s, c.m, c.key.value, c.now))
  }

  // ---------- The classes ----------

  class RateLimiter {
    var windows: map<string, Window>
    const settings: Settings

    constructor (settings: Settings)
      ensures this.settings == settings && windows == map[]
    {
      this.settings := settings;
      windows := map[];
    }

    method Check(key: string, now: int) returns (ok: bool)
      modifies this
      ensures (windows, ok) == old(CheckRate(settings, windows, key, now))
    {
      if key !in windows || now > windows[key].resetAt {
        windows := windows[key := Window(1, now + settings.windowMs)];
        return true;
      }
      var window := windows[key];
      if window.count >= settings.maxRequests { return false; }
      windows := windows[key := window.(count := window.count + 1)];
      ok := true;
    }
  }

  class NonceTracker {
    var seen: map<string, int>
    const settings: Settings

    constructor (settings: Settings)
      ensures this.settings == settings && seen == map[]
    {
      this.settings := settings;
      seen := map[];
    }

    method EvictExpired(now: int)
      modifies this
      ensures seen == old(Evict(settings, seen, now))
    {
      var cutoff := now - settings.nonceAgeMs;
      var rest := seen.Keys;
      while rest != {}
        invariant rest <= seen.Keys <= old(seen.Keys)
        invariant forall n :: n in seen ==> seen[n] == old(seen)[n]
        invariant forall n :: n in old(seen) && n !in rest ==> (n in seen <==> old(seen)[n] >= cutoff)
        decreases rest
      {
        var nonce :| nonce in rest;
        if seen[nonce] < cutoff { seen := seen - {nonce}; }
        rest := rest - {nonce};
      }
    }

    method Check(nonce: string, now: int) returns (isNew: bool)
      modifies this
      ensures (seen, isNew) == old(CheckNonce(settings, seen, nonce, now))
    {
      EvictExpired(now);
      if nonce in seen { return false; }
      seen := seen[nonce := now];
      isNew := true;
    }
  }

  class AgentEndpoint {
    const settings: Settings
    const rateLimiter: RateLimiter
    const nonceTracker: NonceTracker

    ghost predicate Valid()
    {
      rateLimiter.settings == settings && nonceTracker.settings == settings
    }

    ghost function Now(): State
      reads rateLimiter, nonceTracker
    {
      State(rateLimiter.windows, nonceTracker.seen)
    }

    constructor (settings: Settings)
      ensures Valid() && this.settings == settings && Now() == FRESH_STATE
    {
      this.settings := settings;
      rateLimiter := new RateLimiter(settings);
      nonceTracker := new NonceTracker(settings);
    }

    /** A message counts against the limit, and uses up its nonce, before its signature is looked at. */
    method VerifyIncoming(c: Call) returns (r: Result<(), Refusal>)
      requires Valid()
      modifies rateLimiter, nonceTracker
      ensures (Now(), r) == old(Incoming(settings, Now(), c))
    {
      var underLimit := rateLimiter.Check(c.m.from, c.now);
      if !underLimit { return Err(RateLimited); }
      var isNew := nonceTracker.Check(c.m.nonce, c.now);
      if !isNew { return Err(Replayed); }
      if c.key.None? { return Err(UnknownSender); }
      r := VerifyMessage(settings, c.m, c.key.value, c.now);
    }
  }

  // ---------- Runs ----------

  function Run(s: Settings, calls: seq<Call>): State {
    if calls == [] then FRESH_STATE else Incoming(s, Run(s, calls[..|calls| - 1]), calls[|calls| - 1]).0
  }

  /** The verdict on the i-th message of a run. */
  function Verdict(s: Settings, calls: seq<Call>, i: nat): Result<(), Refusal>
    requires i < |calls|
  {
    Incoming(s, Run(s, calls[..i]), calls[i]).1
  }

  ghost predicate ClockMonotone(calls: seq<Call>) {
    forall i, j :: 0 <= i <= j < |calls| ==> calls[i].now <= calls[j].now
  }

  // ---------- At-most-once admission ----------

  /** From its first admission on, a nonce stays recorded for as long as the nonce window lasts. */
  lemma {:induction false} NonceHeld(s: Settings, calls: seq<Call>, i: nat, k: nat)
    requires ClockMonotone(calls) && i < k <= |calls| && Verdict(s, calls, i).Ok?
    ensures var seen, nonce := Run(s, calls[..k]).seen, calls[i].m.nonce;
            calls[k - 1].now - calls[i].now <= s.nonceAgeMs ==> nonce in seen && seen[nonce] >= calls[i].now
  {
    assert calls[..k][..k - 1] == calls[..k - 1];
    assert Run(s, calls[..k]) == Incoming(s, Run(s, calls[..k - 1]), calls[k - 1]).0;
    if k > i + 1 {
      NonceHeld(s, calls, i, k - 1);
      assert calls[k - 2].now <= calls[k - 1].now;
    }
  }

  /** What an admitted message's timestamp says about the time of admission. */
  lemma AdmittedIsFresh(s: Settings, calls: seq<Call>, i: nat)
    requires i < |calls| && Verdict(s, calls, i).Ok?
    ensures calls[i].m.timestamp.Some?
    ensures var t := calls[i].m.timestamp.value;
            calls[i].now - s.messageAgeMs <= t <= calls[i].now + FUTURE_TOLERANCE_MS
  {}

  /** Main result: no message is admitted twice, as long as nonces are remembered at least as long as
      a timestamp can stay acceptable. */
  lemma AtMostOnce(s: Settings, calls: seq<Call>, i: nat, j: nat)
    requires ClockMonotone(calls) && i < j < |calls| && calls[i].m == calls[j].m
    requires s.nonceAgeMs >= s.messageAgeMs + FUTURE_TOLERANCE_MS
    ensures !(Verdict(s, calls, i).Ok? && Verdict(s, calls, j).Ok?)
  {
    if Verdict(s, calls, i).Ok? && Verdict(s, calls, j).Ok? {
      NonceHeld(s, calls, i, j);
      AdmittedIsFresh(s, calls, i);
      AdmittedIsFresh(s, calls, j);
      assert false;
    }
  }

  /** The constants in force leave four and a half minutes to spare. */
  lemma DefaultsSuffice(maxRequests: int, windowMs: int, verify: (Message, string) -> bool, calls: seq<Call>, i: nat,
                        j: nat)
    requires ClockMonotone(calls) && i < j < |calls| && calls[i].m == calls[j].m
    ensures var s := DefaultSettings(maxRequests, windowMs, verify);
            s.nonceAgeMs == 600_000 && s.messageAgeMs == 300_000 && FUTURE_TOLERANCE_MS == 30_000 &&
            !(Verdict(s, calls, i).Ok? && Verdict(s, calls, j).Ok?)
  {
    AtMostOnce(DefaultSettings(maxRequests, windowMs, verify), calls, i, j);
  }

  ghost predicate NeverTwice(s: Settings) {
    forall calls: seq<Call>, i: int, j: int ::
      ClockMonotone(calls) && 0 <= i < j < |calls| && calls[i].m == calls[j].m ==>
      !(Verdict(s, calls, i).Ok? && Verdict(s, calls, j).Ok?)
  }

  ghost predicate Wellformed(m: Message) {
    m.envelope == "atel.msg.v1" && m.from != "" && m.to != "" && m.typ != "" && m.nonce != "" && m.timestamp.Some?
  }

  /** How long after its first admission a timestamp can still be acceptable. */
  function Acceptable(s: Settings): int {
    s.messageAgeMs + FUTURE_TOLERANCE_MS
  }

  /** Nonces are remembered for as long as a timestamp can stay acceptable, or a sender has to wait for as
      long after every single request, or no timestamp is ever acceptable. */
  predicate WindowsCover(s: Settings) {
    s.nonceAgeMs >= Acceptable(s) || (s.maxRequests <= 1 && s.windowMs >= Acceptable(s)) || Acceptable(s) < 0
  }

  lemma {:induction false} WaitHeld(s: Settings, calls: seq<Call>, i: nat, k: nat)
    requires ClockMonotone(calls) && i < k <= |calls| && Verdict(s, calls, i).Ok?
    requires s.maxRequests <= 1 && s.windowMs >= 0
    ensures var windows, from := Run(s, calls[..k]).windows, calls[i].m.from;
            from in windows && windows[from].count >= 1 && windows[from].resetAt >= calls[i].now + s.windowMs
  {
    hide CheckNonce, VerifyMessage;
    assert calls[..k][..k - 1] == calls[..k - 1];
    assert Run(s, calls[..k]) == Incoming(s, Run(s, calls[..k - 1]), calls[k - 1]).0;
    if k == i + 1 {
      FirstOpens(s, calls, i);
    } else {
      WaitHeld(s, calls, i, k - 1);
      assert calls[i].now <= calls[k - 1].now;
    }
  }

  /** With a limit of one or less, every window that stands counts a request, so who passes opens one. */
  lemma {:induction false} WindowsStand(s: Settings, calls: seq<Call>, k: nat, key: string)
    requires k <= |calls|
    ensures var windows := Run(s, calls[..k]).windows; key in windows ==> windows[key].count >= 1
  {
    hide CheckNonce, VerifyMessage;
    if k > 0 {
      WindowsStand(s, calls, k - 1, key);
      assert calls[..k][..k - 1] == calls[..k - 1];
      assert Run(s, calls[..k]) == Incoming(s, Run(s, calls[..k - 1]), calls[k - 1]).0;
    }
  }

  lemma FirstOpens(s: Settings, calls: seq<Call>, i: nat)
    requires i < |calls| && Verdict(s, calls, i).Ok? && s.maxRequests <= 1
    ensures var windows, from := Incoming(s, Run(s, calls[..i]), calls[i]).0.windows, calls[i].m.from;
            from in windows && windows[from] == Window(1, calls[i].now + s.windowMs)
  {
    hide CheckNonce, VerifyMessage;
    WindowsStand(s, calls, i, calls[i].m.from);
  }

  /** A limit of one request per window keeps repeats out as well as nonces do. */
  lemma AtMostOnceByWaiting(s: Settings, calls: seq<Call>, i: nat, j: nat)
    requires ClockMonotone(calls) && i < j < |calls| && calls[i].m == calls[j].m
    requires s.maxRequests <= 1 && s.windowMs >= Acceptable(s) >= 0
    ensures !(Verdict(s, calls, i).Ok? && Verdict(s, calls, j).Ok?)
  {
    if Verdict(s, calls, i).Ok? && Verdict(s, calls, j).Ok? {
      WaitHeld(s, calls, i, j);
      AdmittedIsFresh(s, calls, i);
      AdmittedIsFresh(s, calls, j);
      assert false;
    }
  }

  lemma NoneAcceptable(s: Settings, calls: seq<Call>, i: nat)
    requires i < |calls| && Acceptable(s) < 0
    ensures Verdict(s, calls, i).Err?
  {}

  /** The earliest and the latest moment at which a message's timestamp is acceptable. */
  function EarliestAndLatest(s: Settings, m: Message, key: string): seq<Call>
    requires m.timestamp.Some?
  {
    var t := m.timestamp.value;
    [Call(m, t - FUTURE_TOLERANCE_MS, Some(key)), Call(m, t + s.messageAgeMs, Some(key))]
  }

  /** The condition is also necessary: otherwise any valid message can be sent once at the earliest moment
      its timestamp allows and again at the latest. */
  lemma ShortWindowAdmitsReplay(s: Settings, m: Message, key: string)
    requires Wellformed(m) && s.verify(m, key) && !WindowsCover(s)
    ensures var calls := EarliestAndLatest(s, m, key);
            ClockMonotone(calls) && Verdict(s, calls, 0).Ok? && Verdict(s, calls, 1).Ok?
  {
    var calls := EarliestAndLatest(s, m, key);
    var first, second := calls[0], calls[1];
    assert calls[..0] == [] && calls[..1] == [first];
    var st := Run(s, [first]);
    assert st == Incoming(s, FRESH_STATE, first).0 by { RunOfOne(s, first); }
    assert m.nonce !in Evict(s, st.seen, second.now);
  }

  lemma RunOfOne(s: Settings, c: Call)
    ensures Run(s, [c]) == Incoming(s, FRESH_STATE, c).0
  {
    assert [c][..|[c]| - 1] == [];
    assert Run(s, []) == FRESH_STATE;
  }

  /** Main result: replay protection holds over every run exactly when the constants satisfy the condition,
      whatever the limit. */
  lemma WindowsExact(s: Settings, m: Message, key: string)
    requires Wellformed(m) && s.verify(m, key)
    ensures NeverTwice(s) <==> WindowsCover(s)
  {
    hide Verdict;
    if WindowsCover(s) {
      forall calls: seq<Call>, i: int, j: int | ClockMonotone(calls) && 0 <= i < j < |calls| && calls[i].m == calls[j].m
        ensures !(Verdict(s, calls, i).Ok? && Verdict(s, calls, j).Ok?)
      {
        if s.nonceAgeMs >= Acceptable(s) {
          AtMostOnce(s, calls, i, j);
        } else if Acceptable(s) >= 0 {
          AtMostOnceByWaiting(s, calls, i, j);
        } else {
          NoneAcceptable(s, calls, i);
        }
      }
    } else {
      ShortWindowAdmitsReplay(s, m, key);
      var calls := EarliestAndLatest(s, m, key);
      assert calls[0].m == calls[1].m;
    }
  }

  // ---------- The rate bound ----------

  datatype Request = Request(key: string, now: int)

  function Windows(s: Settings, rs: seq<Request>): map<string, Window> {
    if rs == [] then map[]
    else CheckRate(s, Windows(s, rs[..|rs| - 1]), rs[|rs| - 1].key, rs[|rs| - 1].now).0
  }

  /** Whether the last request of a run is let through. */
  function LastPasses(s: Settings, rs: seq<Request>): bool
    requires rs != []
  {
    CheckRate(s, Windows(s, rs[..|rs| - 1]), rs[|rs| - 1].key, rs[|rs| - 1].now).1
  }

  /** How many requests under a key were let through between two moments, both included. */
  function Passed(s: Settings, rs: seq<Request>, key: string, since: int, until: int): nat {
    if rs == [] then 0
    else
      var r := rs[|rs| - 1];
      Passed(s, rs[..|rs| - 1], key, since, until) +
      (if r.key == key && since <= r.now <= until && LastPasses(s, rs) then 1 else 0)
  }

  ghost predicate Ordered(rs: seq<Request>) {
    forall i, j :: 0 <= i <= j < |rs| ==> rs[i].now <= rs[j].now
  }

  /** A limit below one still lets the first request of a window through. */
  function Limit(s: Settings): int {
    if s.maxRequests < 1 then 1 else s.maxRequests
  }

  ghost predicate NothingPassed(s: Settings, rs: seq<Request>, key: string) {
    forall a, b :: Passed(s, rs, key, a, b) == 0
  }

  /** A window counts exactly what was let through since it opened, the request that opened it included;
      nothing passed after its end, and of the window before it, the opening request is out of reach. */
  ghost predicate WindowCounts(s: Settings, rs: seq<Request>, key: string, w: Window, start: int, last: int) {
    start == w.resetAt - s.windowMs && 1 <= w.count <= Limit(s) && start <= last &&
    (forall b :: b >= last ==> Passed(s, rs, key, start, b) == w.count) &&
    (forall a, b :: a > w.resetAt ==> Passed(s, rs, key, a, b) == 0) &&
    (forall a, b :: a >= start ==> Passed(s, rs, key, a, b) <= w.count) &&
    (forall a, b :: a > start ==> Passed(s, rs, key, a, b) <= w.count - 1) &&
    (forall a, b :: a >= start - s.windowMs ==> Passed(s, rs, key, a, b) <= Limit(s) - 1 + w.count)
  }

  ghost predicate CurrentWindowCounts(s: Settings, rs: seq<Request>, key: string) {
    var windows := Windows(s, rs);
    if key !in windows then NothingPassed(s, rs, key)
    else
      rs != [] &&
      WindowCounts(s, rs, key, windows[key], windows[key].resetAt - s.windowMs, rs[|rs| - 1].now)
  }

  /** `rs` let through what `init` did and, if `passes`, one more at `now`. */
  ghost predicate Grows(s: Settings, init: seq<Request>, rs: seq<Request>, key: string, now: int, passes: bool) {
    forall a, b :: Passed(s, rs, key, a, b) == Passed(s, init, key, a, b) + (if passes && a <= now <= b then 1 else 0)
  }

  /** The effect of one more request on the counts under a key. */
  lemma PassedStep(s: Settings, init: seq<Request>, r: Request, key: string, a: int, b: int)
    ensures Passed(s, init + [r], key, a, b) ==
            Passed(s, init, key, a, b) +
            (if r.key == key && a <= r.now <= b && CheckRate(s, Windows(s, init), r.key, r.now).1 then 1 else 0)
    ensures Windows(s, init + [r]) == CheckRate(s, Windows(s, init), r.key, r.now).0
  {
    assert (init + [r])[..|init|] == init;
  }

  lemma RequestGrows(s: Settings, init: seq<Request>, r: Request, key: string)
    ensures Grows(s, init, init + [r], key, r.now, r.key == key && CheckRate(s, Windows(s, init), r.key, r.now).1)
  {
    hide Passed, Windows;
    forall a, b
      ensures Passed(s, init + [r], key, a, b) ==
              Passed(s, init, key, a, b) +
              (if r.key == key && a <= r.now <= b && CheckRate(s, Windows(s, init), r.key, r.now).1 then 1 else 0)
    {
      PassedStep(s, init, r, key, a, b);
    }
  }

  lemma NothingStays(s: Settings, init: seq<Request>, rs: seq<Request>, key: string, now: int)
    requires NothingPassed(s, init, key) && Grows(s, init, rs, key, now, false)
    ensures NothingPassed(s, rs, key)
  {
    hide Passed;
  }

  lemma FirstWindowOpens(s: Settings, init: seq<Request>, rs: seq<Request>, key: string, now: int)
    requires NothingPassed(s, init, key) && Grows(s, init, rs, key, now, true) && s.windowMs >= 0
    ensures WindowCounts(s, rs, key, Window(1, now + s.windowMs), now, now)
  {
    hide Passed;
  }

  lemma NextWindowOpens(s: Settings, init: seq<Request>, rs: seq<Request>, key: string, w: Window, start: int,
      last: int, now: int)
    requires WindowCounts(s, init, key, w, start, last) && Grows(s, init, rs, key, now, true) && s.windowMs >= 0
    requires last <= now && now > w.resetAt
    ensures WindowCounts(s, rs, key, Window(1, now + s.windowMs), now, now)
  {
    hide Passed;
  }

  lemma WindowFills(s: Settings, init: seq<Request>, rs: seq<Request>, key: string, w: Window, start: int,
      last: int, now: int)
    requires WindowCounts(s, init, key, w, start, last) && Grows(s, init, rs, key, now, true) && s.windowMs >= 0
    requires last <= now <= w.resetAt && w.count < s.maxRequests
    ensures WindowCounts(s, rs, key, Window(w.count + 1, w.resetAt), start, now)
  {
    hide Passed;
  }

  lemma WindowWaits(s: Settings, init: seq<Request>, rs: seq<Request>, key: string, w: Window, start: int,
      last: int, now: int)
    requires WindowCounts(s, init, key, w, start, last) && Grows(s, init, rs, key, now, false) && last <= now
    ensures WindowCounts(s, rs, key, w, start, now)
  {
    hide Passed;
  }

  /** What one more request does to the window under a key. */
  lemma WindowAfter(s: Settings, init: seq<Request>, r: Request, key: string) returns (passes: bool)
    ensures Grows(s, init, init + [r], key, r.now, passes)
    ensures var before, after := Windows(s, init), Windows(s, init + [r]);
            if key !in before then
              if r.key == key then passes && key in after && after[key] == Window(1, r.now + s.windowMs)
              else !passes && key !in after
            else
              key in after &&
              if r.key != key then !passes && after[key] == before[key]
              else if r.now > before[key].resetAt then passes && after[key] == Window(1, r.now + s.windowMs)
              else if before[key].count >= s.maxRequests then !passes && after[key] == before[key]
              else passes && after[key] == Window(before[key].count + 1, before[key].resetAt)
  {
    hide Passed, Windows, Grows;
    PassedStep(s, init, r, key, 0, 0);
    RequestGrows(s, init, r, key);
    passes := r.key == key && CheckRate(s, Windows(s, init), r.key, r.now).1;
  }

  lemma CurrentWindowStep(s: Settings, init: seq<Request>, r: Request, key: string)
    requires Ordered(init + [r]) && s.windowMs >= 0 && CurrentWindowCounts(s, init, key)
    ensures CurrentWindowCounts(s, init + [r], key)
  {
    var rs := init + [r];
    assert init != [] ==> rs[|init| - 1].now <= rs[|init|].now;
    assert rs[|rs| - 1] == r;
    hide Passed, Windows, WindowCounts, Limit, Ordered, Grows, NothingPassed, CheckRate;
    var passes := WindowAfter(s, init, r, key);
    var windows := Windows(s, init);
    if key !in windows {
      if passes {
        FirstWindowOpens(s, init, rs, key, r.now);
      } else {
        NothingStays(s, init, rs, key, r.now);
      }
    } else {
      var w, last := windows[key], init[|init| - 1].now;
      var start := w.resetAt - s.windowMs;
      if !passes {
        WindowWaits(s, init, rs, key, w, start, last, r.now);
      } else if r.now > w.resetAt {
        NextWindowOpens(s, init, rs, key, w, start, last, r.now);
      } else {
        WindowFills(s, init, rs, key, w, start, last, r.now);
      }
    }
  }

  lemma {:induction false} CurrentWindow(s: Settings, rs: seq<Request>, key: string)
    requires Ordered(rs) && s.windowMs >= 0
    ensures CurrentWindowCounts(s, rs, key)
  {
    if rs != [] {
      CurrentWindow(s, rs[..|rs| - 1], key);
      assert rs == rs[..|rs| - 1] + [rs[|rs| - 1]];
      CurrentWindowStep(s, rs[..|rs| - 1], rs[|rs| - 1], key);
    }
  }

  /** Main result: in any closed interval as long as the window, less than twice the limit gets through. */
  lemma {:induction false} RateBound(s: Settings, rs: seq<Request>, key: string, since: int)
    requires Ordered(rs) && s.windowMs >= 0
    ensures Passed(s, rs, key, since, since + s.windowMs) <= 2 * Limit(s) - 1
  {
    if rs != [] {
      RateBound(s, rs[..|rs| - 1], key, since);
      CurrentWindow(s, rs, key);
    }
  }

  /** One request opens a window, `n` more arrive at its very end, and `k` right after it. */
  function Burst(s: Settings, key: string, n: nat, k: nat): seq<Request> {
    if k > 0 then Burst(s, key, n, k - 1) + [Request(key, s.windowMs + 1)]
    else if n > 0 then Burst(s, key, n - 1, 0) + [Request(key, s.windowMs)]
    else [Request(key, 0)]
  }

  ghost predicate BurstFacts(s: Settings, key: string, rs: seq<Request>, last: int, w: Window, passed: nat) {
    Ordered(rs) && rs != [] && rs[|rs| - 1].now == last && key in Windows(s, rs) && Windows(s, rs)[key] == w &&
    Passed(s, rs, key, s.windowMs, s.windowMs + s.windowMs) == passed
  }

  lemma BurstGrows(s: Settings, key: string, rs: seq<Request>, last: int, w: Window, passed: nat, now: int)
    requires BurstFacts(s, key, rs, last, w, passed) && last <= now && s.windowMs <= now <= s.windowMs + s.windowMs
    requires now > w.resetAt || w.count < s.maxRequests
    ensures BurstFacts(s, key, rs + [Request(key, now)], now,
                       if now > w.resetAt then Window(1, now + s.windowMs) else Window(w.count + 1, w.resetAt),
                       passed + 1)
  {
    hide Passed, Windows;
    PassedStep(s, rs, Request(key, now), key, s.windowMs, s.windowMs + s.windowMs);
    var more := rs + [Request(key, now)];
    forall i, j | 0 <= i <= j < |more| ensures more[i].now <= more[j].now {
      assert i < |rs| ==> rs[i].now <= rs[|rs| - 1].now;
    }
  }

  lemma BurstStart(s: Settings, key: string)
    requires s.windowMs >= 1
    ensures BurstFacts(s, key, [Request(key, 0)], 0, Window(1, s.windowMs), 0)
  {
    hide Passed, Windows;
    PassedStep(s, [], Request(key, 0), key, s.windowMs, s.windowMs + s.windowMs);
    assert [] + [Request(key, 0)] == [Request(key, 0)];
    NothingYet(s, key);
  }

  lemma NothingYet(s: Settings, key: string)
    ensures Windows(s, []) == map[] && Passed(s, [], key, s.windowMs, s.windowMs + s.windowMs) == 0
  {}

  lemma {:induction false} BurstCounts(s: Settings, key: string, n: nat, k: nat)
    requires s.windowMs >= 1 && n < Limit(s) && k <= Limit(s)
    ensures BurstFacts(s, key, Burst(s, key, n, k),
                       if k > 0 then s.windowMs + 1 else if n > 0 then s.windowMs else 0,
                       if k > 0 then Window(k, s.windowMs + 1 + s.windowMs) else Window(n + 1, s.windowMs), n + k)
  {
    hide BurstFacts;
    if k > 0 {
      BurstCounts(s, key, n, k - 1);
      BurstGrows(s, key, Burst(s, key, n, k - 1),
                 if k > 1 then s.windowMs + 1 else if n > 0 then s.windowMs else 0,
                 if k > 1 then Window(k - 1, s.windowMs + 1 + s.windowMs) else Window(n + 1, s.windowMs),
                 n + k - 1, s.windowMs + 1);
    } else if n > 0 {
      BurstCounts(s, key, n - 1, 0);
      BurstGrows(s, key, Burst(s, key, n - 1, 0), if n > 1 then s.windowMs else 0, Window(n, s.windowMs),
                 n - 1, s.windowMs);
    } else {
      BurstStart(s, key);
    }
  }

  /** The bound is reached. */
  lemma RateBoundTight(s: Settings, key: string)
    requires s.windowMs >= 1
    ensures var rs := Burst(s, key, Limit(s) - 1, Limit(s));
            Ordered(rs) && Passed(s, rs, key, s.windowMs, s.windowMs + s.windowMs) == 2 * Limit(s) - 1
  {
    hide Burst, Passed, Windows, Ordered;
    BurstCounts(s, key, Limit(s) - 1, Limit(s));
  }

  function Requests(calls: seq<Call>): seq<Request> {
    seq(|calls|, i requires 0 <= i < |calls| => Request(calls[i].m.from, calls[i].now))
  }

  /** How many messages of a sender an endpoint admitted between two moments, both included. */
  function Admitted(s: Settings, calls: seq<Call>, from: string, since: int, until: int): nat {
    if calls == [] then 0
    else
      var c := calls[|calls| - 1];
      Admitted(s, calls[..|calls| - 1], from, since, until) +
      (if c.m.from == from && since <= c.now <= until && Verdict(s, calls, |calls| - 1).Ok? then 1 else 0)
  }

  lemma {:induction false} AdmittedPassed(s: Settings, calls: seq<Call>, from: string, since: int, until: int)
    ensures Run(s, calls).windows == Windows(s, Requests(calls))
    ensures Admitted(s, calls, from, since, until) <= Passed(s, Requests(calls), from, since, until)
  {
    hide CheckRate, CheckNonce, VerifyMessage;
    if calls != [] {
      AdmittedPassed(s, calls[..|calls| - 1], from, since, until);
      var rs := Requests(calls);
      assert rs[..|rs| - 1] == Requests(calls[..|calls| - 1]);
      assert rs[|rs| - 1] == Request(calls[|calls| - 1].m.from, calls[|calls| - 1].now);
    }
  }

  /** The bound carries over to the messages that an endpoint admits from one sender. */
  lemma AdmissionRateBound(s: Settings, calls: seq<Call>, from: string, since: int)
    requires ClockMonotone(calls) && s.windowMs >= 0
    ensures Admitted(s, calls, from, since, since + s.windowMs) <= 2 * Limit(s) - 1
  {
    AdmittedPassed(s, calls, from, since, since + s.windowMs);
    RateBound(s, Requests(calls), from, since);
  }
}

/** The local trust score of `src/score/index.ts`, over real arithmetic: the formula with its penalties
    and cold-start caps, and the rounding to two decimals. */
module Score {
  import opened Common
  import opened Policy
  import opened Reals

  datatype ProofRecord = ProofRecord(
    executor: string,
    txHash: string,
    traceRoot: string,
    success: bool,
    riskLevel: RiskLevel,
    policyViolations: int,
    verified: bool)

  datatype Summary = Summary(
    executor: string,
    taskId: string,
    riskLevel: RiskLevel,
    success: bool,
    durationMs: int,
    policyViolations: int)

  // ---------- Tallies ----------

  function Count<T>(s: seq<T>, p: T -> bool): (n: nat)
    ensures n <= |s|
  {
    if s == [] then 0 else Count(s[..|s| - 1], p) + if p(s[|s| - 1]) then 1 else 0
  }

  function Sum<T>(s: seq<T>, f: T -> int): int {
    if s == [] then 0 else Sum(s[..|s| - 1], f) + f(s[|s| - 1])
  }

  /** What the score depends on. */
  datatype Tally = Tally(total: nat, successes: nat, highRiskSuccesses: nat, violations: int, verified: nat)

  predicate Risky(r: RiskLevel) {
    r == High || r == Critical
  }

  predicate IsVerified(r: ProofRecord) { r.verified }

  predicate Succeeded(r: ProofRecord) { r.success }

  predicate RiskySuccess(r: ProofRecord) { Risky(r.riskLevel) && r.success }

  function Violations(r: ProofRecord): int { r.policyViolations }

  predicate SummarySucceeded(s: Summary) { s.success }

  predicate SummaryRiskySuccess(s: Summary) { Risky(s.riskLevel) && s.success }

  function SummaryViolations(s: Summary): int { s.policyViolations }

  function OfProofs(records: seq<ProofRecord>): Tally {
    Tally(|records|, Count(records, Succeeded), Count(records, RiskySuccess), Sum(records, Violations),
          Count(records, IsVerified))
  }

  /** Summaries are reported by the agent itself: none counts as verified. */
  function OfSummaries(summaries: seq<Summary>): Tally {
    Tally(|summaries|, Count(summaries, SummarySucceeded), Count(summaries, SummaryRiskySuccess),
          Sum(summaries, SummaryViolations), 0)
  }

  // ---------- The formula ----------

  function Ratio(part: int, total: nat): real
    requires total > 0
  {
    part as real / total as real
  }

  function Raw(t: Tally): real
    requires t.total > 0
  {
    Ratio(t.successes, t.total) * 60.0 + Min(t.total as real / 100.0, 1.0) * 15.0 +
    Ratio(t.highRiskSuccesses, t.total) * 15.0 + (1.0 - Min(Ratio(t.violations, t.total), 1.0)) * 10.0
  }

  function Penalized(raw: real, total: nat, verified: nat): real {
    if total >= 3 && Ratio(verified, total) < 0.5
    then raw * (if total >= 10 then 0.7 else 0.85)
    else raw
  }

  function Capped(score: real, total: nat): real {
    if total < 5 then Min(score, 55.0)
    else if total < 10 then Min(score, 65.0)
    else if total < 20 then Min(score, 75.0)
    else score
  }

  /** `Math.round(x * 100) / 100`. */
  function Rounded(x: real): real {
    (x * 100.0 + 0.5).Floor as real / 100.0
  }

  function TrustScore(t: Tally): real
    requires t.total > 0
  {
    Rounded(Min(100.0, Max(0.0, Capped(Penalized(Raw(t), t.total, t.verified), t.total))))
  }

  /** The numbers a tally of any records keeps. */
  ghost predicate Sensible(t: Tally) {
    t.total > 0 && t.successes <= t.total && t.highRiskSuccesses <= t.total
  }

  // ---------- Bounds ----------

  lemma RatioMonotone(a: int, b: int, n: nat)
    requires n > 0 && a <= b
    ensures Ratio(a, n) <= Ratio(b, n)
  {
    var x, y, z := a as real, b as real, n as real;
    assert y / z - x / z == (y - x) / z;
  }

  lemma RawBounds(t: Tally)
    requires Sensible(t)
    ensures Raw(t) >= 0.0
    ensures t.violations >= 0 ==> Raw(t) <= 100.0
  {
    RatioInUnit(t.successes as real, t.total as real);
    RatioInUnit(t.highRiskSuccesses as real, t.total as real);
    if t.violations >= 0 { RatioMonotone(0, t.violations, t.total); }
    hide Ratio;
  }

  lemma RoundMonotone(x: real, y: real)
    requires x <= y
    ensures Rounded(x) <= Rounded(y)
  {
    assert (x * 100.0 + 0.5).Floor <= (y * 100.0 + 0.5).Floor;
  }

  lemma RoundInteger(n: int)
    ensures Rounded(n as real) == n as real
  {
    assert (n as real * 100.0 + 0.5).Floor == n * 100;
  }

  lemma RoundAtMost(x: real, n: int)
    requires x <= n as real
    ensures Rounded(x) <= n as real
  {
    RoundMonotone(x, n as real);
    RoundInteger(n);
  }

  lemma RoundAtLeastZero(x: real)
    requires x >= 0.0
    ensures Rounded(x) >= 0.0
  {
    RoundMonotone(0.0, x);
    RoundInteger(0);
  }

  /** The ceiling an agent with `total` tasks cannot pass. */
  function Ceiling(total: nat): int {
    if total < 5 then 55 else if total < 10 then 65 else if total < 20 then 75 else 100
  }

  lemma ScoreBounds(t: Tally)
    requires Sensible(t)
    ensures 0.0 <= TrustScore(t) <= Ceiling(t.total) as real
  {
    hide Rounded, Raw, Penalized;
    RoundAtLeastZero(Min(100.0, Max(0.0, Capped(Penalized(Raw(t), t.total, t.verified), t.total))));
    RoundAtMost(Min(100.0, Max(0.0, Capped(Penalized(Raw(t), t.total, t.verified), t.total))), Ceiling(t.total));
  }

  lemma NoneVerified(total: nat)
    requires total > 0
    ensures Ratio(0, total) < 0.5
  {}

  /** Nothing verified: never above 70, and above 65 only from ten tasks on. */
  lemma UnverifiedBound(t: Tally)
    requires Sensible(t) && t.violations >= 0 && t.verified == 0
    ensures TrustScore(t) <= 70.0
    ensures t.total < 10 ==> TrustScore(t) <= 65.0
  {
    RawBounds(t);
    NoneVerified(t.total);
    hide Rounded, Raw, Ratio;
    var capped := Capped(Penalized(Raw(t), t.total, 0), t.total);
    assert capped <= 70.0;
    RoundAtMost(Min(100.0, Max(0.0, capped)), 70);
    if t.total < 10 { RoundAtMost(Min(100.0, Max(0.0, capped)), 65); }
  }

  /** Main result: every score respects the range and the cold-start caps, whatever the violation counts. */
  lemma ScoresBounded(records: seq<ProofRecord>, summaries: seq<Summary>)
    ensures records != [] ==> 0.0 <= TrustScore(OfProofs(records)) <= Ceiling(|records|) as real
    ensures summaries != [] ==> 0.0 <= TrustScore(OfSummaries(summaries)) <= Ceiling(|summaries|) as real
  {
    hide TrustScore;
    if records != [] { ScoreBounds(OfProofs(records)); }
    if summaries != [] { ScoreBounds(OfSummaries(summaries)); }
  }

  /** Summaries whose violation counts are not negative never give more than 70. */
  lemma LegacyBounded(summaries: seq<Summary>)
    requires summaries != [] && forall s :: s in summaries ==> s.policyViolations >= 0
    ensures TrustScore(OfSummaries(summaries)) <= 70.0
  {
    SumNonNegative(summaries, SummaryViolations);
    UnverifiedBound(OfSummaries(summaries));
  }

  /** Whatever summaries are submitted with counts of at least `least`, they score 70 at most. */
  ghost predicate LegacyBoundHolds(least: int) {
    forall summaries: seq<Summary> ::
      summaries != [] && (forall s :: s in summaries ==> s.policyViolations >= least) ==>
        TrustScore(OfSummaries(summaries)) <= 70.0
  }

  /** Main result: the bound on self-reported summaries holds exactly as long as counts below zero are
      kept out, which the program leaves to its callers. */
  lemma LegacyBoundExact(least: int)
    ensures LegacyBoundHolds(least) <==> least >= 0
  {
    if least >= 0 {
      forall summaries: seq<Summary> | summaries != [] && forall s :: s in summaries ==> s.policyViolations >= least
        ensures TrustScore(OfSummaries(summaries)) <= 70.0
      {
        LegacyBounded(summaries);
      }
    } else {
      var summaries := Claims(-1);
      ClaimsScore();
      assert forall s :: s in summaries ==> s.policyViolations >= least;
      assert !LegacyBoundHolds(least);
    }
  }

  /** A hundred successful high-risk tasks, as an agent may report them, each with this violation count. */
  function Claims(violations: int): seq<Summary> {
    seq(100, _ => Summary("did:atel:a", "t", High, true, 0, violations))
  }

  lemma ClaimsTally(violations: int)
    ensures OfSummaries(Claims(violations)) == Tally(100, 100, 100, 100 * violations, 0)
  {
    CountFirst(Claims(violations), SummarySucceeded, 100);
    CountFirst(Claims(violations), SummaryRiskySuccess, 100);
    SumConstant(Claims(violations), SummaryViolations, violations);
  }

  /** Without violations they reach the bound, and with negative counts they pass it. */
  lemma ClaimsScore()
    ensures TrustScore(OfSummaries(Claims(0))) == 70.0 && TrustScore(OfSummaries(Claims(-1))) == 77.0
  {
    ClaimsTally(0);
    ClaimsTally(-1);
    hide Claims, OfSummaries;
    assert Ratio(100, 100) == 1.0 && Ratio(-100, 100) == -1.0 && Ratio(0, 100) == 0.0;
    assert Raw(Tally(100, 100, 100, 0, 0)) == 100.0 && Raw(Tally(100, 100, 100, -100, 0)) == 110.0;
    hide Raw, Ratio, Rounded;
    assert Penalized(100.0, 100, 0) == 70.0 && Penalized(110.0, 100, 0) == 77.0;
    RoundInteger(70);
    RoundInteger(77);
  }

  lemma {:induction false} CountFirst<T>(s: seq<T>, p: T -> bool, n: nat)
    requires n <= |s| && forall i :: 0 <= i < |s| ==> (p(s[i]) <==> i < n)
    ensures Count(s, p) == n
  {
    if s != [] { CountFirst(s[..|s| - 1], p, if n == |s| then n - 1 else n); }
  }

  lemma {:induction false} SumConstant<T>(s: seq<T>, f: T -> int, v: int)
    requires forall x :: x in s ==> f(x) == v
    ensures Sum(s, f) == |s| * v
  {
    if s != [] { SumConstant(s[..|s| - 1], f, v); }
  }

  /** As good as a task can be. */
  predicate Flawless(r: ProofRecord) {
    r.success && r.verified && Risky(r.riskLevel) && r.policyViolations == 0
  }

  lemma WholeAndNone(n: nat)
    requires n > 0
    ensures Ratio(n, n) == 1.0 && Ratio(0, n) == 0.0
  {
    assert n as real / n as real == 1.0;
  }

  lemma FlawlessTally(n: nat)
    requires n > 0
    ensures n < 20 || n >= 100 ==> TrustScore(Tally(n, n, n, 0, n)) == Ceiling(n) as real
    ensures 20 <= n < 100 ==> TrustScore(Tally(n, n, n, 0, n)) == Rounded(85.0 + n as real * 0.15)
  {
    WholeAndNone(n);
    hide Ratio, Rounded;
    RoundInteger(Ceiling(n));
  }

  /** The caps are reached: a flawless agent sits on its ceiling up to nineteen tasks and from one hundred on. */
  lemma FlawlessScore(records: seq<ProofRecord>)
    requires records != [] && forall r :: r in records ==> Flawless(r)
    ensures var n := |records|;
            (n < 20 || n >= 100 ==> TrustScore(OfProofs(records)) == Ceiling(n) as real) &&
            (20 <= n < 100 ==> TrustScore(OfProofs(records)) == Rounded(85.0 + n as real * 0.15))
  {
    var n := |records|;
    assert forall i :: 0 <= i < n ==> Flawless(records[i]);
    CountFirst(records, Succeeded, n);
    CountFirst(records, RiskySuccess, n);
    CountFirst(records, IsVerified, n);
    SumConstant(records, Violations, 0);
    assert OfProofs(records) == Tally(n, n, n, 0, n);
    hide TrustScore, Rounded;
    FlawlessTally(n);
  }

  lemma {:induction false} SumNonNegative<T>(s: seq<T>, f: T -> int)
    requires forall x :: x in s ==> f(x) >= 0
    ensures Sum(s, f) >= 0
  {
    if s != [] { SumNonNegative(s[..|s| - 1], f); }
  }

  // ---------- Monotonicity ----------

  /** `b` is `a` with some tasks successful instead of failed, verified instead of not, riskier, or with
      fewer violations. */
  ghost predicate RecordImproves(a: ProofRecord, b: ProofRecord) {
    (a.success ==> b.success) && (a.verified ==> b.verified) && (Risky(a.riskLevel) ==> Risky(b.riskLevel)) &&
    b.policyViolations <= a.policyViolations
  }

  ghost predicate Improves(before: seq<ProofRecord>, after: seq<ProofRecord>) {
    |before| == |after| && forall i :: 0 <= i < |after| ==> RecordImproves(before[i], after[i])
  }

  ghost predicate NoWorse(t: Tally, u: Tally) {
    t.total == u.total && t.successes <= u.successes && t.highRiskSuccesses <= u.highRiskSuccesses &&
    t.violations >= u.violations && t.verified <= u.verified
  }

  lemma {:induction false} CountMonotone<T>(s: seq<T>, u: seq<T>, p: T -> bool)
    requires |s| == |u| && forall i :: 0 <= i < |s| ==> p(s[i]) ==> p(u[i])
    ensures Count(s, p) <= Count(u, p)
  {
    if s != [] { CountMonotone(s[..|s| - 1], u[..|u| - 1], p); }
  }

  lemma {:induction false} SumMonotone<T>(s: seq<T>, u: seq<T>, f: T -> int)
    requires |s| == |u| && forall i :: 0 <= i < |s| ==> f(s[i]) <= f(u[i])
    ensures Sum(s, f) <= Sum(u, f)
  {
    if s != [] { SumMonotone(s[..|s| - 1], u[..|u| - 1], f); }
  }

  lemma TallyMonotone(before: seq<ProofRecord>, after: seq<ProofRecord>)
    requires Improves(before, after)
    ensures NoWorse(OfProofs(before), OfProofs(after))
  {
    hide Count, Sum;
    CountMonotone(before, after, Succeeded);
    CountMonotone(before, after, RiskySuccess);
    CountMonotone(before, after, IsVerified);
    SumMonotone(after, before, Violations);
  }

  lemma RawMonotone(t: Tally, u: Tally)
    requires Sensible(t) && NoWorse(t, u)
    ensures Raw(t) <= Raw(u)
  {
    RatioMonotone(t.successes, u.successes, t.total);
    RatioMonotone(t.highRiskSuccesses, u.highRiskSuccesses, t.total);
    RatioMonotone(u.violations, t.violations, t.total);
    hide Ratio;
  }

  lemma PenaltyMonotone(raw: real, better: real, total: nat, verified: nat, more: nat)
    requires 0.0 <= raw <= better && verified <= more
    ensures 0.0 <= Penalized(raw, total, verified) <= Penalized(better, total, more)
  {
    if total > 0 { RatioMonotone(verified, more, total); }
    hide Ratio;
  }

  lemma CapMonotone(x: real, y: real, total: nat)
    requires x <= y
    ensures Rounded(Min(100.0, Max(0.0, Capped(x, total)))) <= Rounded(Min(100.0, Max(0.0, Capped(y, total))))
  {
    hide Rounded;
    RoundMonotone(Min(100.0, Max(0.0, Capped(x, total))), Min(100.0, Max(0.0, Capped(y, total))));
  }

  lemma TallyScoreMonotone(t: Tally, u: Tally)
    requires Sensible(t) && NoWorse(t, u)
    ensures u.total > 0 && TrustScore(t) <= TrustScore(u)
  {
    RawBounds(t);
    RawMonotone(t, u);
    PenaltyMonotone(Raw(t), Raw(u), t.total, t.verified, u.verified);
    CapMonotone(Penalized(Raw(t), t.total, t.verified), Penalized(Raw(u), t.total, u.verified), t.total);
  }

  /** Main result: a better history of the same length never scores lower. */
  lemma ScoreMonotone(before: seq<ProofRecord>, after: seq<ProofRecord>)
    requires before != [] && Improves(before, after)
    ensures after != [] && TrustScore(OfProofs(before)) <= TrustScore(OfProofs(after))
  {
    hide TrustScore;
    TallyMonotone(before, after);
    TallyScoreMonotone(OfProofs(before), OfProofs(after));
  }

  // ---------- One more task ----------

  lemma RatioGrows(part: nat, n: nat)
    requires n > 0 && part <= n
    ensures Ratio(part, n) <= Ratio(part + 1, n + 1)
  {
    var x, z := part as real, n as real;
    assert (x + 1.0) / (z + 1.0) - x / z == (z - x) / (z * (z + 1.0)) by {
      FractionGap(x, z);
    }
    assert (z - x) / (z * (z + 1.0)) >= 0.0 by { QuotientNonNegative(z - x, z * (z + 1.0)); }
  }

  lemma QuotientNonNegative(x: real, y: real)
    requires x >= 0.0 && y > 0.0
    ensures x / y >= 0.0
  {}

  lemma FractionGap(x: real, z: real)
    requires z > 0.0
    ensures z * (z + 1.0) > 0.0
    ensures (x + 1.0) / (z + 1.0) - x / z == (z - x) / (z * (z + 1.0))
  {
    var p, q := (x + 1.0) / (z + 1.0), x / z;
    assert p * (z + 1.0) == x + 1.0 && q * z == x;
    assert (p - q) * (z * (z + 1.0)) == (p * (z + 1.0)) * z - (q * z) * (z + 1.0);
    assert (x + 1.0) * z - x * (z + 1.0) == z - x;
  }

  lemma RatioShrinks(part: nat, n: nat)
    requires n > 0
    ensures Ratio(part, n + 1) <= Ratio(part, n)
  {
    var x, z := part as real, n as real;
    var p, q := x / (z + 1.0), x / z;
    assert p >= 0.0 by { QuotientNonNegative(x, z + 1.0); }
    assert p * (z + 1.0) == x && q * z == x;
    assert (q - p) * z == p;
    assert q >= p;
  }

  /** The tally after one more flawless task. */
  function WithFlawlessTask(t: Tally): Tally {
    Tally(t.total + 1, t.successes + 1, t.highRiskSuccesses + 1, t.violations, t.verified + 1)
  }

  lemma RawGrows(t: Tally)
    requires Sensible(t) && t.violations >= 0
    ensures Raw(t) <= Raw(WithFlawlessTask(t))
  {
    RatioGrows(t.successes, t.total);
    RatioGrows(t.highRiskSuccesses, t.total);
    RatioShrinks(t.violations, t.total);
    hide Ratio;
  }

  lemma HalfVerified(total: nat, verified: nat)
    requires total > 0
    ensures Ratio(verified, total) < 0.5 <==> 2 * verified < total
  {
    RatioTimes(verified, total);
    hide Ratio;
    ProductTest(Ratio(verified, total), total as real, verified as real);
    DoubledInt(verified, total);
  }

  lemma ProductTest(q: real, z: real, x: real)
    requires z > 0.0 && q * z == x
    ensures q < 0.5 <==> 2.0 * x < z
  {
    Doubled(q, z);
  }

  lemma DoubledInt(x: int, z: int)
    ensures 2.0 * x as real < z as real <==> 2 * x < z
  {
    assert (2 * x) as real == 2.0 * x as real;
  }

  lemma RatioTimes(part: int, total: nat)
    requires total > 0
    ensures Ratio(part, total) * total as real == part as real
  {}

  lemma Doubled(q: real, z: real)
    requires z > 0.0
    ensures q < 0.5 <==> 2.0 * (q * z) < z
  {
    assert 2.0 * (q * z) - z == (2.0 * q - 1.0) * z;
  }

  lemma CapLoosens(x: real, y: real, total: nat)
    requires x <= y
    ensures Rounded(Min(100.0, Max(0.0, Capped(x, total)))) <= Rounded(Min(100.0, Max(0.0, Capped(y, total + 1))))
  {
    hide Rounded;
    RoundMonotone(Min(100.0, Max(0.0, Capped(x, total))), Min(100.0, Max(0.0, Capped(y, total + 1))));
  }

  /** The one history length at which a flawless task can cost more than it gains: the tenth record
      brings the stronger penalty. */
  predicate AtThePenaltyStep(total: nat, verified: nat) {
    total == 9 && verified <= 3
  }

  /** Beyond two tasks, a further verified one brings no penalty that was not there. */
  lemma PenaltyStep(raw: real, better: real, total: nat, verified: nat)
    requires 0.0 <= raw <= better && (total >= 3 || total == 1 || verified > 0) && total > 0
    requires !AtThePenaltyStep(total, verified)
    ensures Penalized(raw, total, verified) <= Penalized(better, total + 1, verified + 1)
  {
    HalfVerified(total, verified);
    HalfVerified(total + 1, verified + 1);
    hide Ratio;
  }

  /** The third task brings a penalty; what it adds outweighs it as far as the cap of 55 lets one see. */
  lemma ThirdTask(t: Tally)
    requires Sensible(t) && t.total == 2 && t.violations >= 0 && t.highRiskSuccesses <= t.successes
    ensures Min(Raw(t), 55.0) <= 0.85 * Raw(WithFlawlessTask(t))
  {
    var u := WithFlawlessTask(t);
    RatioShrinks(t.violations, 2);
    RatioMonotone(0, t.violations, 2);
    assert Ratio(t.successes, 2) == t.successes as real * 0.5;
    assert Ratio(t.highRiskSuccesses, 2) == t.highRiskSuccesses as real * 0.5;
    RatioTimes(u.successes, 3);
    RatioTimes(u.highRiskSuccesses, 3);
    RatioTimes(0, 2);
    hide Ratio;
    assert t.successes == 0 || t.successes == 1 || t.successes == 2;
  }

  lemma FlawlessTaskNeverLowers(t: Tally)
    requires Sensible(t) && t.violations >= 0 && t.highRiskSuccesses <= t.successes
    requires !AtThePenaltyStep(t.total, t.verified)
    ensures TrustScore(t) <= TrustScore(WithFlawlessTask(t))
  {
    var u := WithFlawlessTask(t);
    RawBounds(t);
    RawGrows(t);
    if t.total == 2 && t.verified == 0 {
      ThirdTask(t);
      HalfVerified(3, 1);
      hide Raw, Ratio, Rounded;
      CapLoosens(Min(Raw(t), 55.0), 0.85 * Raw(u), 2);
    } else {
      PenaltyStep(Raw(t), Raw(u), t.total, t.verified);
      hide Raw, Ratio, Rounded, Penalized;
      CapLoosens(Penalized(Raw(t), t.total, t.verified), Penalized(Raw(u), u.total, u.verified), t.total);
    }
  }

  lemma FlawlessTaskLowers(verified: nat)
    requires verified <= 3
    ensures TrustScore(Tally(9, 9, 9, 0, verified)) == 65.0
    ensures TrustScore(Tally(10, 10, 10, 0, verified + 1)) <= 61.0
  {
    HalfVerified(9, verified);
    HalfVerified(10, verified + 1);
    WholeAndNone(9);
    WholeAndNone(10);
    hide Ratio, Rounded;
    assert Raw(Tally(9, 9, 9, 0, verified)) == 86.35 && Raw(Tally(10, 10, 10, 0, verified + 1)) == 86.5;
    RoundAtMost(60.55, 61);
    RoundInteger(65);
  }

  /** What a store can hold for one agent: its own records, each of another transaction. */
  ghost predicate Storable(records: seq<ProofRecord>, executor: string) {
    executor != "" &&
    (forall i :: 0 <= i < |records| ==> records[i].executor == executor && records[i].txHash != "") &&
    forall i, j :: 0 <= i < j < |records| ==> records[i].txHash != records[j].txHash
  }

  /** Stored records of which so many are verified, none with a negative count. */
  ghost predicate HasHistory(records: seq<ProofRecord>, executor: string, total: nat, verified: nat) {
    Storable(records, executor) && |records| == total && Count(records, IsVerified) == verified &&
    forall r :: r in records ==> r.policyViolations >= 0
  }

  lemma {:induction false} CountImplies<T>(s: seq<T>, p: T -> bool, q: T -> bool)
    requires forall x :: p(x) ==> q(x)
    ensures Count(s, p) <= Count(s, q)
  {
    if s != [] { CountImplies(s[..|s| - 1], p, q); }
  }

  lemma OfProofsAppend(records: seq<ProofRecord>, r: ProofRecord)
    requires Flawless(r)
    ensures OfProofs(records + [r]) == WithFlawlessTask(OfProofs(records))
  {
    assert (records + [r])[..|records|] == records;
  }

  lemma FlawlessRecordNeverLowers(records: seq<ProofRecord>, r: ProofRecord)
    requires records != [] && Flawless(r) && forall x :: x in records ==> x.policyViolations >= 0
    requires !AtThePenaltyStep(|records|, Count(records, IsVerified))
    ensures TrustScore(OfProofs(records)) <= TrustScore(OfProofs(records + [r]))
  {
    SumNonNegative(records, Violations);
    CountImplies(records, RiskySuccess, Succeeded);
    OfProofsAppend(records, r);
    hide TrustScore, Sum, Count;
    FlawlessTaskNeverLowers(OfProofs(records));
  }

  /** The text that tells the n-th transaction from the others. */
  function HashText(n: nat): string {
    seq(n + 1, _ => 'x')
  }

  function Sample(n: nat, success: bool, riskLevel: RiskLevel, verified: bool): ProofRecord {
    ProofRecord("did:atel:a", HashText(n), "root", success, riskLevel, 0, verified)
  }

  /** Tasks that are all successful and risky, or all failed and not; the first `verified` are verified. */
  function Samples(n: nat, success: bool, verified: nat): (records: seq<ProofRecord>)
    ensures |records| == n
    ensures forall i :: 0 <= i < n ==> records[i] == Sample(i, success, if success then High else Low, i < verified)
  {
    seq(n, i requires 0 <= i < n => Sample(i, success, if success then High else Low, i < verified))
  }

  lemma HashTextLength(n: nat)
    ensures |HashText(n)| == n + 1
  {}

  lemma SamplesStorable(n: nat, success: bool, verified: nat)
    ensures Storable(Samples(n, success, verified), "did:atel:a")
  {
    var records := Samples(n, success, verified);
    forall i | 0 <= i < n ensures records[i].executor == "did:atel:a" && |records[i].txHash| == i + 1 {
      assert records[i] == Sample(i, success, if success then High else Low, i < verified);
      HashTextLength(i);
    }
  }

  lemma SamplesTally(n: nat, success: bool, verified: nat)
    requires verified <= n
    ensures HasHistory(Samples(n, success, verified), "did:atel:a", n, verified)
    ensures var successes := if success then n else 0;
            OfProofs(Samples(n, success, verified)) == Tally(n, successes, successes, 0, verified)
  {
    var records, successes := Samples(n, success, verified), if success then n else 0;
    SamplesStorable(n, success, verified);
    hide Storable, HashText;
    assert forall i :: 0 <= i < n ==> records[i] == Sample(i, success, if success then High else Low, i < verified);
    CountFirst(records, Succeeded, successes);
    CountFirst(records, RiskySuccess, successes);
    CountFirst(records, IsVerified, verified);
    SumConstant(records, Violations, 0);
  }

  /** At the step, a history and a flawless tenth task that the store can hold and that drop the score. */
  lemma NineThenTen(verified: nat) returns (records: seq<ProofRecord>, r: ProofRecord)
    requires verified <= 3
    ensures HasHistory(records, "did:atel:a", 9, verified) && Flawless(r) && Storable(records + [r], "did:atel:a")
    ensures TrustScore(OfProofs(records)) > TrustScore(OfProofs(records + [r]))
  {
    records, r := Samples(9, true, verified), Sample(9, true, High, true);
    SamplesTally(9, true, verified);
    TenthStorable(verified);
    hide TrustScore, OfProofs, Storable, Samples, HasHistory;
    OfProofsAppend(records, r);
    FlawlessTaskLowers(verified);
  }

  lemma TenthStorable(verified: nat)
    ensures Storable(Samples(9, true, verified) + [Sample(9, true, High, true)], "did:atel:a")
  {
    var records := Samples(9, true, verified) + [Sample(9, true, High, true)];
    forall i | 0 <= i < 10 ensures records[i].executor == "did:atel:a" && |records[i].txHash| == i + 1 {
      assert records[i] == Sample(i, true, High, i < verified) || records[i] == Sample(i, true, High, true);
      HashTextLength(i);
    }
  }

  // ---------- Checking one record ----------

  /** A record after a check: it takes over the chain's answer, whatever it was before; without a provider,
      or if the provider throws, it stays as it is. */
  function Answered(r: ProofRecord, answer: Option<bool>): ProofRecord {
    match answer
    case Some(valid) => r.(verified := valid)
    case None => r
  }

  lemma {:induction false} CountUpdate<T>(s: seq<T>, i: nat, x: T, p: T -> bool)
    requires i < |s|
    ensures Count(s[i := x], p) == Count(s, p) - (if p(s[i]) then 1 else 0) + (if p(x) then 1 else 0)
  {
    var n := |s| - 1;
    if i < n {
      CountUpdate(s[..n], i, x, p);
      assert s[i := x][..n] == s[..n][i := x];
    } else {
      assert s[i := x][..n] == s[..n];
    }
  }

  lemma {:induction false} SumUpdate<T>(s: seq<T>, i: nat, x: T, f: T -> int)
    requires i < |s|
    ensures Sum(s[i := x], f) == Sum(s, f) - f(s[i]) + f(x)
  {
    var n := |s| - 1;
    if i < n {
      SumUpdate(s[..n], i, x, f);
      assert s[i := x][..n] == s[..n][i := x];
    } else {
      assert s[i := x][..n] == s[..n];
    }
  }

  lemma WithdrawnTally(records: seq<ProofRecord>, i: nat)
    requires i < |records| && records[i].verified
    ensures OfProofs(records).verified >= 1
    ensures var t := OfProofs(records);
            OfProofs(records[i := Answered(records[i], Some(false))]) == t.(verified := t.verified - 1)
  {
    var r := Answered(records[i], Some(false));
    CountUpdate(records, i, r, Succeeded);
    CountUpdate(records, i, r, RiskySuccess);
    CountUpdate(records, i, r, IsVerified);
    SumUpdate(records, i, r, Violations);
    hide Count, Sum;
  }

  /** One verified record less takes the history below one half verified. */
  predicate CrossesHalf(total: nat, verified: nat) {
    total >= 3 && total <= 2 * verified < total + 2
  }

  /** Whichever record of such a history loses its verification, the score does not fall. */
  ghost predicate WithdrawalHarmless(total: nat, verified: nat)
    requires total > 0
  {
    forall records: seq<ProofRecord>, executor: string, i: int
      | HasHistory(records, executor, total, verified) && 0 <= i < |records| && records[i].verified ::
      TrustScore(OfProofs(records)) <= TrustScore(OfProofs(records[i := Answered(records[i], Some(false))]))
  }

  lemma SamePenalty(t: Tally)
    requires t.total > 0 && t.verified > 0 && !CrossesHalf(t.total, t.verified)
    ensures TrustScore(t) == TrustScore(t.(verified := t.verified - 1))
  {
    HalfVerified(t.total, t.verified);
    HalfVerified(t.total, t.verified - 1);
    assert Raw(t) == Raw(t.(verified := t.verified - 1));
    hide Raw, Ratio, Rounded;
  }

  lemma RoundNear(x: real)
    ensures x - 0.005 < Rounded(x) <= x + 0.005
  {
    assert (x * 100.0 + 0.5).Floor as real <= x * 100.0 + 0.5;
  }

  lemma WithdrawalLowers(n: nat, verified: nat)
    requires CrossesHalf(n, verified)
    ensures TrustScore(Tally(n, 0, 0, 0, verified)) > TrustScore(Tally(n, 0, 0, 0, verified - 1))
  {
    var t, u := Tally(n, 0, 0, 0, verified), Tally(n, 0, 0, 0, verified - 1);
    HalfVerified(n, verified);
    HalfVerified(n, verified - 1);
    WholeAndNone(n);
    assert 10.0 <= Raw(t) <= 25.0 && Raw(u) == Raw(t);
    hide Raw, Ratio, Rounded;
    RoundNear(Raw(t));
    RoundNear(Penalized(Raw(u), n, verified - 1));
  }

  lemma FailedThenWithdrawn(n: nat, verified: nat)
    requires CrossesHalf(n, verified) && verified <= n
    ensures !WithdrawalHarmless(n, verified)
  {
    var records, i := Samples(n, false, verified), verified - 1;
    SamplesTally(n, false, verified);
    assert records[i].verified;
    WithdrawnTally(records, i);
    WithdrawalLowers(n, verified);
    hide TrustScore, OfProofs, Samples, Storable;
    assert HasHistory(records, "did:atel:a", n, verified);
  }

  /** Main result: a check that withdraws a verification can lower a score exactly when it takes a history of
      three records or more from at least one half verified to below. */
  lemma WithdrawalExact(total: nat, verified: nat)
    requires 1 <= verified <= total
    ensures WithdrawalHarmless(total, verified) <==> !CrossesHalf(total, verified)
  {
    hide TrustScore, Storable;
    if CrossesHalf(total, verified) {
      FailedThenWithdrawn(total, verified);
    } else {
      forall records: seq<ProofRecord>, executor: string, i: int
        | HasHistory(records, executor, total, verified) && 0 <= i < |records| && records[i].verified
        ensures TrustScore(OfProofs(records)) <= TrustScore(OfProofs(records[i := Answered(records[i], Some(false))]))
      {
        WithdrawnTally(records, i);
        SamePenalty(OfProofs(records));
      }
    }
  }

  /** No check with this answer of a record with this flag ever lowers a score. */
  ghost predicate CheckNeverLowers(before: bool, answer: Option<bool>) {
    forall records: seq<ProofRecord>, executor: string, i: int
      | HasHistory(records, executor, |records|, Count(records, IsVerified)) && 0 <= i < |records| &&
        records[i].verified == before ::
      TrustScore(OfProofs(records)) <= TrustScore(OfProofs(records[i := Answered(records[i], answer)]))
  }

  /** Main result: the only checks that can lower a score are those that find a verified record missing. */
  lemma CheckExact(before: bool, answer: Option<bool>)
    ensures CheckNeverLowers(before, answer) <==> !(before && answer == Some(false))
  {
    hide TrustScore, Storable;
    if before && answer == Some(false) {
      WithdrawalExact(3, 2);
      var records: seq<ProofRecord>, executor: string, i: int
        :| HasHistory(records, executor, 3, 2) && 0 <= i < |records| && records[i].verified &&
           !(TrustScore(OfProofs(records)) <= TrustScore(OfProofs(records[i := Answered(records[i], Some(false))])));
      assert !CheckNeverLowers(before, answer);
    } else {
      forall records: seq<ProofRecord>, executor: string, i: int
        | HasHistory(records, executor, |records|, Count(records, IsVerified)) && 0 <= i < |records| &&
          records[i].verified == before
        ensures TrustScore(OfProofs(records)) <= TrustScore(OfProofs(records[i := Answered(records[i], answer)]))
      {
        ScoreMonotone(records, records[i := Answered(records[i], answer)]);
      }
    }
  }
}

/** The score of `src/score/index.ts` in numbers: what each kind of task is worth, and how summaries compare with
    proofs. */
module ScoreFormula {
  import opened Policy
  import opened Reals
  import opened Score

  /** Both factors of a product grow with it. */
  lemma RatioOf(part: int, total: nat)
    requires total > 0
    ensures Ratio(part, total) * total as real == part as real
  {
    RatioTimes(part, total);
  }

  /** Main result: the raw score, times the number of tasks: 60 for each success and 15 more for a risky one, 10 for
      each task less 10 for each violation as long as there are no more violations than tasks, and 15 for each task,
      in proportion until there are a hundred. */
  lemma RawInPoints(t: Tally)
    requires t.total > 0
    ensures Raw(t) * t.total as real ==
            60.0 * t.successes as real + 15.0 * t.highRiskSuccesses as real +
            10.0 * (t.total - if t.violations < t.total then t.violations else t.total) as real +
            (if t.total < 100 then 0.15 * t.total as real * t.total as real else 15.0 * t.total as real)
  {
    var n := t.total as real;
    RatioOf(t.successes, t.total);
    RatioOf(t.highRiskSuccesses, t.total);
    RatioOf(t.violations, t.total);
    ViolationShare(t);
    hide Ratio;
    var violated := Min(Ratio(t.violations, t.total), 1.0);
    assert Min(n / 100.0, 1.0) == if t.total < 100 then n * 0.01 else 1.0;
    hide Min;
    Distribute(Ratio(t.successes, t.total), Ratio(t.highRiskSuccesses, t.total), violated,
               if t.total < 100 then n * 0.01 else 1.0, n);
  }

  lemma Distribute(s: real, h: real, v: real, m: real, n: real)
    ensures (s * 60.0 + m * 15.0 + h * 15.0 + (1.0 - v) * 10.0) * n ==
            60.0 * (s * n) + 15.0 * (m * n) + 15.0 * (h * n) + 10.0 * n - 10.0 * (v * n)
  {}

  lemma ViolationShare(t: Tally)
    requires t.total > 0
    ensures Min(Ratio(t.violations, t.total), 1.0) * t.total as real ==
            (if t.violations < t.total then t.violations else t.total) as real
  {
    RatioOf(t.violations, t.total);
    if t.violations < t.total {
      RatioMonotone(t.violations, t.total, t.total);
    } else {
      RatioMonotone(t.total, t.violations, t.total);
    }
    WholeAndNone(t.total);
    hide Ratio;
  }

  /** What the verification of so many tasks leaves of a raw score. */
  lemma PenaltySpelledOut(raw: real, total: nat, verified: nat)
    ensures Penalized(raw, total, verified) ==
            if total < 3 || 2 * verified >= total then raw else if total < 10 then raw * 0.85 else raw * 0.7
  {
    if total > 0 { HalfVerified(total, verified); }
    hide Ratio;
  }

  /** Main result: the score is the number of hundredths nearest to the penalized raw score, or to its cap. */
  lemma ScoreSpelledOut(t: Tally)
    requires t.total > 0
    ensures var raw := Raw(t);
            var penalized := if t.total < 3 || 2 * t.verified >= t.total then raw
                             else if t.total < 10 then raw * 0.85 else raw * 0.7;
            var cap := if t.total < 5 then 55.0 else if t.total < 10 then 65.0
                       else if t.total < 20 then 75.0 else 100.0;
            var bounded := Max(0.0, Min(penalized, cap));
            bounded - 0.005 < TrustScore(t) <= bounded + 0.005 &&
            (TrustScore(t) * 100.0).Floor as real == TrustScore(t) * 100.0
  {
    PenaltySpelledOut(Raw(t), t.total, t.verified);
    hide Raw, Penalized, Ratio;
    var bounded := Max(0.0, Min(Penalized(Raw(t), t.total, t.verified), Ceiling(t.total) as real));
    assert Min(100.0, Max(0.0, Capped(Penalized(Raw(t), t.total, t.verified), t.total))) == bounded;
    RoundNear(bounded);
    assert TrustScore(t) == Rounded(bounded);
    WholeHundredths(bounded);
  }

  lemma WholeHundredths(x: real)
    ensures (Rounded(x) * 100.0).Floor as real == Rounded(x) * 100.0
  {
    assert Rounded(x) * 100.0 == (x * 100.0 + 0.5).Floor as real;
  }

  // ---------- What counts ----------

  /** The positions of a kind of record. */
  ghost function Where<T>(s: seq<T>, p: T -> bool): set<int> {
    set i | 0 <= i < |s| && p(s[i])
  }

  lemma {:induction false} CountIsPositions<T>(s: seq<T>, p: T -> bool)
    ensures Count(s, p) == |Where(s, p)|
  {
    if s == [] {
      assert Where(s, p) == {};
    } else {
      var n := |s| - 1;
      CountIsPositions(s[..n], p);
      assert Where(s, p) == Where(s[..n], p) + if p(s[n]) then {n} else {};
    }
  }

  /** Main result: the numbers on which a score depends, by the records themselves. */
  lemma TallySpelledOut(records: seq<ProofRecord>)
    ensures var t := OfProofs(records);
            t.total == |records| &&
            t.successes == |set i | 0 <= i < |records| && records[i].success| &&
            t.highRiskSuccesses ==
              |set i | 0 <= i < |records| && records[i].success && records[i].riskLevel in {High, Critical}| &&
            t.verified == |set i | 0 <= i < |records| && records[i].verified|
  {
    CountIsPositions(records, Succeeded);
    CountIsPositions(records, RiskySuccess);
    CountIsPositions(records, IsVerified);
    assert Where(records, Succeeded) == set i | 0 <= i < |records| && records[i].success;
    assert Where(records, RiskySuccess) ==
           set i | 0 <= i < |records| && records[i].success && records[i].riskLevel in {High, Critical};
    assert Where(records, IsVerified) == set i | 0 <= i < |records| && records[i].verified;
  }

  /** A summary seen as a proof that nobody has verified. */
  function AsProof(s: Summary): ProofRecord {
    ProofRecord(s.executor, s.taskId, "", s.success, s.riskLevel, s.policyViolations, false)
  }

  function AsProofs(summaries: seq<Summary>): seq<ProofRecord> {
    seq(|summaries|, i requires 0 <= i < |summaries| => AsProof(summaries[i]))
  }

  lemma {:induction false} CountsAlike<S, T>(s: seq<S>, t: seq<T>, p: S -> bool, q: T -> bool)
    requires |s| == |t| && forall i :: 0 <= i < |s| ==> p(s[i]) == q(t[i])
    ensures Count(s, p) == Count(t, q)
  {
    if s != [] { CountsAlike(s[..|s| - 1], t[..|t| - 1], p, q); }
  }

  lemma {:induction false} SumsAlike<S, T>(s: seq<S>, t: seq<T>, f: S -> int, g: T -> int)
    requires |s| == |t| && forall i :: 0 <= i < |s| ==> f(s[i]) == g(t[i])
    ensures Sum(s, f) == Sum(t, g)
  {
    if s != [] { SumsAlike(s[..|s| - 1], t[..|t| - 1], f, g); }
  }

  /** Main result: summaries score as the same tasks would as proofs that nobody has verified. */
  lemma SummariesScoreAsUnverified(summaries: seq<Summary>)
    ensures OfSummaries(summaries) == OfProofs(AsProofs(summaries))
  {
    var records := AsProofs(summaries);
    CountsAlike(summaries, records, SummarySucceeded, Succeeded);
    CountsAlike(summaries, records, SummaryRiskySuccess, RiskySuccess);
    SumsAlike(summaries, records, SummaryViolations, Violations);
    CountFirst(records, IsVerified, 0);
  }
}

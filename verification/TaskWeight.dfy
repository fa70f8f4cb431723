/** The weight of a task (`calculateTaskWeight` of `src/graph/index.ts`), over an abstract logarithm. */
module TaskWeights {
  import opened Reals

  datatype RiskFactor = LowRisk | MediumRisk | HighRisk | CriticalRisk | UnlistedRisk

  datatype TaskWeightParams = TaskWeightParams(toolCalls: int, durationMs: real, maxCost: real, risk: RiskFactor,
                                               similarTasks: int)

  /** From n to the natural logarithm of 1 + n, of which only the sign matters here. */
  type LogOnePlus = f: int -> real | forall n :: n >= 0 ==> f(n) >= 0.0
    ghost witness (n: int) => 0.0

  function RiskWeight(r: RiskFactor): real {
    match r
    case LowRisk => 0.5
    case MediumRisk => 1.0
    case HighRisk => 2.0
    case CriticalRisk => 3.0
    case UnlistedRisk => 1.0
  }

  function Complexity(p: TaskWeightParams): real {
    Min(1.0, p.toolCalls as real * 0.2 + p.durationMs / 10000.0 * 0.3)
  }

  function Novelty(similarTasks: int, log: LogOnePlus): real
    requires similarTasks >= 0
  {
    1.0 / (1.0 + log(similarTasks))
  }

  function Times(x: real, y: real): real { x * y }

  function TaskWeight(p: TaskWeightParams, log: LogOnePlus): real
    requires p.similarTasks >= 0
  {
    Times(Times(Times(Complexity(p), Min(1.0, p.maxCost / 10.0)), RiskWeight(p.risk)), Novelty(p.similarTasks, log))
  }

  lemma ReciprocalInUnit(l: real)
    requires l >= 0.0
    ensures 0.0 < 1.0 / (1.0 + l) <= 1.0
  {}

  /** A factor in the unit interval keeps a product between zero and its bound. */
  lemma UnitFactor(a: real, hi: real, b: real)
    requires 0.0 <= a <= hi && 0.0 <= b <= 1.0
    ensures 0.0 <= Times(a, b) <= hi
    ensures Times(a, b) > 0.0 <==> a > 0.0 && b > 0.0
  {
    assert a - a * b == a * (1.0 - b);
    ProductSign(a, 1.0 - b);
    ProductSign(a, b);
  }

  lemma ProductSign(x: real, y: real)
    requires x >= 0.0 && y >= 0.0
    ensures x * y >= 0.0
    ensures x * y > 0.0 <==> x > 0.0 && y > 0.0
  {
    if x > 0.0 && y > 0.0 { assert x * y > 0.0; }
  }

  lemma RiskFactorBounds(a: real, risk: real)
    requires 0.0 <= a <= 1.0 && risk > 0.0
    ensures 0.0 <= Times(a, risk) <= risk
    ensures Times(a, risk) > 0.0 <==> a > 0.0
  {
    assert risk - a * risk == (1.0 - a) * risk;
    ProductSign(1.0 - a, risk);
    ProductSign(a, risk);
  }

  lemma ComplexityInUnit(p: TaskWeightParams)
    requires p.toolCalls >= 0 && p.durationMs >= 0.0
    ensures 0.0 <= Complexity(p) <= 1.0
    ensures Complexity(p) > 0.0 <==> p.toolCalls > 0 || p.durationMs > 0.0
  {}

  lemma RiskWeightRange(r: RiskFactor)
    ensures 0.0 < RiskWeight(r) <= 3.0
  {}

  /** Main result: for non-negative measurements the weight is between zero and the risk factor, and it is
      zero exactly for a task without a price or without any activity; interactions so weighted are the
      ones on which the bounds of the trust graph rest. */
  lemma TaskWeightBounds(p: TaskWeightParams, log: LogOnePlus)
    requires p.toolCalls >= 0 && p.durationMs >= 0.0 && p.maxCost >= 0.0 && p.similarTasks >= 0
    ensures 0.0 <= TaskWeight(p, log) <= RiskWeight(p.risk) <= 3.0
    ensures TaskWeight(p, log) > 0.0 <==> p.maxCost > 0.0 && (p.toolCalls > 0 || p.durationMs > 0.0)
  {
    ReciprocalInUnit(log(p.similarTasks));
    ComplexityInUnit(p);
    hide Complexity, Novelty, RiskWeight;
    RiskWeightRange(p.risk);
    var value := Min(1.0, p.maxCost / 10.0);
    assert value > 0.0 <==> p.maxCost > 0.0;
    hide Min, Times;
    UnitFactor(Complexity(p), 1.0, value);
    RiskFactorBounds(Times(Complexity(p), value), RiskWeight(p.risk));
    UnitFactor(Times(Times(Complexity(p), value), RiskWeight(p.risk)), RiskWeight(p.risk),
               Novelty(p.similarTasks, log));
  }

  /** The example that the program documents: the complexity is full, the price counts for half, and two similar
      tasks divide by one plus the logarithm of three. */
  lemma DocumentedExample(log: LogOnePlus)
    ensures TaskWeight(TaskWeightParams(5, 8000.0, 5.0, MediumRisk, 2), log) == 0.5 * (1.0 / (1.0 + log(2)))
  {
    assert Complexity(TaskWeightParams(5, 8000.0, 5.0, MediumRisk, 2)) == 1.0;
  }

  /** Below the limits every measurement counts in proportion: a fifth for each tool call and three tenths for each
      ten seconds, a tenth for each unit of price, and the factor of the risk. */
  lemma WeightBelowLimits(p: TaskWeightParams, log: LogOnePlus)
    requires p.similarTasks >= 0 && p.maxCost <= 10.0
    requires p.toolCalls as real / 5.0 + p.durationMs * 0.00003 <= 1.0
    ensures var factor := match p.risk case LowRisk => 0.5 case HighRisk => 2.0 case CriticalRisk => 3.0 case _ => 1.0;
            TaskWeight(p, log) ==
            Times(Times(Times(p.toolCalls as real / 5.0 + p.durationMs * 0.00003, p.maxCost / 10.0), factor),
                  1.0 / (1.0 + log(p.similarTasks)))
  {
    hide Times;
    assert Complexity(p) == p.toolCalls as real / 5.0 + p.durationMs * 0.00003;
  }
}

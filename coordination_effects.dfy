/** The coordination effect of two agents: the ratio of their observed joint
    performance to the product of their independent baselines, and a
    four-way classification of that ratio. */
module CoordinationEffects {
  import opened Reports

  /** Classification thresholds, tested top-down with strict comparisons. */
  const HighlyBeneficialAbove: real := 1.2
  const BeneficialAbove: real := 1.0
  const DegradedAbove: real := 0.8

  const ZeroBaselineMessage: string := "Cannot calculate coordination effect with zero baseline"

  datatype Impact = HighlyBeneficial | Beneficial | Degraded | SeverelyDegraded

  datatype CoordinationResult = CoordinationResult(
    agentABaseline: real,
    agentBBaseline: real,
    expectedPerformance: real,
    observedPerformance: real,
    coordinationEffect: real,
    impactClassification: Impact,
    interactionPattern: string,
    performanceChangePercent: real)

  /** The label the source writes into "impact_classification". */
  function Label(impact: Impact): string {
    match impact
    case HighlyBeneficial => "highly_beneficial"
    case Beneficial => "beneficial"
    case Degraded => "degraded"
    case SeverelyDegraded => "severely_degraded"
  }

  /** Position of a classification on the scale from worst to best. */
  function Rank(impact: Impact): (k: nat)
    ensures k < 4
  {
    match impact
    case SeverelyDegraded => 0
    case Degraded => 1
    case Beneficial => 2
    case HighlyBeneficial => 3
  }

  /** The if/elif chain on gamma; each class is one interval of the reals. */
  function Classify(gamma: real): (impact: Impact)
    ensures impact == HighlyBeneficial <==> gamma > HighlyBeneficialAbove
    ensures impact == Beneficial <==> BeneficialAbove < gamma <= HighlyBeneficialAbove
    ensures impact == Degraded <==> DegradedAbove < gamma <= BeneficialAbove
    ensures impact == SeverelyDegraded <==> gamma <= DegradedAbove
  {
    if gamma > HighlyBeneficialAbove then HighlyBeneficial
    else if gamma > BeneficialAbove then Beneficial
    else if gamma > DegradedAbove then Degraded
    else SeverelyDegraded
  }

  /** Percent change of the observed performance relative to the expected one. */
  function PercentChange(gamma: real): (p: real)
    ensures gamma == 1.0 + p / 100.0
    ensures p > 0.0 <==> gamma > 1.0
    ensures p == 0.0 <==> gamma == 1.0
    ensures p < 0.0 <==> gamma < 1.0
  {
    (gamma - 1.0) * 100.0
  }

  /** CoordinationAnalyzer.calculate_coordination_effect. */
  function CalculateCoordinationEffect(agentABaseline: real, agentBBaseline: real,
                                       coordinatedPerformance: real,
                                       interactionPattern: string): (r: Report<CoordinationResult>)
    ensures r.Error? <==> agentABaseline == 0.0 || agentBBaseline == 0.0
    ensures r.Error? ==> r.message == ZeroBaselineMessage
    ensures r.Ok? ==>
      var res := r.value;
      && res.agentABaseline == agentABaseline
      && res.agentBBaseline == agentBBaseline
      && res.observedPerformance == coordinatedPerformance
      && res.interactionPattern == interactionPattern
      && res.expectedPerformance == agentABaseline * agentBBaseline != 0.0
      && res.coordinationEffect * res.expectedPerformance == coordinatedPerformance
      && res.impactClassification == Classify(res.coordinationEffect)
      && res.coordinationEffect == 1.0 + res.performanceChangePercent / 100.0
  {
    var expected := agentABaseline * agentBBaseline;
    if expected == 0.0 then
      Error(ZeroBaselineMessage)
    else
      var gamma := coordinatedPerformance / expected;
      Ok(CoordinationResult(
        agentABaseline, agentBBaseline, expected, coordinatedPerformance,
        gamma, Classify(gamma), interactionPattern, PercentChange(gamma)))
  }

  /** The four labels are distinct, so the classification is recoverable from the label. */
  lemma LabelInjective(x: Impact, y: Impact)
    ensures Label(x) == Label(y) <==> x == y
  {
  }

  /** A larger ratio never yields a worse classification. */
  lemma ClassifyMonotone(gamma1: real, gamma2: real)
    requires gamma1 <= gamma2
    ensures Rank(Classify(gamma1)) <= Rank(Classify(gamma2))
  {
  }

  /** A ratio exactly on a threshold falls into the lower class. */
  lemma ClassifyBoundaries()
    ensures Classify(1.2) == Beneficial
    ensures Classify(1.0) == Degraded
    ensures Classify(0.8) == SeverelyDegraded
  {
  }

  /** gamma > 1 means a benefit, gamma <= 1 a degradation. */
  lemma BeneficialIffAboveOne(gamma: real)
    ensures Rank(Classify(gamma)) >= 2 <==> gamma > 1.0
    ensures Rank(Classify(gamma)) >= 2 <==> PercentChange(gamma) > 0.0
  {
  }

  /** The ratio is determined by the inputs: it is the unique solution of
      gamma * expected == observed. */
  lemma EffectIsRatio(a: real, b: real, observed: real, pattern: string, gamma: real)
    requires a * b != 0.0
    requires gamma * (a * b) == observed
    ensures CalculateCoordinationEffect(a, b, observed, pattern).Ok?
    ensures CalculateCoordinationEffect(a, b, observed, pattern).value.coordinationEffect == gamma
  {
  }

  /** Baselines 0.85 and 0.80 with observed 0.88: expected 0.68, gamma 22/17,
      about 29.4 percent better, highly beneficial. */
  lemma ExampleHighlyBeneficial()
    ensures CalculateCoordinationEffect(0.85, 0.80, 0.88, "sequential")
         == Ok(CoordinationResult(0.85, 0.80, 0.68, 0.88, 22.0 / 17.0,
                                  HighlyBeneficial, "sequential", 500.0 / 17.0))
  {
  }

  /** Baselines 0.87 and 0.89 with observed 0.61: gamma is about 0.788,
      severely degraded. */
  lemma ExampleSeverelyDegraded(pattern: string)
    ensures CalculateCoordinationEffect(0.87, 0.89, 0.61, pattern).Ok?
    ensures CalculateCoordinationEffect(0.87, 0.89, 0.61, pattern).value.expectedPerformance == 0.7743
    ensures CalculateCoordinationEffect(0.87, 0.89, 0.61, pattern).value.coordinationEffect == 6100.0 / 7743.0
    ensures CalculateCoordinationEffect(0.87, 0.89, 0.61, pattern).value.impactClassification == SeverelyDegraded
  {
  }
}

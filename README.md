# CERT coordination observability: the two measurements

This project models, in Dafny, the two measurement rules at the core of the
CERT coordination-observability service:

- **Coordination effect** (`CoordinationAnalyzer.calculate_coordination_effect`,
  module `CoordinationEffects`). The expected joint performance of two agents is
  the product of their baselines. A zero product is answered with an error.
  Otherwise the ratio gamma = observed / expected is classified by the top-down
  chain `> 1.2`, `> 1.0`, `> 0.8`, else, and the percent change `(gamma - 1) * 100`
  is reported. The rule is pure and is modelled as functions over `real`.
- **Behavioural consistency** (`BehavioralAnalyzer.measure_consistency`, module
  `BehavioralAnalysis`). Fewer than two responses is an error. Otherwise a nested
  loop collects one semantic distance for every pair `i < j` of responses. The
  score is computed from the mean and the population standard deviation of those
  distances: `1.0` when the mean is 0, else `max(0, 1 - std/mean)`. The nested
  loop is a method with loop invariants, proved against a specification function.
  The guard, the statistics and the score are functions with lemmas.

Both analyzers return a dictionary that either holds the measurement or holds a
single `"error"` key. Module `Reports` models this as `Report<T> = Ok(value) | Error(message)`.

The embedding model and the cosine distance are one external capability. The
model takes it as a parameter `dist: (string, string) -> real`, applied to two
response texts. The square root inside `np.std` is a parameter too:
`sqrt: real -> real`. Properties about the standard deviation assume
`IsSquareRoot(sqrt)`: for every `v >= 0`, `sqrt(v) >= 0` and `sqrt(v) * sqrt(v) == v`.
Properties that bound the score assume non-negative distances, as cosine
distance is.

## Model

| member | source | states |
|---|---|---|
| CoordinationEffects.CalculateCoordinationEffect | cert/core/coordination_effects.py:31-57 | The result is an error exactly when a baseline is 0, and then carries only the zero-baseline message. Otherwise it echoes both baselines, the observed value and the interaction pattern unchanged; expected is the product of the baselines; gamma times expected equals observed; the class is the classification of gamma; gamma = 1 + percent/100. |
| CoordinationEffects.Classify | cert/core/coordination_effects.py:40-47 | Each class is one interval: highly beneficial iff gamma > 1.2, beneficial iff 1.0 < gamma <= 1.2, degraded iff 0.8 < gamma <= 1.0, severely degraded iff gamma <= 0.8. |
| CoordinationEffects.ClassifyMonotone | cert/core/coordination_effects.py:40-47 | A larger gamma never gives a lower-ranked class. |
| CoordinationEffects.ClassifyBoundaries | cert/core/coordination_effects.py:40-47 | A gamma of exactly 1.2, 1.0 or 0.8 falls into the lower class: beneficial, degraded, severely degraded. |
| CoordinationEffects.LabelInjective | cert/core/coordination_effects.py:40-47 | `Label` gives each class the string the source reports (its body holds the four strings of lines 41, 43, 45 and 47). Two classes have the same label only if they are the same class. |
| CoordinationEffects.PercentChange | cert/core/coordination_effects.py:57 | The percent change inverts to gamma = 1 + p/100. It is positive iff gamma > 1, zero iff gamma = 1, and negative iff gamma < 1. |
| CoordinationEffects.BeneficialIffAboveOne | cert/core/coordination_effects.py:7-10 | The class is beneficial or highly beneficial exactly when gamma > 1, which is exactly when the percent change is positive. |
| CoordinationEffects.EffectIsRatio | cert/core/coordination_effects.py:37 | For non-zero baselines, the reported effect is the unique gamma with gamma * (a * b) = observed. |
| CoordinationEffects.ExampleHighlyBeneficial | tests/test_performance.py:156-161 | Baselines 0.85 and 0.80 with observed 0.88 give expected 0.68, gamma 22/17, highly beneficial, and a percent change of 500/17 (about +29.4). |
| CoordinationEffects.ExampleSeverelyDegraded | experiments/autogen_test/autogen_cert_experiment.py:143-147 | Baselines 0.87 and 0.89 with observed 0.61 give expected 0.7743 and gamma 6100/7743 (about 0.788), severely degraded. |
| BehavioralAnalysis.MeasureConsistency | cert/core/behavioral_analysis.py:19-58 | The result is an error exactly when there are fewer than 2 responses, with the insufficient-responses message. Otherwise it echoes the agent id and prompt and has num_responses = the number of responses. Its mean and std are the mean and sqrt of the population variance of the pairwise distances, and the score is the score rule applied to them. With non-negative distances and a true square root, std >= 0, std squared is the variance, and the score is in [0, 1]. |
| BehavioralAnalysis.PairwiseDistances | cert/core/behavioral_analysis.py:34-38 | The nested loop yields exactly `PairDistances(responses, dist)`, and n(n-1)/2 distances for n responses. |
| BehavioralAnalysis.Pairs | cert/core/behavioral_analysis.py:35-36 | Every enumerated pair (i, j) has i < j < n, so there is no (i, i) pair and no reversed pair. |
| BehavioralAnalysis.PairsLength | cert/core/behavioral_analysis.py:34-38 | n responses give n(n-1)/2 pairs. |
| BehavioralAnalysis.PairsStrictlyIncreasing | cert/core/behavioral_analysis.py:35-37 | Pairs come in strictly increasing row-major order (i ascending, then j), so no pair is visited twice. |
| BehavioralAnalysis.PairsComplete | cert/core/behavioral_analysis.py:35-37 | Every pair a < b < n is visited. |
| BehavioralAnalysis.PairDistances | cert/core/behavioral_analysis.py:34-38 | The reference list of row-major pair distances: it has one entry per enumerated pair, n(n-1)/2 in all, and its k-th entry is the distance between the two responses of the k-th pair of `Pairs(n)`. |
| BehavioralAnalysis.MeanZeroIffAllZero | cert/core/behavioral_analysis.py:41-45 | For non-negative distances the mean is non-negative, and it is 0 exactly when every distance is 0. |
| BehavioralAnalysis.Mean | cert/core/behavioral_analysis.py:41 | The arithmetic mean `Sum(s)/|s|`: the mean times the count is the sum of the distances. |
| BehavioralAnalysis.Variance | cert/core/behavioral_analysis.py:42 | The population variance (the square of `np.std` with ddof = 0): the mean of the squared deviations from `Mean(s)`, so variance times the count is their sum. It is never negative, so its square root exists. |
| BehavioralAnalysis.ConstantStatistics | cert/core/behavioral_analysis.py:41-42 | Equal distances c have mean c and population variance 0. |
| BehavioralAnalysis.SumSquaredDeviationsZero | cert/core/behavioral_analysis.py:42 | The squared deviations from m sum to 0 only when every value equals m. |
| BehavioralAnalysis.ConsistencyScore | cert/core/behavioral_analysis.py:44-48 | The score is never negative. It is exactly 1.0 when the mean is 0. Otherwise it is 1 - std/mean when std/mean <= 1, and it is 0 when std/mean >= 1. |
| BehavioralAnalysis.ScoreBounds | cert/core/behavioral_analysis.py:44-48 | With a non-negative mean and std the score lies in [0, 1]. |
| BehavioralAnalysis.ScoreExtremes | cert/core/behavioral_analysis.py:44-48 | With a positive mean, the score is 1 iff std = 0, and 0 iff std >= mean. |
| BehavioralAnalysis.ScoreAntitoneInStd | cert/core/behavioral_analysis.py:47-48 | For a fixed positive mean, a larger std never raises the score. |
| BehavioralAnalysis.ScoreAboveOneForNegativeMean | cert/core/behavioral_analysis.py:44-48 | A negative mean with a positive std scores above 1, so the [0, 1] bound depends on non-negative distances. |
| BehavioralAnalysis.PerfectIffEqualDistances | cert/core/behavioral_analysis.py:41-48 | With non-negative distances and a true square root, the score is exactly 1 iff all pairwise distances are equal. This covers all-identical embeddings (mean 0) and equal positive distances (std 0). |

## Left out

- Embedding and cosine distance: `SentenceTransformer.encode` and `scipy.spatial.distance.cosine` are a foreign model and library. They are the parameter `dist`. The model does not state that cosine distance is symmetric or lies in [0, 2]. Failures of the embedding call (the `except Exception` path that returns `{"error": str(e)}`) are not modelled.
- Floating point: all numbers are `real`. The model does not capture rounding in the product, the ratio, `np.mean` and `np.std`. It does not capture a product of two non-zero baselines that underflows to 0.0 (the source then reports the zero-baseline error). It does not capture overflow with finite inputs either: when `a * b` overflows to inf the source reports gamma 0.0 (NaN when the observed value is also infinite), and when `observed / expected` overflows to inf the percent change is inf. In those cases `coordinationEffect * expectedPerformance == coordinatedPerformance` does not describe the source. It does not capture NaN or infinite inputs, or cosine returning tiny negative values for identical vectors. `ScoreAboveOneForNegativeMean` shows what a negative mean would do.
- Square root: `np.std` is the square root of the population variance. Dafny has no real square root, so it is the parameter `sqrt`, and facts about it assume `IsSquareRoot(sqrt)`.
- Timestamps: the `timestamp` field reads the wall clock (`np.datetime64('now')`). It is not part of the result datatypes.
- Logging through `self.logger` is not modelled.
- The HTTP server (cert/api/server.py) is not part of this model. It turns a result with an `"error"` key into status 400 and has no other logic.
- LLM provider clients, the AutoGen and Swarm integrations, the examples, the test drivers, `start_server.py` and `setup.py` are not part of this model. They are network clients, framework subclasses and process startup.
- Float conversion: the score, mean and std are exact reals. The source converts them with `float(...)`, and `max(0, ...)` can return the integer 0 before that conversion. Both are the same value here.

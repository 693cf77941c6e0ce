/** Behavioural consistency of one agent on one prompt:
      C = 1 - std(d) / mean(d)
    over the semantic distances d of every unordered pair of its responses,
    floored at 0, with C = 1 when the mean distance is 0.

    The semantic distance (an embedding model followed by cosine distance)
    and the square root behind the standard deviation are capabilities the
    caller passes in: `dist` and `sqrt`. */
module BehavioralAnalysis {
  import opened Reports

  const InsufficientResponsesMessage: string := "Need at least 2 responses for consistency measurement"

  datatype ConsistencyResult = ConsistencyResult(
    agentId: string,
    prompt: string,
    consistencyScore: real,
    meanSemanticDistance: real,
    stdSemanticDistance: real,
    numResponses: nat)

  type Pair = (nat, nat)

  /*** Pair enumeration ***/

  /** Pairs (i, k) for i < k < j, k ascending: the first j - i - 1 iterations
      of the inner loop for row i. */
  function Row(i: nat, j: nat): (ps: seq<Pair>)
    ensures |ps| == if j <= i + 1 then 0 else j - i - 1
    ensures forall k :: 0 <= k < |ps| ==> ps[k] == (i, i + 1 + k)
    decreases j
  {
    if j <= i + 1 then [] else Row(i, j - 1) + [(i, j - 1)]
  }

  /** All pairs produced by the first i iterations of the outer loop over n responses. */
  function PairsBefore(i: nat, n: nat): (ps: seq<Pair>)
    requires i <= n
    ensures forall k :: 0 <= k < |ps| ==> ps[k].0 < i && ps[k].0 < ps[k].1 < n
  {
    if i == 0 then [] else PairsBefore(i - 1, n) + Row(i - 1, n)
  }

  /** Every pair (i, j), i < j < n, in the order the nested loop visits them. */
  function Pairs(n: nat): (ps: seq<Pair>)
    ensures forall k :: 0 <= k < |ps| ==> ps[k].0 < ps[k].1 < n
  {
    PairsBefore(n, n)
  }

  /** Row-major order on pairs. */
  predicate LexLess(p: Pair, q: Pair) {
    p.0 < q.0 || (p.0 == q.0 && p.1 < q.1)
  }

  lemma {:induction false} PairsBeforeLength(i: nat, n: nat)
    requires i <= n
    ensures 2 * |PairsBefore(i, n)| == i * (2 * n - i - 1)
  {
    if i > 0 {
      PairsBeforeLength(i - 1, n);
      assert |PairsBefore(i, n)| == |PairsBefore(i - 1, n)| + (n - i);
    }
  }

  /** n responses give n(n-1)/2 pairs. */
  lemma PairsLength(n: nat)
    ensures |Pairs(n)| == n * (n - 1) / 2
  {
    PairsBeforeLength(n, n);
  }

  lemma {:induction false} PairsBeforeIncreasing(i: nat, n: nat)
    requires i <= n
    ensures forall k, l :: 0 <= k < l < |PairsBefore(i, n)| ==> LexLess(PairsBefore(i, n)[k], PairsBefore(i, n)[l])
  {
    if i > 0 {
      PairsBeforeIncreasing(i - 1, n);
      var prev, row := PairsBefore(i - 1, n), Row(i - 1, n);
      var ps := PairsBefore(i, n);
      assert ps == prev + row;
      forall k, l | 0 <= k < l < |ps|
        ensures LexLess(ps[k], ps[l])
      {
        if l < |prev| {
          assert ps[k] == prev[k] && ps[l] == prev[l];
        } else if k < |prev| {
          assert ps[k] == prev[k] && ps[l] == row[l - |prev|];
        } else {
          assert ps[k] == row[k - |prev|] && ps[l] == row[l - |prev|];
        }
      }
    }
  }

  /** The loop visits pairs in strictly increasing row-major order, so no
      pair is visited twice (and by the contract of Pairs, no (i, i) pair
      and no reversed pair appears). */
  lemma PairsStrictlyIncreasing(n: nat)
    ensures forall k, l :: 0 <= k < l < |Pairs(n)| ==> LexLess(Pairs(n)[k], Pairs(n)[l])
    ensures forall k, l :: 0 <= k < l < |Pairs(n)| ==> Pairs(n)[k] != Pairs(n)[l]
  {
    PairsBeforeIncreasing(n, n);
  }

  lemma {:induction false} PairsBeforeComplete(i: nat, n: nat, a: nat, b: nat)
    requires i <= n && a < i && a < b < n
    ensures (a, b) in PairsBefore(i, n)
  {
    var prev, row := PairsBefore(i - 1, n), Row(i - 1, n);
    if a < i - 1 {
      PairsBeforeComplete(i - 1, n, a, b);
      assert (a, b) in prev;
    } else {
      assert row[b - i] == (a, b);
    }
    assert PairsBefore(i, n) == prev + row;
  }

  /** Every unordered pair of distinct responses is visited. */
  lemma PairsComplete(n: nat, a: nat, b: nat)
    requires a < b < n
    ensures (a, b) in Pairs(n)
  {
    PairsBeforeComplete(n, n, a, b);
  }

  /*** Distances ***/

  /** Distances of row i of the inner loop, for the pairs (i, k), i < k < j. */
  function RowDistances(responses: seq<string>, dist: (string, string) -> real, i: nat, j: nat): seq<real>
    requires i < |responses| && j <= |responses|
    decreases j
  {
    if j <= i + 1 then []
    else RowDistances(responses, dist, i, j - 1) + [dist(responses[i], responses[j - 1])]
  }

  /** Distances collected by the first i iterations of the outer loop. */
  function DistancesBefore(responses: seq<string>, dist: (string, string) -> real, i: nat): seq<real>
    requires i <= |responses|
  {
    if i == 0 then []
    else DistancesBefore(responses, dist, i - 1) + RowDistances(responses, dist, i - 1, |responses|)
  }

  /** The list `distances` once both loops have finished: in order, the
      distance of each enumerated pair of responses. */
  function PairDistances(responses: seq<string>, dist: (string, string) -> real): (ds: seq<real>)
    ensures |ds| == |Pairs(|responses|)| == |responses| * (|responses| - 1) / 2
    ensures forall k :: 0 <= k < |Pairs(|responses|)| ==>
              ds[k] == dist(responses[Pairs(|responses|)[k].0], responses[Pairs(|responses|)[k].1])
  {
    DistancesBeforeAt(responses, dist, |responses|);
    PairsLength(|responses|);
    DistancesBefore(responses, dist, |responses|)
  }

  /** The nested loop of measure_consistency: one distance per pair i < j,
      i ascending, then j ascending. */
  method PairwiseDistances(responses: seq<string>, dist: (string, string) -> real) returns (distances: seq<real>)
    ensures distances == PairDistances(responses, dist)
    ensures |distances| == |responses| * (|responses| - 1) / 2
  {
    var n := |responses|;
    distances := [];
    for i := 0 to n
      invariant distances == DistancesBefore(responses, dist, i)
    {
      for j := i + 1 to n
        invariant distances == DistancesBefore(responses, dist, i) + RowDistances(responses, dist, i, j)
      {
        distances := distances + [dist(responses[i], responses[j])];
      }
    }
  }

  lemma {:induction false} RowDistancesAt(responses: seq<string>, dist: (string, string) -> real, i: nat, j: nat)
    requires i < |responses| && j <= |responses|
    ensures |RowDistances(responses, dist, i, j)| == |Row(i, j)|
    ensures forall k :: 0 <= k < |Row(i, j)| ==>
              RowDistances(responses, dist, i, j)[k] == dist(responses[i], responses[Row(i, j)[k].1])
  {
    if j > i + 1 {
      RowDistancesAt(responses, dist, i, j - 1);
    }
  }

  lemma {:induction false} DistancesBeforeAt(responses: seq<string>, dist: (string, string) -> real, i: nat)
    requires i <= |responses|
    ensures |DistancesBefore(responses, dist, i)| == |PairsBefore(i, |responses|)|
    ensures forall k :: 0 <= k < |PairsBefore(i, |responses|)| ==>
              DistancesBefore(responses, dist, i)[k]
              == dist(responses[PairsBefore(i, |responses|)[k].0], responses[PairsBefore(i, |responses|)[k].1])
  {
    if i > 0 {
      var n := |responses|;
      DistancesBeforeAt(responses, dist, i - 1);
      RowDistancesAt(responses, dist, i - 1, n);
      var prev, row := PairsBefore(i - 1, n), Row(i - 1, n);
      var ds := DistancesBefore(responses, dist, i);
      var ps: seq<Pair> := prev + row;
      assert PairsBefore(i, n) == ps;
      forall k | 0 <= k < |ps|
        ensures ds[k] == dist(responses[ps[k].0], responses[ps[k].1])
      {
        if k >= |prev| {
          assert ps[k] == row[k - |prev|];
        }
      }
    }
  }

  /*** Statistics ***/

  function Sum(s: seq<real>): real {
    if s == [] then 0.0 else Sum(s[..|s| - 1]) + s[|s| - 1]
  }

  /** Arithmetic mean (numpy's mean). */
  function Mean(s: seq<real>): (m: real)
    requires |s| > 0
    ensures m * |s| as real == Sum(s)
  {
    Sum(s) / |s| as real
  }

  function SumSquaredDeviations(s: seq<real>, m: real): real {
    if s == [] then 0.0 else SumSquaredDeviations(s[..|s| - 1], m) + (s[|s| - 1] - m) * (s[|s| - 1] - m)
  }

  /** Population variance: divides by the count (numpy's std with ddof = 0, squared). */
  function Variance(s: seq<real>): (v: real)
    requires |s| > 0
    ensures v >= 0.0
    ensures v * |s| as real == SumSquaredDeviations(s, Mean(s))
  {
    SumSquaredDeviationsNonNegative(s, Mean(s));
    SumSquaredDeviations(s, Mean(s)) / |s| as real
  }

  /** sqrt is a square root on the non-negative reals. */
  ghost predicate IsSquareRoot(sqrt: real -> real) {
    forall v :: 0.0 <= v ==> 0.0 <= sqrt(v) && sqrt(v) * sqrt(v) == v
  }

  lemma SquareRootOfZero(sqrt: real -> real)
    requires IsSquareRoot(sqrt)
    ensures sqrt(0.0) == 0.0
  {
    SquareZero(sqrt(0.0));
  }

  predicate AllNonNegative(s: seq<real>) {
    forall k :: 0 <= k < |s| ==> s[k] >= 0.0
  }

  lemma {:induction false} SumNonNegative(s: seq<real>)
    requires AllNonNegative(s)
    ensures Sum(s) >= 0.0
    ensures Sum(s) == 0.0 <==> forall k :: 0 <= k < |s| ==> s[k] == 0.0
  {
    if s != [] {
      var init := s[..|s| - 1];
      SumNonNegative(init);
      if Sum(s) == 0.0 {
        forall k | 0 <= k < |s| ensures s[k] == 0.0 {
          if k < |s| - 1 { assert s[k] == init[k]; }
        }
      }
    }
  }

  /** For non-negative distances the mean is 0 exactly when every distance is 0. */
  lemma MeanZeroIffAllZero(s: seq<real>)
    requires |s| > 0 && AllNonNegative(s)
    ensures Mean(s) >= 0.0
    ensures Mean(s) == 0.0 <==> forall k :: 0 <= k < |s| ==> s[k] == 0.0
  {
    SumNonNegative(s);
  }

  lemma {:induction false} SumSquaredDeviationsNonNegative(s: seq<real>, m: real)
    ensures SumSquaredDeviations(s, m) >= 0.0
  {
    if s != [] {
      SumSquaredDeviationsNonNegative(s[..|s| - 1], m);
      var t := s[|s| - 1] - m;
      assert t * t >= 0.0;
    }
  }

  lemma {:induction false} ConstantSums(s: seq<real>, c: real)
    requires forall k :: 0 <= k < |s| ==> s[k] == c
    ensures Sum(s) == |s| as real * c
    ensures SumSquaredDeviations(s, c) == 0.0
  {
    if s != [] {
      ConstantSums(s[..|s| - 1], c);
    }
  }

  lemma SquareZero(x: real)
    requires x * x == 0.0
    ensures x == 0.0
  {
    if x > 0.0 {
      calc {
        0.0;
     == x * x;
      > 0.0;
      }
    } else if x < 0.0 {
      calc {
        0.0;
     == x * x;
     == (-x) * (-x);
      > 0.0;
      }
    }
  }

  /** Squared deviations from m sum to 0 only when every value is m. */
  lemma {:induction false} SumSquaredDeviationsZero(s: seq<real>, m: real)
    requires SumSquaredDeviations(s, m) == 0.0
    ensures forall k :: 0 <= k < |s| ==> s[k] == m
  {
    if s != [] {
      var init, t := s[..|s| - 1], s[|s| - 1] - m;
      SumSquaredDeviationsNonNegative(init, m);
      assert t * t >= 0.0;
      SquareZero(t);
      SumSquaredDeviationsZero(init, m);
      forall k | 0 <= k < |s| ensures s[k] == m {
        if k < |s| - 1 { assert s[k] == init[k]; }
      }
    }
  }

  /** Equal distances have that distance as mean and no variance. */
  lemma ConstantStatistics(s: seq<real>, c: real)
    requires |s| > 0
    requires forall k :: 0 <= k < |s| ==> s[k] == c
    ensures Mean(s) == c
    ensures Variance(s) == 0.0
  {
    ConstantSums(s, c);
  }

  /*** Score ***/

  /** The inverted coefficient of variation, floored at 0; 1.0 when the mean is 0. */
  function ConsistencyScore(mean: real, std: real): (score: real)
    ensures score >= 0.0
    ensures mean == 0.0 ==> score == 1.0
    ensures mean != 0.0 && std / mean <= 1.0 ==> score + std / mean == 1.0
    ensures mean != 0.0 && std / mean >= 1.0 ==> score == 0.0
  {
    if mean == 0.0 then 1.0
    else
      var score := 1.0 - std / mean;
      if score < 0.0 then 0.0 else score
  }

  /** With a non-negative mean and std the score lies in [0, 1]. */
  lemma ScoreBounds(mean: real, std: real)
    requires mean >= 0.0 && std >= 0.0
    ensures 0.0 <= ConsistencyScore(mean, std) <= 1.0
  {
  }

  /** With a positive mean, the score is 1 exactly when there is no dispersion,
      and 0 exactly when the dispersion reaches the mean. */
  lemma ScoreExtremes(mean: real, std: real)
    requires mean > 0.0 && std >= 0.0
    ensures ConsistencyScore(mean, std) == 1.0 <==> std == 0.0
    ensures ConsistencyScore(mean, std) == 0.0 <==> std >= mean
  {
  }

  /** A larger dispersion never raises the score. */
  lemma ScoreAntitoneInStd(mean: real, std1: real, std2: real)
    requires mean > 0.0 && std1 <= std2
    ensures ConsistencyScore(mean, std2) <= ConsistencyScore(mean, std1)
  {
  }

  /** The bound needs a non-negative mean: a negative mean (all distances
      near 0, some slightly below) with any dispersion scores above 1. */
  lemma ScoreAboveOneForNegativeMean(mean: real, std: real)
    requires mean < 0.0 && std > 0.0
    ensures ConsistencyScore(mean, std) > 1.0
  {
  }

  /*** The measurement ***/

  /** BehavioralAnalyzer.measure_consistency. */
  method MeasureConsistency(agentId: string, prompt: string, responses: seq<string>,
                            dist: (string, string) -> real, sqrt: real -> real)
    returns (r: Report<ConsistencyResult>)
    ensures r.Error? <==> |responses| < 2
    ensures r.Error? ==> r.message == InsufficientResponsesMessage
    ensures r.Ok? ==>
      var ds := PairDistances(responses, dist);
      && |ds| > 0
      && r.value.agentId == agentId
      && r.value.prompt == prompt
      && r.value.numResponses == |responses|
      && r.value.meanSemanticDistance == Mean(ds)
      && r.value.stdSemanticDistance == sqrt(Variance(ds))
      && r.value.consistencyScore == ConsistencyScore(Mean(ds), sqrt(Variance(ds)))
    ensures r.Ok? && AllNonNegative(PairDistances(responses, dist)) && IsSquareRoot(sqrt) ==>
      && r.value.stdSemanticDistance >= 0.0
      && r.value.stdSemanticDistance * r.value.stdSemanticDistance
         == Variance(PairDistances(responses, dist))
      && 0.0 <= r.value.consistencyScore <= 1.0
  {
    if |responses| < 2 {
      return Error(InsufficientResponsesMessage);
    }
    var distances := PairwiseDistances(responses, dist);
    PairsComplete(|responses|, 0, 1);
    var meanDistance := Mean(distances);
    var stdDistance := sqrt(Variance(distances));
    var score := ConsistencyScore(meanDistance, stdDistance);
    if AllNonNegative(distances) && IsSquareRoot(sqrt) {
      MeanZeroIffAllZero(distances);
      ScoreBounds(meanDistance, stdDistance);
    }
    r := Ok(ConsistencyResult(agentId, prompt, score, meanDistance, stdDistance, |responses|));
  }

  /** With non-negative distances, the score is exactly 1 when all pairwise
      distances are equal (in particular when all responses embed identically),
      and only then. */
  lemma PerfectIffEqualDistances(responses: seq<string>, dist: (string, string) -> real, sqrt: real -> real)
    requires |responses| >= 2 && IsSquareRoot(sqrt)
    requires AllNonNegative(PairDistances(responses, dist))
    ensures var ds := PairDistances(responses, dist);
            |ds| > 0
            && (ConsistencyScore(Mean(ds), sqrt(Variance(ds))) == 1.0
                <==> forall k :: 0 <= k < |ds| ==> ds[k] == ds[0])
  {
    var ds := PairDistances(responses, dist);
    PairsComplete(|responses|, 0, 1);
    var mean, variance := Mean(ds), Variance(ds);
    var std := sqrt(variance);
    MeanZeroIffAllZero(ds);
    if forall k :: 0 <= k < |ds| ==> ds[k] == ds[0] {
      ConstantStatistics(ds, ds[0]);
      SquareRootOfZero(sqrt);
    }
    if ConsistencyScore(mean, std) == 1.0 && mean != 0.0 {
      ScoreExtremes(mean, std);
      assert variance == 0.0;
      SumSquaredDeviationsZero(ds, mean);
    }
  }
}

/** The sensitivity table and the three threshold estimators shared by the
    production monitor and both analysis scripts: a clamped z-score bound,
    a low percentile and a clamped inter-quartile-range fence, of which the
    largest is the binding threshold. */
module Thresholds {
  import opened Stats

  datatype Sensitivity = High | Medium | Low

  /** One entry of the sensitivity table. */
  datatype Config = Config(zScore: real, percentile: real, minWeeks: nat)

  /** The sensitivity table; all three scripts carry the same values. */
  function ConfigOf(s: Sensitivity): (c: Config)
    ensures 0.0 < c.zScore && 0.0 < c.percentile < 25.0 && 4 <= c.minWeeks
  {
    match s
    case High => Config(1.5, 10.0, 4)
    case Medium => Config(2.0, 5.0, 6)
    case Low => Config(2.5, 2.0, 8)
  }

  /** Position from the most to the least sensitive level. */
  function Rank(s: Sensitivity): nat
  {
    match s
    case High => 0
    case Medium => 1
    case Low => 2
  }

  /** A less sensitive level asks for a larger z multiplier, a lower
      percentile and more weeks of history. */
  lemma ConfigOrdered(s: Sensitivity, t: Sensitivity)
    requires Rank(s) <= Rank(t)
    ensures ConfigOf(s).zScore <= ConfigOf(t).zScore
    ensures ConfigOf(t).percentile <= ConfigOf(s).percentile
    ensures ConfigOf(s).minWeeks <= ConfigOf(t).minWeeks
    ensures Rank(s) < Rank(t) ==> ConfigOf(s).zScore < ConfigOf(t).zScore
  {
  }

  /** The values computed from one sample of volumes. */
  datatype Estimate = Estimate(
    mean: real,
    std: real,
    zThreshold: real,
    percentileThreshold: real,
    iqrThreshold: real,
    threshold: real)

  /** max(0, mean - z * std) */
  function ZThreshold(vs: seq<real>, z: real, sqrt: real -> real): real
    requires |vs| > 0
  {
    Max(0.0, Mean(vs) - z * Std(vs, sqrt))
  }

  /** max(0, q1 - 1.5 * (q3 - q1)) with the quartiles as percentiles. */
  function IqrThreshold(vs: seq<real>): real
    requires |vs| > 0
  {
    var q1 := Percentile(vs, 25.0);
    var q3 := Percentile(vs, 75.0);
    Max(0.0, q1 - 1.5 * (q3 - q1))
  }

  /** The three estimators and their maximum for a sample, a z multiplier
      and a percentile. The binding threshold is one of the three and is
      at least each of them, so it is never negative. */
  function EstimateOf(vs: seq<real>, z: real, p: real, sqrt: real -> real): (e: Estimate)
    requires |vs| > 0 && 0.0 <= p <= 100.0
    ensures e.mean == Mean(vs) && e.std == Std(vs, sqrt)
    ensures e.zThreshold == ZThreshold(vs, z, sqrt)
    ensures e.percentileThreshold == Percentile(vs, p)
    ensures e.iqrThreshold == IqrThreshold(vs)
    ensures e.zThreshold <= e.threshold && e.percentileThreshold <= e.threshold
    ensures e.iqrThreshold <= e.threshold
    ensures e.threshold == e.zThreshold || e.threshold == e.percentileThreshold
            || e.threshold == e.iqrThreshold
    ensures 0.0 <= e.zThreshold && 0.0 <= e.iqrThreshold && 0.0 <= e.threshold
  {
    var zt := ZThreshold(vs, z, sqrt);
    var pt := Percentile(vs, p);
    var it := IqrThreshold(vs);
    Estimate(Mean(vs), Std(vs, sqrt), zt, pt, it, Max(Max(zt, pt), it))
  }

  predicate AllNonNegative(vs: seq<real>) {
    forall i :: 0 <= i < |vs| ==> 0.0 <= vs[i]
  }

  /** With a non-negative multiplier the z-score bound never exceeds the
      mean of a non-negative sample. */
  lemma ZThresholdAtMostMean(vs: seq<real>, z: real, sqrt: real -> real)
    requires |vs| > 0 && IsSqrt(sqrt) && 0.0 <= z && AllNonNegative(vs)
    ensures ZThreshold(vs, z, sqrt) <= Mean(vs)
  {
    MeanBounds(vs, 0.0, MaxOf(vs));
    MulNonNegative(z, Std(vs, sqrt));
  }

  /** A larger z multiplier never raises the z-score bound. */
  lemma ZThresholdAntitone(vs: seq<real>, z1: real, z2: real, sqrt: real -> real)
    requires |vs| > 0 && IsSqrt(sqrt) && z1 <= z2
    ensures ZThreshold(vs, z2, sqrt) <= ZThreshold(vs, z1, sqrt)
  {
    var s := Std(vs, sqrt);
    MulNonNegative(z2 - z1, s);
    assert z2 * s - z1 * s == (z2 - z1) * s;
  }

  /** The inter-quartile fence never exceeds the first quartile of a
      non-negative sample. */
  lemma IqrThresholdAtMostQ1(vs: seq<real>)
    requires |vs| > 0 && AllNonNegative(vs)
    ensures IqrThreshold(vs) <= Percentile(vs, 25.0)
  {
    PercentileMonotone(vs, 25.0, 75.0);
    PercentileBounds(vs, 25.0);
  }

  /** For a non-negative sample, the binding threshold is at most the
      largest volume: a week at least as large as every week of its
      history is never below the threshold. */
  lemma ThresholdAtMostMax(vs: seq<real>, z: real, p: real, sqrt: real -> real)
    requires |vs| > 0 && 0.0 <= p <= 100.0 && IsSqrt(sqrt) && 0.0 <= z
    requires AllNonNegative(vs)
    ensures EstimateOf(vs, z, p, sqrt).threshold <= MaxOf(vs)
  {
    ZThresholdAtMostMean(vs, z, sqrt);
    MeanBetweenMinAndMax(vs);
    PercentileBounds(vs, p);
    IqrThresholdAtMostQ1(vs);
    PercentileBounds(vs, 25.0);
  }

  /** For a non-negative sample, a positive threshold implies a positive
      mean, so a percentage drop from the mean is well defined whenever a
      volume lies below the threshold. */
  lemma PositiveThresholdHasPositiveMean(vs: seq<real>, z: real, p: real, sqrt: real -> real)
    requires |vs| > 0 && 0.0 <= p <= 100.0 && IsSqrt(sqrt) && 0.0 <= z
    requires AllNonNegative(vs)
    requires 0.0 < EstimateOf(vs, z, p, sqrt).threshold
    ensures 0.0 < Mean(vs)
  {
    ThresholdAtMostMax(vs, z, p, sqrt);
    var k :| 0 <= k < |vs| && vs[k] == MaxOf(vs);
    SumAtLeastElement(vs, k);
    PositiveQuotient(Sum(vs), |vs| as real);
  }

  /** A constant history c >= 0 has every estimator, and so the binding
      threshold, equal to c. */
  lemma ThresholdOfConstant(vs: seq<real>, c: real, z: real, p: real, sqrt: real -> real)
    requires |vs| > 0 && 0.0 <= p <= 100.0 && IsSqrt(sqrt) && 0.0 <= c
    requires forall i :: 0 <= i < |vs| ==> vs[i] == c
    ensures EstimateOf(vs, z, p, sqrt).zThreshold == c
    ensures EstimateOf(vs, z, p, sqrt).percentileThreshold == c
    ensures EstimateOf(vs, z, p, sqrt).iqrThreshold == c
    ensures EstimateOf(vs, z, p, sqrt).threshold == c
  {
    StdConstant(vs, c, sqrt);
    PercentileConstant(vs, c, p);
    PercentileConstant(vs, c, 25.0);
    PercentileConstant(vs, c, 75.0);
  }

  /** The percentage by which a volume lies below the mean. Both alert
      rules divide by the mean unguarded; a zero mean is given a drop of 0
      here. An all-zero history has mean 0, but its threshold is then 0 too,
      so with non-negative volumes no alert reaches the division; only a
      negative current volume can. */
  function DropFromMean(mean: real, current: real): (d: real)
    ensures 0.0 < mean ==> (0.0 < d <==> current < mean)
    ensures 0.0 < mean && 0.0 <= current ==> d <= 100.0
    ensures 0.0 < mean && current == 0.0 ==> d == 100.0
  {
    if mean > 0.0 then Ratio(mean - current, mean) * 100.0
    else if mean == 0.0 then 0.0
    else (mean - current) / mean * 100.0
  }
}

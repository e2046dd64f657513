/** Gap-based cadence detection for one category: the sorted occurrence
    dates give day gaps, the gaps give a regularity score, and a fixed band
    table on the average gap, followed by an "irregular" override, gives
    the cadence label and its confidence. */
module FrequencyDetector {
  import opened Stats
  import opened Records

  datatype Frequency =
    | Daily | Weekly | Biweekly | Monthly | Quarterly | SemiAnnual | Irregular
    | InsufficientData | SingleOccurrence

  /** A cadence label with its confidence. */
  datatype Label = Label(frequency: Frequency, confidence: real)

  /** The analysis of one list of occurrence dates. */
  datatype Pattern = Pattern(frequency: Frequency, confidence: real, avgGap: real, regularity: real)

  function AsReals(ds: seq<int>): (r: seq<real>)
    ensures |r| == |ds|
    ensures forall i :: 0 <= i < |ds| ==> r[i] == ds[i] as real
  {
    if ds == [] then [] else [ds[0] as real] + AsReals(ds[1..])
  }

  /** Consecutive differences s[i+1] - s[i]. */
  function Differences(s: seq<real>): (d: seq<real>)
    requires |s| >= 1
    ensures |d| == |s| - 1
    ensures forall i :: 0 <= i < |d| ==> d[i] == s[i + 1] - s[i]
  {
    if |s| == 1 then [] else [s[1] - s[0]] + Differences(s[1..])
  }

  /** Consecutive differences add up to last minus first. */
  lemma {:induction false} DifferencesTelescope(s: seq<real>)
    requires |s| >= 1
    ensures Sum(Differences(s)) == s[|s| - 1] - s[0]
  {
    if |s| > 1 {
      DifferencesTelescope(s[1..]);
      assert Differences(s) == [s[1] - s[0]] + Differences(s[1..]);
      assert Differences(s)[1..] == Differences(s[1..]);
    }
  }

  /** The day gaps between consecutive occurrences, after sorting: one
      fewer than the dates and none negative. */
  function Gaps(dates: seq<int>): (g: seq<real>)
    requires |dates| >= 1
    ensures |g| == |dates| - 1
    ensures forall i :: 0 <= i < |g| ==> 0.0 <= g[i]
  {
    var s := Sort(AsReals(dates));
    var d := Differences(s);
    assert forall i :: 0 <= i < |d| ==> 0.0 <= d[i] by {
      forall i | 0 <= i < |d| ensures 0.0 <= d[i] {
        SortedAdjacent(s, i);
      }
    }
    d
  }

  /** Every element of a sample occurs in its sorted rearrangement. */
  lemma InSort(xs: seq<real>, v: real)
    requires v in xs
    ensures v in Sort(xs)
  {
    assert v in multiset(xs);
    assert v in multiset(Sort(xs));
  }

  /** The first and last of a sorted sample are its minimum and maximum. */
  lemma SortEnds(xs: seq<real>)
    requires |xs| > 0
    ensures Sort(xs)[0] == MinOf(xs) && Sort(xs)[|xs| - 1] == MaxOf(xs)
  {
    SortFirst(xs);
    SortLast(xs);
  }

  lemma SortFirst(xs: seq<real>)
    requires |xs| > 0
    ensures Sort(xs)[0] == MinOf(xs)
  {
    var s := Sort(xs);
    SortedWithinRange(xs, 0);
    InSort(xs, MinOf(xs));
    var i :| 0 <= i < |s| && s[i] == MinOf(xs);
    SortedOrder(s, 0, i);
  }

  lemma SortLast(xs: seq<real>)
    requires |xs| > 0
    ensures Sort(xs)[|xs| - 1] == MaxOf(xs)
  {
    var s := Sort(xs);
    SortedWithinRange(xs, |xs| - 1);
    InSort(xs, MaxOf(xs));
    var j :| 0 <= j < |s| && s[j] == MaxOf(xs);
    SortedOrder(s, j, |s| - 1);
  }

  lemma SortedOrder(s: seq<real>, i: int, j: int)
    requires IsSorted(s) && 0 <= i <= j < |s|
    ensures s[i] <= s[j]
  {
  }

  /** The gaps add up to the span of the dates. */
  lemma GapsSumToSpan(dates: seq<int>)
    requires |dates| >= 2
    ensures Sum(Gaps(dates)) == MaxOf(AsReals(dates)) - MinOf(AsReals(dates))
  {
    var xs := AsReals(dates);
    var s := Sort(xs);
    assert Gaps(dates) == Differences(s);
    DifferencesTelescope(s);
    SortEnds(xs);
  }

  /** std/avg of the gaps, taken as 1.0 when the average gap is 0. */
  function GapVariation(gaps: seq<real>, sqrt: real -> real): real
    requires |gaps| > 0
  {
    if Mean(gaps) > 0.0 then Std(gaps, sqrt) / Mean(gaps) else 1.0
  }

  /** max(0, 1 - min(cv, 1)): 1 for perfectly even gaps, 0 for very
      uneven ones. */
  function Regularity(gaps: seq<real>, sqrt: real -> real): (r: real)
    requires |gaps| > 0 && IsSqrt(sqrt)
    requires forall i :: 0 <= i < |gaps| ==> 0.0 <= gaps[i]
    ensures 0.0 <= r <= 1.0
    ensures Mean(gaps) == 0.0 ==> r == 0.0
  {
    MeanBounds(gaps, 0.0, MaxOf(gaps));
    var cv := GapVariation(gaps, sqrt);
    Max(0.0, 1.0 - Min(cv, 1.0))
  }

  /** Equal positive gaps are perfectly regular. */
  lemma RegularityOfEqualGaps(gaps: seq<real>, step: real, sqrt: real -> real)
    requires |gaps| > 0 && IsSqrt(sqrt) && 0.0 < step
    requires forall i :: 0 <= i < |gaps| ==> gaps[i] == step
    ensures Mean(gaps) == step && Regularity(gaps, sqrt) == 1.0
  {
    StdConstant(gaps, step, sqrt);
  }

  /** Neither a daily nor a weekly band, nor any band up to 270 days: the
      last branch of the table. */
  predicate FallsThrough(avg: real, reg: real) {
    && !(avg <= 10.0 && reg > 0.5)
    && !(10.0 < avg <= 21.0 && reg > 0.4)
    && !(21.0 < avg <= 270.0)
  }

  /** The band table on the average gap and the regularity score. */
  function Band(avg: real, reg: real): (l: Label)
    ensures l.frequency == Daily <==> avg <= 10.0 && reg > 0.5
    ensures l.frequency == Weekly <==> 10.0 < avg <= 21.0 && reg > 0.4
    ensures l.frequency == Biweekly <==> 21.0 < avg <= 45.0 && reg > 0.4
    ensures l.frequency == Monthly <==>
              (21.0 < avg <= 45.0 && reg <= 0.4) || (45.0 < avg <= 120.0 && reg > 0.5)
    ensures l.frequency == Quarterly <==>
              (45.0 < avg <= 120.0 && reg <= 0.5) || (120.0 < avg <= 270.0 && reg > 0.5)
    ensures l.frequency == SemiAnnual <==>
              (120.0 < avg <= 270.0 && reg <= 0.5) || (FallsThrough(avg, reg) && reg > 0.3)
    ensures l.frequency == Irregular <==> FallsThrough(avg, reg) && reg <= 0.3
    ensures l.frequency !in {InsufficientData, SingleOccurrence}
  {
    if avg <= 10.0 && reg > 0.5 then Label(Daily, reg)
    else if 10.0 < avg <= 21.0 && reg > 0.4 then Label(Weekly, reg)
    else if 21.0 < avg <= 45.0 then Label(if reg > 0.4 then Biweekly else Monthly, reg)
    else if 45.0 < avg <= 120.0 then Label(if reg > 0.5 then Monthly else Quarterly, reg * 0.8)
    else if 120.0 < avg <= 270.0 then Label(if reg > 0.5 then Quarterly else SemiAnnual, reg * 0.7)
    else Label(if reg > 0.3 then SemiAnnual else Irregular, reg * 0.5)
  }

  /** The band confidence is the regularity scaled by 1, 0.8, 0.7 or 0.5
      by gap size, so it never exceeds the regularity. */
  lemma BandConfidence(avg: real, reg: real)
    requires 0.0 <= reg <= 1.0
    ensures avg <= 45.0 && !FallsThrough(avg, reg) ==> Band(avg, reg).confidence == reg
    ensures 45.0 < avg <= 120.0 ==> Band(avg, reg).confidence == reg * 0.8
    ensures 120.0 < avg <= 270.0 ==> Band(avg, reg).confidence == reg * 0.7
    ensures FallsThrough(avg, reg) ==> Band(avg, reg).confidence == reg * 0.5
    ensures 0.0 <= Band(avg, reg).confidence <= reg
  {
  }

  /** Short gaps with low regularity are not labelled daily or weekly:
      they reach the last branch and come out semi-annual or irregular. */
  lemma ShortIrregularGapsFallThrough(avg: real, reg: real)
    requires (avg <= 10.0 && reg <= 0.5) || (10.0 < avg <= 21.0 && reg <= 0.4)
    ensures FallsThrough(avg, reg)
    ensures Band(avg, reg).frequency in {SemiAnnual, Irregular}
    ensures Band(avg, reg) == Label(if reg > 0.3 then SemiAnnual else Irregular, reg * 0.5)
  {
  }

  /** Very uneven gaps over more than three gaps are labelled irregular,
      with confidence 1 - regularity. */
  function Override(l: Label, reg: real, gapCount: nat): (r: Label)
    ensures reg < 0.3 && gapCount > 3 ==> r == Label(Irregular, 1.0 - reg)
    ensures !(reg < 0.3 && gapCount > 3) ==> r == l
  {
    if reg < 0.3 && gapCount > 3 then Label(Irregular, 1.0 - reg) else l
  }

  /** The band table and the override applied to a non-empty list of
      gaps. */
  function PatternOfGaps(gaps: seq<real>, sqrt: real -> real): (r: Pattern)
    requires |gaps| > 0 && IsSqrt(sqrt)
    requires forall i :: 0 <= i < |gaps| ==> 0.0 <= gaps[i]
    ensures r.frequency !in {InsufficientData, SingleOccurrence}
    ensures 0.0 <= r.confidence <= 1.0 && 0.0 <= r.regularity <= 1.0 && 0.0 <= r.avgGap
    ensures r.avgGap == Mean(gaps) && r.regularity == Regularity(gaps, sqrt)
    ensures r.regularity < 0.3 && |gaps| > 3 ==>
              r.frequency == Irregular && r.confidence == 1.0 - r.regularity
    ensures !(r.regularity < 0.3 && |gaps| > 3) ==>
              Label(r.frequency, r.confidence) == Band(r.avgGap, r.regularity)
  {
    MeanBounds(gaps, 0.0, MaxOf(gaps));
    var avg := Mean(gaps);
    var reg := Regularity(gaps, sqrt);
    BandConfidence(avg, reg);
    var l := Override(Band(avg, reg), reg, |gaps|);
    Pattern(l.frequency, l.confidence, avg, reg)
  }

  /** analyze_occurrence_pattern */
  function AnalyzeOccurrencePattern(dates: seq<int>, sqrt: real -> real): (r: Pattern)
    requires IsSqrt(sqrt)
    ensures |dates| < 2 <==> r.frequency == InsufficientData
    ensures |dates| < 2 ==> r == Pattern(InsufficientData, 0.0, 0.0, 0.0)
    ensures r.frequency != SingleOccurrence
    ensures 0.0 <= r.confidence <= 1.0 && 0.0 <= r.regularity <= 1.0 && 0.0 <= r.avgGap
    ensures |dates| >= 2 ==> r == PatternOfGaps(Gaps(dates), sqrt)
    ensures |dates| >= 2 && r.regularity < 0.3 && |dates| > 4 ==>
              r.frequency == Irregular && r.confidence == 1.0 - r.regularity
    ensures |dates| >= 2 && !(r.regularity < 0.3 && |dates| > 4) ==>
              Label(r.frequency, r.confidence) == Band(r.avgGap, r.regularity)
  {
    if |dates| < 2 then Pattern(InsufficientData, 0.0, 0.0, 0.0)
    else
      var gaps := Gaps(dates);
      if |gaps| == 0 then Pattern(SingleOccurrence, 0.0, 0.0, 0.0)
      else PatternOfGaps(gaps, sqrt)
  }

  /** The record detect_frequency_advanced builds for one category. */
  datatype Profile = Profile(
    frequency: Frequency,
    confidence: real,
    weeksWithData: nat,
    occurrenceRate: real,
    avgGap: real,
    regularity: real,
    avgVolume: real,
    stdVolume: real,
    minVolume: real,
    maxVolume: real,
    cvVolume: real,
    totalOccurrences: nat)

  /** detect_frequency_advanced over a non-empty category and a period of
      totalWeeks weeks (104 by default). */
  function DetectFrequencyAdvanced(obs: seq<Observation>, totalWeeks: nat, sqrt: real -> real): (p: Profile)
    requires |obs| > 0 && totalWeeks > 0 && IsSqrt(sqrt)
    ensures p.weeksWithData == p.totalOccurrences == |obs|
    ensures p.occurrenceRate == |obs| as real / totalWeeks as real
    ensures Pattern(p.frequency, p.confidence, p.avgGap, p.regularity)
            == AnalyzeOccurrencePattern(Dates(obs), sqrt)
    ensures p.avgVolume == Mean(Volumes(obs)) && p.stdVolume == Std(Volumes(obs), sqrt)
    ensures p.minVolume == MinOf(Volumes(obs)) && p.maxVolume == MaxOf(Volumes(obs))
    ensures p.avgVolume > 0.0 ==> p.cvVolume == Ratio(p.stdVolume, p.avgVolume)
    ensures p.minVolume <= p.avgVolume <= p.maxVolume && 0.0 <= p.stdVolume
    ensures p.minVolume in Volumes(obs) && p.maxVolume in Volumes(obs)
    ensures p.avgVolume <= 0.0 ==> p.cvVolume == 0.0
    ensures 0.0 <= p.cvVolume
  {
    var vs := Volumes(obs);
    var pat := AnalyzeOccurrencePattern(Dates(obs), sqrt);
    var mean := Mean(vs);
    MeanBetweenMinAndMax(vs);
    var std := Std(vs, sqrt);
    var cv := if mean > 0.0 then Ratio(std, mean) else 0.0;
    Profile(pat.frequency, pat.confidence, |obs|, |obs| as real / totalWeeks as real,
            pat.avgGap, pat.regularity, mean, std, MinOf(vs), MaxOf(vs), cv, |obs|)
  }

  // ---------------------------------------------------------------------
  // Evenly spaced dates and the scenarios of the module's self-test

  /** Evenly spaced dates (step > 0 days) have average gap step and
      regularity 1, so no override applies and the band table alone
      decides the label. */
  lemma EvenlySpaced(dates: seq<int>, step: int, sqrt: real -> real)
    requires |dates| >= 2 && 0 < step && IsSqrt(sqrt)
    requires forall i :: 0 <= i < |dates| ==> dates[i] == dates[0] + step * i
    ensures AnalyzeOccurrencePattern(dates, sqrt).avgGap == step as real
    ensures AnalyzeOccurrencePattern(dates, sqrt).regularity == 1.0
    ensures Label(AnalyzeOccurrencePattern(dates, sqrt).frequency,
                  AnalyzeOccurrencePattern(dates, sqrt).confidence) == Band(step as real, 1.0)
  {
    EvenGaps(dates, step);
    RegularityOfEqualGaps(Gaps(dates), step as real, sqrt);
  }

  /** Evenly spaced dates with a positive step are in ascending order. */
  lemma EvenSorted(dates: seq<int>, step: int)
    requires 0 < step
    requires forall i :: 0 <= i < |dates| ==> dates[i] == dates[0] + step * i
    ensures IsSorted(AsReals(dates))
  {
    var xs := AsReals(dates);
    forall i, j | 0 <= i < j < |xs| ensures xs[i] <= xs[j] {
      StepMonotone(step, i, j);
    }
  }

  lemma StepMonotone(step: int, i: int, j: int)
    requires 0 < step && i < j
    ensures step * i < step * j
  {
    assert step * j - step * i == step * (j - i);
  }

  /** Evenly spaced dates are already in order, so every gap is the step. */
  lemma EvenGaps(dates: seq<int>, step: int)
    requires |dates| >= 2 && 0 < step
    requires forall i :: 0 <= i < |dates| ==> dates[i] == dates[0] + step * i
    ensures forall i :: 0 <= i < |Gaps(dates)| ==> Gaps(dates)[i] == step as real
  {
    var xs := AsReals(dates);
    EvenSorted(dates, step);
    SortOfSorted(xs);
    var g := Gaps(dates);
    assert g == Differences(xs);
    forall i | 0 <= i < |g| ensures g[i] == step as real {
      NextStep(dates[0], step, i, dates[i], dates[i + 1]);
      assert g[i] == xs[i + 1] - xs[i];
    }
  }

  lemma NextStep(d0: int, step: int, i: int, a: int, b: int)
    requires a == d0 + step * i && b == d0 + step * (i + 1)
    ensures b - a == step
  {
    assert step * (i + 1) == step * i + step;
  }

  /** 52 weekly dates: labelled daily (the table's "appears almost every
      week") with confidence 1. */
  lemma WeeklyDatesAreDaily(dates: seq<int>, sqrt: real -> real)
    requires |dates| == 52 && IsSqrt(sqrt)
    requires forall i :: 0 <= i < |dates| ==> dates[i] == dates[0] + 7 * i
    ensures AnalyzeOccurrencePattern(dates, sqrt).frequency == Daily
    ensures AnalyzeOccurrencePattern(dates, sqrt).confidence == 1.0
  {
    EvenlySpaced(dates, 7, sqrt);
  }

  /** 13 dates four weeks apart: labelled biweekly with confidence 1. */
  lemma FourWeeklyDatesAreBiweekly(dates: seq<int>, sqrt: real -> real)
    requires |dates| == 13 && IsSqrt(sqrt)
    requires forall i :: 0 <= i < |dates| ==> dates[i] == dates[0] + 28 * i
    ensures AnalyzeOccurrencePattern(dates, sqrt).frequency == Biweekly
    ensures AnalyzeOccurrencePattern(dates, sqrt).confidence == 1.0
  {
    EvenlySpaced(dates, 28, sqrt);
  }

  /** 4 dates thirteen weeks apart: labelled monthly with confidence 0.8. */
  lemma QuarterlyDatesAreMonthly(dates: seq<int>, sqrt: real -> real)
    requires |dates| == 4 && IsSqrt(sqrt)
    requires forall i :: 0 <= i < |dates| ==> dates[i] == dates[0] + 91 * i
    ensures AnalyzeOccurrencePattern(dates, sqrt).frequency == Monthly
    ensures AnalyzeOccurrencePattern(dates, sqrt).confidence == 0.8
  {
    EvenlySpaced(dates, 91, sqrt);
  }

  /** Occurrences in weeks 0, 2, 8, 10, 30, 45 and 50 after a start day:
      the gaps (14, 42, 14, 140, 105 and 35 days) vary so much that the
      override labels the category irregular. */
  lemma UnevenWeeksAreIrregular(start: int, sqrt: real -> real)
    requires IsSqrt(sqrt)
    ensures var r := AnalyzeOccurrencePattern(
              [start, start + 14, start + 56, start + 70, start + 210, start + 315, start + 350], sqrt);
            r.frequency == Irregular && 0.7 < r.confidence && r.regularity < 0.3
  {
    var dates := [start, start + 14, start + 56, start + 70, start + 210, start + 315, start + 350];
    UnevenWeeksGaps(start);
    UnevenGapsPattern(sqrt);
    assert AnalyzeOccurrencePattern(dates, sqrt) == PatternOfGaps(Gaps(dates), sqrt);
  }

  lemma UnevenWeeksGaps(start: int)
    ensures Gaps([start, start + 14, start + 56, start + 70, start + 210, start + 315, start + 350])
            == [14.0, 42.0, 14.0, 140.0, 105.0, 35.0]
  {
    var dates := [start, start + 14, start + 56, start + 70, start + 210, start + 315, start + 350];
    SortedGaps(dates);
    var g := Gaps(dates);
    assert |g| == 6;
    forall i | 0 <= i < 6 ensures g[i] == (dates[i + 1] - dates[i]) as real { }
    assert dates[3] - dates[2] == 14 && dates[4] - dates[3] == 140;
    assert dates[5] - dates[4] == 105 && dates[6] - dates[5] == 35;
  }

  /** For dates already in ascending order the gaps are the plain
      consecutive differences. */
  lemma SortedGaps(dates: seq<int>)
    requires |dates| >= 1
    requires forall i :: 0 <= i < |dates| - 1 ==> dates[i] <= dates[i + 1]
    ensures forall i :: 0 <= i < |dates| - 1 ==> Gaps(dates)[i] == (dates[i + 1] - dates[i]) as real
  {
    var xs := AsReals(dates);
    AdjacentSorted(xs);
    SortOfSorted(xs);
  }

  lemma UnevenGapsPattern(sqrt: real -> real)
    requires IsSqrt(sqrt)
    ensures var r := PatternOfGaps([14.0, 42.0, 14.0, 140.0, 105.0, 35.0], sqrt);
            r.frequency == Irregular && 0.7 < r.confidence && r.regularity < 0.3
  {
    var g := [14.0, 42.0, 14.0, 140.0, 105.0, 35.0];
    var m := 350.0 / 6.0;
    assert Mean(g) == m;
    assert CoMoment(g, g, m, m) > 6.0 * 1681.0;
    SqrtAtLeast(sqrt, 41.0, Variance(g));
  }

  /** Occurrences in weeks 0, 1, 2, 3, 4 and 7 after a start day: five
      gaps with an average of 9.8 days, but the single 21-day gap brings
      regularity to about 0.43, which is too low for the daily band, and
      the category ends up semi-annual. */
  lemma MostlyWeeklyIsSemiAnnual(start: int, sqrt: real -> real)
    requires IsSqrt(sqrt)
    ensures var r := AnalyzeOccurrencePattern(
              [start, start + 7, start + 14, start + 21, start + 28, start + 49], sqrt);
            r.frequency == SemiAnnual && r.avgGap == 9.8 && 0.4 < r.regularity <= 0.5
  {
    var dates := [start, start + 7, start + 14, start + 21, start + 28, start + 49];
    MostlyWeeklyGaps(start);
    MostlyWeeklyGapsPattern(sqrt);
    assert AnalyzeOccurrencePattern(dates, sqrt) == PatternOfGaps(Gaps(dates), sqrt);
  }

  lemma MostlyWeeklyGaps(start: int)
    ensures Gaps([start, start + 7, start + 14, start + 21, start + 28, start + 49])
            == [7.0, 7.0, 7.0, 7.0, 21.0]
  {
    var dates := [start, start + 7, start + 14, start + 21, start + 28, start + 49];
    SortedGaps(dates);
    var g := Gaps(dates);
    assert |g| == 5;
    forall i | 0 <= i < 5 ensures g[i] == (dates[i + 1] - dates[i]) as real { }
    assert dates[3] - dates[2] == 7 && dates[4] - dates[3] == 7;
    assert dates[5] - dates[4] == 21;
  }

  lemma MostlyWeeklyGapsPattern(sqrt: real -> real)
    requires IsSqrt(sqrt)
    ensures var r := PatternOfGaps([7.0, 7.0, 7.0, 7.0, 21.0], sqrt);
            r.frequency == SemiAnnual && r.avgGap == 9.8 && 0.4 < r.regularity <= 0.5
  {
    var g := [7.0, 7.0, 7.0, 7.0, 21.0];
    assert Mean(g) == 9.8;
    assert CoMoment(g, g, 9.8, 9.8) == 156.8;
    assert Variance(g) == 31.36;
    SqrtAtLeast(sqrt, 5.5, 31.36);
    SqrtAtMost(sqrt, 5.7, 31.36);
  }
}

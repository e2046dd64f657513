/** The pattern-aware threshold table of the second analysis script: the
    z multiplier of each category is widened by up to half when its
    occurrence pattern is irregular, so irregular categories get more
    lenient thresholds. */
module VolumeAnalysisV2 {
  import opened Stats
  import opened Records
  import opened Thresholds
  import FrequencyDetector

  /** One row of the frequency table: a category and its profile. */
  datatype ProfileEntry = ProfileEntry(app: string, messageType: string, profile: FrequencyDetector.Profile)

  /** One row of the pattern-aware threshold table. */
  datatype PatternThreshold = PatternThreshold(
    app: string,
    messageType: string,
    frequency: FrequencyDetector.Frequency,
    regularity: real,
    meanVolume: real,
    stdVolume: real,
    threshold: real,
    adjustedZ: real,
    zThreshold: real,
    percentileThreshold: real,
    iqrThreshold: real)

  /** z * (1 + (1 - regularity) * 0.5) */
  function AdjustedZ(z: real, regularity: real): real
  {
    z * (1.0 + (1.0 - regularity) * 0.5)
  }

  /** For a regularity in [0, 1] the adjusted multiplier lies between z and
      1.5 z, and a perfectly regular category keeps z. */
  lemma AdjustedZBounds(z: real, regularity: real)
    requires 0.0 <= z && 0.0 <= regularity <= 1.0
    ensures z <= AdjustedZ(z, regularity) <= 1.5 * z
    ensures regularity == 1.0 ==> AdjustedZ(z, regularity) == z
  {
    var w := (1.0 - regularity) * 0.5;
    assert AdjustedZ(z, regularity) == z + z * w;
    MulNonNegative(z, w);
    MulNonNegative(z, 0.5 - w);
    assert z * 0.5 - z * w == z * (0.5 - w);
  }

  /** A less regular category never gets a smaller multiplier. */
  lemma AdjustedZAntitone(z: real, r1: real, r2: real)
    requires 0.0 <= z && r1 <= r2
    ensures AdjustedZ(z, r2) <= AdjustedZ(z, r1)
  {
    MulNonNegative(z, (r2 - r1) * 0.5);
    assert AdjustedZ(z, r1) - AdjustedZ(z, r2) == z * ((r2 - r1) * 0.5);
  }

  /** The threshold row of one profile over its category's volumes. */
  function PatternRow(entry: ProfileEntry, vs: seq<real>, s: Sensitivity, sqrt: real -> real): (t: PatternThreshold)
    requires |vs| > 0
    ensures t.app == entry.app && t.messageType == entry.messageType
    ensures t.frequency == entry.profile.frequency && t.regularity == entry.profile.regularity
    ensures t.adjustedZ == AdjustedZ(ConfigOf(s).zScore, entry.profile.regularity)
    ensures t.meanVolume == Mean(vs) && t.stdVolume == Std(vs, sqrt)
    ensures t.zThreshold == ZThreshold(vs, t.adjustedZ, sqrt)
    ensures t.percentileThreshold == Percentile(vs, ConfigOf(s).percentile)
    ensures t.iqrThreshold == IqrThreshold(vs)
    ensures t.zThreshold <= t.threshold && t.percentileThreshold <= t.threshold
    ensures t.iqrThreshold <= t.threshold && 0.0 <= t.threshold
    ensures t.threshold == t.zThreshold || t.threshold == t.percentileThreshold
            || t.threshold == t.iqrThreshold
  {
    var z := AdjustedZ(ConfigOf(s).zScore, entry.profile.regularity);
    var e := EstimateOf(vs, z, ConfigOf(s).percentile, sqrt);
    PatternThreshold(entry.app, entry.messageType, entry.profile.frequency, entry.profile.regularity,
                     e.mean, e.std, e.threshold, z, e.zThreshold, e.percentileThreshold, e.iqrThreshold)
  }

  /** Of two profiles over the same volumes, the less regular one gets a z
      bound and a binding threshold no higher than the more regular one;
      its percentile and inter-quartile bounds are the same. */
  lemma PatternRowMonotone(e1: ProfileEntry, e2: ProfileEntry, vs: seq<real>, s: Sensitivity, sqrt: real -> real)
    requires |vs| > 0 && IsSqrt(sqrt)
    requires e1.profile.regularity <= e2.profile.regularity
    ensures PatternRow(e1, vs, s, sqrt).zThreshold <= PatternRow(e2, vs, s, sqrt).zThreshold
    ensures PatternRow(e1, vs, s, sqrt).threshold <= PatternRow(e2, vs, s, sqrt).threshold
    ensures PatternRow(e1, vs, s, sqrt).percentileThreshold == PatternRow(e2, vs, s, sqrt).percentileThreshold
    ensures PatternRow(e1, vs, s, sqrt).iqrThreshold == PatternRow(e2, vs, s, sqrt).iqrThreshold
  {
    var z := ConfigOf(s).zScore;
    AdjustedZAntitone(z, e1.profile.regularity, e2.profile.regularity);
    ZThresholdAntitone(vs, AdjustedZ(z, e2.profile.regularity), AdjustedZ(z, e1.profile.regularity), sqrt);
  }

  /** A category's row is bracketed by the fixed-z rule: its z bound is at
      most the one of the plain z multiplier and at least the one of 1.5 z. */
  lemma PatternRowBetweenFixedRules(entry: ProfileEntry, vs: seq<real>, s: Sensitivity, sqrt: real -> real)
    requires |vs| > 0 && IsSqrt(sqrt) && 0.0 <= entry.profile.regularity <= 1.0
    ensures ZThreshold(vs, 1.5 * ConfigOf(s).zScore, sqrt) <= PatternRow(entry, vs, s, sqrt).zThreshold
    ensures PatternRow(entry, vs, s, sqrt).zThreshold <= ZThreshold(vs, ConfigOf(s).zScore, sqrt)
  {
    var z := ConfigOf(s).zScore;
    var r := entry.profile.regularity;
    AdjustedZBounds(z, r);
    ZThresholdAntitone(vs, z, AdjustedZ(z, r), sqrt);
    ZThresholdAntitone(vs, AdjustedZ(z, r), 1.5 * z, sqrt);
  }

  /** For a profile computed by detect_frequency_advanced the regularity is
      in [0, 1], so the adjusted multiplier is between z and 1.5 z. */
  lemma ProfileAdjustedZ(obs: seq<Observation>, totalWeeks: nat, z: real, sqrt: real -> real)
    requires |obs| > 0 && totalWeeks > 0 && IsSqrt(sqrt) && 0.0 <= z
    ensures var r := FrequencyDetector.DetectFrequencyAdvanced(obs, totalWeeks, sqrt).regularity;
            z <= AdjustedZ(z, r) <= 1.5 * z
  {
    var p := FrequencyDetector.DetectFrequencyAdvanced(obs, totalWeeks, sqrt);
    assert 0.0 <= p.regularity <= 1.0;
    AdjustedZBounds(z, p.regularity);
  }

  /** What one frequency-table row contributes: the threshold row of its
      category when the category has at least min_weeks rows. */
  function PatternCandidate(entry: ProfileEntry, rows: seq<Row>, s: Sensitivity, sqrt: real -> real)
    : (c: Option<PatternThreshold>)
    ensures c.Some? <==> ConfigOf(s).minWeeks <= |RowsOf(rows, entry.app, entry.messageType)|
    ensures c.Some? ==>
              c.value == PatternRow(entry, Volumes(RowsOf(rows, entry.app, entry.messageType)), s, sqrt)
  {
    var group := RowsOf(rows, entry.app, entry.messageType);
    if |group| < ConfigOf(s).minWeeks then None
    else Some(PatternRow(entry, Volumes(group), s, sqrt))
  }

  function PatternCandidates(entries: seq<ProfileEntry>, rows: seq<Row>, s: Sensitivity, sqrt: real -> real)
    : (cs: seq<Option<PatternThreshold>>)
    ensures |cs| == |entries|
    ensures forall i :: 0 <= i < |entries| ==> cs[i] == PatternCandidate(entries[i], rows, s, sqrt)
  {
    seq(|entries|, i requires 0 <= i < |entries| => PatternCandidate(entries[i], rows, s, sqrt))
  }

  /** The loop over the frequency table that fills threshold_data. */
  method PatternAwareThresholds(entries: seq<ProfileEntry>, rows: seq<Row>, s: Sensitivity, sqrt: real -> real)
    returns (table: seq<PatternThreshold>)
    ensures table == Somes(PatternCandidates(entries, rows, s, sqrt))
    ensures |table| <= |entries|
  {
    ghost var cs := PatternCandidates(entries, rows, s, sqrt);
    table := [];
    var i := 0;
    while i < |entries|
      invariant 0 <= i <= |entries|
      invariant table == Somes(cs[..i])
    {
      SomesSnoc(cs, i);
      table := AddPatternRow(table, entries[i], rows, s, sqrt);
      i := i + 1;
    }
    assert cs[..i] == cs;
  }

  /** One pass of that loop: an entry whose category has at least min_weeks
      rows appends its row, any other entry leaves the table as it is. */
  method AddPatternRow(table: seq<PatternThreshold>, entry: ProfileEntry, rows: seq<Row>, s: Sensitivity,
                       sqrt: real -> real)
    returns (table': seq<PatternThreshold>)
    ensures table' == table + AsSeq(PatternCandidate(entry, rows, s, sqrt))
  {
    table' := table;
    var group := RowsOf(rows, entry.app, entry.messageType);
    if |group| >= ConfigOf(s).minWeeks {
      table' := table' + [PatternRow(entry, Volumes(group), s, sqrt)];
    }
  }

  /** A row is in the pattern-aware table exactly when some frequency-table
      entry's candidate holds it, which by PatternCandidate's contract means
      the entry's category has at least min_weeks rows and the row is the
      entry's PatternRow, carrying its frequency label and regularity. */
  lemma PatternTableFilter(entries: seq<ProfileEntry>, rows: seq<Row>, s: Sensitivity, sqrt: real -> real)
    ensures forall t :: t in Somes(PatternCandidates(entries, rows, s, sqrt)) <==>
              exists i :: 0 <= i < |entries| && PatternCandidate(entries[i], rows, s, sqrt) == Some(t)
  {
    var cs := PatternCandidates(entries, rows, s, sqrt);
    SomesMembers(cs);
  }
}

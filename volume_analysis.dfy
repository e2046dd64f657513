/** The first analysis script: an occurrence-rate cadence label per
    category, a threshold table for the categories with enough weeks, and
    the older three-level alert rule for the latest week. */
module VolumeAnalysis {
  import opened Stats
  import opened Records
  import opened Thresholds

  // ---------------------------------------------------------------------
  // Occurrence-rate cadence

  datatype Cadence = Daily | Weekly | Biweekly | Monthly | Quarterly | SemiAnnual

  /** The default length of the observed period, in weeks. */
  const DefaultTotalWeeks: nat := 104

  /** Position from the densest to the sparsest cadence. */
  function CadenceRank(c: Cadence): nat
  {
    match c
    case Daily => 0
    case Weekly => 1
    case Biweekly => 2
    case Monthly => 3
    case Quarterly => 4
    case SemiAnnual => 5
  }

  /** The band table over the share of weeks with data. */
  function CadenceOfRate(rate: real): (c: Cadence)
    ensures c == Daily <==> 0.95 <= rate
    ensures c == Weekly <==> 0.75 <= rate < 0.95
    ensures c == Biweekly <==> 0.35 <= rate < 0.75
    ensures c == Monthly <==> 0.15 <= rate < 0.35
    ensures c == Quarterly <==> 0.05 <= rate < 0.15
    ensures c == SemiAnnual <==> rate < 0.05
  {
    if rate >= 0.95 then Daily
    else if rate >= 0.75 then Weekly
    else if rate >= 0.35 then Biweekly
    else if rate >= 0.15 then Monthly
    else if rate >= 0.05 then Quarterly
    else SemiAnnual
  }

  /** A category present in more weeks never gets a sparser cadence. */
  lemma CadenceMonotone(r1: real, r2: real)
    requires r1 <= r2
    ensures CadenceRank(CadenceOfRate(r2)) <= CadenceRank(CadenceOfRate(r1))
  {
  }

  /** detect_frequency: the cadence of a category's rows and its
      occurrence rate, the share of the period's weeks that have a row. */
  function DetectFrequency(obs: seq<Observation>, totalWeeks: nat): (r: (Cadence, real))
    requires totalWeeks > 0
    ensures 0.0 <= r.1 && r.1 * (totalWeeks as real) == |obs| as real
    ensures r.0 == CadenceOfRate(r.1)
  {
    var rate := Ratio(|obs| as real, totalWeeks as real);
    (CadenceOfRate(rate), rate)
  }

  /** A category with a row in every week of the period is daily. */
  lemma FullPeriodIsDaily(obs: seq<Observation>, totalWeeks: nat)
    requires totalWeeks > 0 && |obs| == totalWeeks
    ensures DetectFrequency(obs, totalWeeks).0 == Daily
  {
    var rate := DetectFrequency(obs, totalWeeks).1;
    var n := totalWeeks as real;
    assert rate * n == 1.0 * n;
    FactorCancel(rate, 1.0, n);
  }

  /** A positive factor cancels from both sides of an equation. */
  lemma FactorCancel(a: real, b: real, n: real)
    requires 0.0 < n && a * n == b * n
    ensures a == b
  {
    if a < b {
      MulPositive(b - a, n);
    } else if b < a {
      MulPositive(a - b, n);
    }
  }

  // ---------------------------------------------------------------------
  // calculate_thresholds

  /** The values calculate_thresholds returns for one category. */
  datatype ThresholdSet = ThresholdSet(
    mean: real,
    std: real,
    zThreshold: real,
    percentileThreshold: real,
    iqrThreshold: real,
    percentageThreshold: real,
    finalThreshold: real,
    cv: real)

  /** calculate_thresholds: the three estimators, the informational 30 %
      line below the mean, their binding maximum and the coefficient of
      variation. */
  function CalculateThresholds(vs: seq<real>, s: Sensitivity, sqrt: real -> real): (t: ThresholdSet)
    requires |vs| > 0
    ensures t.mean == Mean(vs) && t.std == Std(vs, sqrt)
    ensures t.zThreshold == ZThreshold(vs, ConfigOf(s).zScore, sqrt)
    ensures t.percentileThreshold == Percentile(vs, ConfigOf(s).percentile)
    ensures t.iqrThreshold == IqrThreshold(vs)
    ensures t.percentageThreshold == 0.7 * t.mean
    ensures t.finalThreshold == Max(Max(t.zThreshold, t.percentileThreshold), t.iqrThreshold)
    ensures t.zThreshold <= t.finalThreshold && t.percentileThreshold <= t.finalThreshold
    ensures t.iqrThreshold <= t.finalThreshold && 0.0 <= t.finalThreshold
    ensures 0.0 <= t.std ==> 0.0 <= t.cv
    ensures t.mean <= 0.0 ==> t.cv == 0.0
    ensures 0.0 < t.mean ==> t.cv == Ratio(t.std, t.mean)
  {
    var e := EstimateOf(vs, ConfigOf(s).zScore, ConfigOf(s).percentile, sqrt);
    var cv := if e.mean > 0.0 then Ratio(e.std, e.mean) else 0.0;
    ThresholdSet(e.mean, e.std, e.zThreshold, e.percentileThreshold, e.iqrThreshold,
                 0.7 * e.mean, e.threshold, cv)
  }

  /** The 30 % line is not binding: for the history [0, 10] at medium
      sensitivity, a volume of 2 lies more than 30 % below the mean of 5
      yet above the binding threshold of 0.5. */
  lemma PercentageThresholdNotBinding(sqrt: real -> real)
    requires IsSqrt(sqrt)
    ensures var t := CalculateThresholds([0.0, 10.0], Sensitivity.Medium, sqrt);
            && t.finalThreshold == 0.5 && t.percentageThreshold == 3.5
            && t.finalThreshold < 2.0 < t.percentageThreshold
  {
    ExamplePercentiles();
    ExampleZThreshold(sqrt);
  }

  /** The percentiles of the history [0, 10]. */
  lemma ExamplePercentiles()
    ensures Percentile([0.0, 10.0], 5.0) == 0.5
    ensures IqrThreshold([0.0, 10.0]) == 0.0
  {
    SortOfSorted([0.0, 10.0]);
    ExampleInterpolation();
  }

  /** Interpolating in the ascending pair [0, 10]. */
  lemma ExampleInterpolation()
    ensures Interpolate([0.0, 10.0], 5.0) == 0.5
    ensures Interpolate([0.0, 10.0], 25.0) == 2.5
    ensures Interpolate([0.0, 10.0], 75.0) == 7.5
  {
    assert VirtualIndex(2, 5.0) == 0.05 && (0.05).Floor == 0;
    assert VirtualIndex(2, 25.0) == 0.25 && (0.25).Floor == 0;
    assert VirtualIndex(2, 75.0) == 0.75 && (0.75).Floor == 0;
  }

  /** The mean of [0, 10] is 5 and its standard deviation 5, so twice the
      standard deviation below the mean is clamped to 0. */
  lemma ExampleZThreshold(sqrt: real -> real)
    requires IsSqrt(sqrt)
    ensures Mean([0.0, 10.0]) == 5.0
    ensures ZThreshold([0.0, 10.0], 2.0, sqrt) == 0.0
  {
    var vs := [0.0, 10.0];
    assert Sum(vs) == 10.0;
    assert CoMoment(vs, vs, 5.0, 5.0) == 50.0;
    assert Variance(vs) == 25.0;
    SqrtAtLeast(sqrt, 5.0, 25.0);
  }

  // ---------------------------------------------------------------------
  // The threshold table

  /** One row of the threshold table. */
  datatype ThresholdRow = ThresholdRow(
    app: string,
    messageType: string,
    weeksOfData: nat,
    meanVolume: real,
    stdVolume: real,
    cv: real,
    threshold: real,
    zScoreMethod: real,
    percentileMethod: real,
    iqrMethod: real)

  /** The table row of a category, from all of its rows (the week being
      checked included). */
  function RowOf(g: Group, s: Sensitivity, sqrt: real -> real): (r: ThresholdRow)
    requires |g.rows| > 0
    ensures r.app == g.app && r.messageType == g.messageType && r.weeksOfData == |g.rows|
    ensures r.meanVolume == Mean(Volumes(g.rows))
    ensures r.threshold == CalculateThresholds(Volumes(g.rows), s, sqrt).finalThreshold
    ensures r.stdVolume == CalculateThresholds(Volumes(g.rows), s, sqrt).std
    ensures r.cv == CalculateThresholds(Volumes(g.rows), s, sqrt).cv
    ensures r.zScoreMethod == CalculateThresholds(Volumes(g.rows), s, sqrt).zThreshold
    ensures r.percentileMethod == CalculateThresholds(Volumes(g.rows), s, sqrt).percentileThreshold
    ensures r.iqrMethod == CalculateThresholds(Volumes(g.rows), s, sqrt).iqrThreshold
  {
    var t := CalculateThresholds(Volumes(g.rows), s, sqrt);
    ThresholdRow(g.app, g.messageType, |g.rows|, t.mean, t.std, t.cv, t.finalThreshold,
                 t.zThreshold, t.percentileThreshold, t.iqrThreshold)
  }

  /** What a category contributes to the table: its row when it has at
      least min_weeks rows, nothing otherwise. */
  function Candidate(g: Group, s: Sensitivity, sqrt: real -> real): (c: Option<ThresholdRow>)
    ensures c.Some? <==> ConfigOf(s).minWeeks <= |g.rows|
    ensures c.Some? ==> c.value == RowOf(g, s, sqrt)
  {
    if |g.rows| >= ConfigOf(s).minWeeks then Some(RowOf(g, s, sqrt)) else None
  }

  function Candidates(groups: seq<Group>, s: Sensitivity, sqrt: real -> real): (cs: seq<Option<ThresholdRow>>)
    ensures |cs| == |groups|
    ensures forall i :: 0 <= i < |groups| ==> cs[i] == Candidate(groups[i], s, sqrt)
  {
    seq(|groups|, i requires 0 <= i < |groups| => Candidate(groups[i], s, sqrt))
  }

  /** The table rows of the categories with at least min_weeks rows, in
      category order. */
  function ThresholdRows(groups: seq<Group>, s: Sensitivity, sqrt: real -> real): (table: seq<ThresholdRow>)
    ensures |table| <= |groups|
  {
    Somes(Candidates(groups, s, sqrt))
  }

  /** The loop filling threshold_data. */
  method ThresholdTable(groups: seq<Group>, s: Sensitivity, sqrt: real -> real)
    returns (table: seq<ThresholdRow>)
    ensures table == ThresholdRows(groups, s, sqrt)
  {
    ghost var cs := Candidates(groups, s, sqrt);
    table := [];
    var i := 0;
    while i < |groups|
      invariant 0 <= i <= |groups|
      invariant table == Somes(cs[..i])
    {
      SomesSnoc(cs, i);
      table := AddRow(table, groups[i], s, sqrt);
      i := i + 1;
    }
    assert cs[..i] == cs;
  }

  /** One pass of that loop: a category with at least min_weeks rows
      appends its row, any other category leaves the table as it is. */
  method AddRow(table: seq<ThresholdRow>, g: Group, s: Sensitivity, sqrt: real -> real)
    returns (table': seq<ThresholdRow>)
    ensures table' == table + AsSeq(Candidate(g, s, sqrt))
  {
    table' := table;
    if |g.rows| >= ConfigOf(s).minWeeks {
      table' := table' + [RowOf(g, s, sqrt)];
    }
  }

  /** A category gets a table row exactly when it has min_weeks rows: a row
      is in the table if and only if some category's candidate holds it,
      which by Candidate's contract means the category has at least
      min_weeks rows and the row is that category's RowOf. */
  lemma ThresholdRowsFilter(groups: seq<Group>, s: Sensitivity, sqrt: real -> real)
    ensures forall t :: t in ThresholdRows(groups, s, sqrt) <==>
              exists i :: 0 <= i < |groups| && Candidate(groups[i], s, sqrt) == Some(t)
  {
    var cs := Candidates(groups, s, sqrt);
    SomesMembers(cs);
  }

  /** A table whose positive thresholds all come with a positive mean. */
  predicate SafeTable(table: seq<ThresholdRow>)
  {
    forall i :: 0 <= i < |table| && 0.0 < table[i].threshold ==> 0.0 < table[i].meanVolume
  }

  /** For non-negative volumes the threshold table is safe. */
  lemma ThresholdTableSafe(groups: seq<Group>, s: Sensitivity, sqrt: real -> real)
    requires IsSqrt(sqrt)
    requires forall i :: 0 <= i < |groups| ==> NonNegative(groups[i].rows)
    ensures SafeTable(ThresholdRows(groups, s, sqrt))
  {
    var table := ThresholdRows(groups, s, sqrt);
    ThresholdRowsFilter(groups, s, sqrt);
    forall k | 0 <= k < |table| && 0.0 < table[k].threshold ensures 0.0 < table[k].meanVolume {
      assert table[k] in table;
      var i :| 0 <= i < |groups| && Candidate(groups[i], s, sqrt) == Some(table[k]);
      RowPositiveMean(groups[i], s, sqrt);
    }
  }

  /** A category row of non-negative volumes with a positive threshold has a
      positive mean. */
  lemma RowPositiveMean(g: Group, s: Sensitivity, sqrt: real -> real)
    requires IsSqrt(sqrt) && |g.rows| > 0 && NonNegative(g.rows)
    ensures 0.0 < RowOf(g, s, sqrt).threshold ==> 0.0 < RowOf(g, s, sqrt).meanVolume
  {
    var vs := Volumes(g.rows);
    assert AllNonNegative(vs);
    if 0.0 < RowOf(g, s, sqrt).threshold {
      PositiveThresholdHasPositiveMean(vs, ConfigOf(s).zScore, ConfigOf(s).percentile, sqrt);
    }
  }

  // ---------------------------------------------------------------------
  // detect_alerts

  datatype Severity = High | Medium | Low

  /** The older severity rule, with strict comparisons: above 50 % high,
      above 30 % medium, anything else low. */
  function SeverityOf(drop: real): (s: Severity)
    ensures s == Severity.High <==> 50.0 < drop
    ensures s == Severity.Medium <==> 30.0 < drop <= 50.0
    ensures s == Severity.Low <==> drop <= 30.0
  {
    if drop > 50.0 then Severity.High else if drop > 30.0 then Severity.Medium else Severity.Low
  }

  /** One alert of detect_alerts. */
  datatype Alert = Alert(
    app: string,
    messageType: string,
    date: int,
    currentVolume: real,
    threshold: real,
    meanVolume: real,
    recentAvg: real,
    dropPct: real,
    severity: Severity)

  predicate Matches(t: ThresholdRow, app: string, messageType: string)
  {
    t.app == app && t.messageType == messageType
  }

  /** The first table row of a category, if any. */
  function Lookup(table: seq<ThresholdRow>, app: string, messageType: string): (r: Option<ThresholdRow>)
    ensures r.None? <==> forall i :: 0 <= i < |table| ==> !Matches(table[i], app, messageType)
    ensures r.Some? ==>
              exists i :: 0 <= i < |table| && table[i] == r.value && Matches(table[i], app, messageType)
                          && forall j :: 0 <= j < i ==> !Matches(table[j], app, messageType)
  {
    if table == [] then None
    else if Matches(table[0], app, messageType) then Some(table[0])
    else
      var r := Lookup(table[1..], app, messageType);
      assert r.Some? ==> exists i :: 1 <= i < |table| && table[i] == r.value
                                     && Matches(table[i], app, messageType)
                                     && forall j :: 0 <= j < i ==> !Matches(table[j], app, messageType) by {
        if r.Some? {
          var k :| 0 <= k < |table[1..]| && table[1..][k] == r.value && Matches(table[1..][k], app, messageType)
                   && forall j :: 0 <= j < k ==> !Matches(table[1..][j], app, messageType);
          assert table[k + 1] == r.value;
          forall j | 0 <= j < k + 1 ensures !Matches(table[j], app, messageType) {
            if j > 0 {
              assert table[j] == table[1..][j - 1];
            }
          }
        }
      }
      assert r.None? ==> forall i :: 0 <= i < |table| ==> !Matches(table[i], app, messageType) by {
        if r.None? {
          forall i | 0 <= i < |table| ensures !Matches(table[i], app, messageType) {
            if i > 0 {
              assert table[i] == table[1..][i - 1];
            }
          }
        }
      }
      r
  }

  /** The recent-trend figure: the mean of the last four earlier rows of
      the category, or its mean when it has no earlier row. */
  function RecentAverage(earlier: seq<real>, mean: real): (r: real)
    ensures |earlier| == 0 ==> r == mean
    ensures |earlier| > 0 ==> r == Mean(Tail(earlier, 4))
  {
    if |earlier| > 0 then Mean(Tail(earlier, 4)) else mean
  }

  /** The alert, if any, for one current-week row. */
  function RowAlert(row: Row, rows: seq<Row>, table: seq<ThresholdRow>, week: int): (a: Option<Alert>)
    ensures a.Some? <==>
              Lookup(table, row.app, row.messageType).Some?
              && row.volume < Lookup(table, row.app, row.messageType).value.threshold
    ensures a.Some? ==>
              var t := Lookup(table, row.app, row.messageType).value;
              && a.value.app == row.app && a.value.messageType == row.messageType
              && a.value.date == row.date && a.value.currentVolume == row.volume
              && a.value.threshold == t.threshold && a.value.meanVolume == t.meanVolume
              && a.value.dropPct == DropFromMean(t.meanVolume, row.volume)
              && a.value.severity == SeverityOf(a.value.dropPct)
              && a.value.recentAvg
                 == RecentAverage(Volumes(Before(RowsOf(rows, row.app, row.messageType), week)), t.meanVolume)
  {
    match Lookup(table, row.app, row.messageType)
    case None => None
    case Some(t) =>
      if row.volume < t.threshold then
        var drop := DropFromMean(t.meanVolume, row.volume);
        var earlier := Volumes(Before(RowsOf(rows, row.app, row.messageType), week));
        Some(Alert(row.app, row.messageType, row.date, row.volume, t.threshold, t.meanVolume,
                   RecentAverage(earlier, t.meanVolume), drop, SeverityOf(drop)))
      else None
  }

  /** The candidate alerts of a list of current-week rows, one per row. */
  function RowAlerts(current: seq<Row>, rows: seq<Row>, table: seq<ThresholdRow>, week: int): (cs: seq<Option<Alert>>)
    ensures |cs| == |current|
    ensures forall i :: 0 <= i < |current| ==> cs[i] == RowAlert(current[i], rows, table, week)
  {
    seq(|current|, i requires 0 <= i < |current| => RowAlert(current[i], rows, table, week))
  }

  /** The alerts of a list of current-week rows, in their order. */
  function AlertsFor(current: seq<Row>, rows: seq<Row>, table: seq<ThresholdRow>, week: int): (alerts: seq<Alert>)
    ensures |alerts| <= |current|
  {
    Somes(RowAlerts(current, rows, table, week))
  }

  /** detect_alerts: the rows of the checked week, in table order, each
      checked against the threshold of its category. */
  method DetectAlerts(rows: seq<Row>, table: seq<ThresholdRow>, week: int) returns (alerts: seq<Alert>)
    ensures alerts == AlertsFor(RowsAt(rows, week), rows, table, week)
    ensures |alerts| <= |RowsAt(rows, week)|
  {
    var current := RowsAt(rows, week);
    ghost var cs := RowAlerts(current, rows, table, week);
    alerts := [];
    var i := 0;
    while i < |current|
      invariant 0 <= i <= |current|
      invariant alerts == Somes(cs[..i])
    {
      SomesSnoc(cs, i);
      var a := RowAlert(current[i], rows, table, week);
      if a.Some? {
        alerts := alerts + [a.value];
      }
      i := i + 1;
    }
    assert cs[..i] == cs;
  }

  /** An alert is reported exactly when it is the alert of one of the
      current-week rows. */
  lemma AlertsOfRows(current: seq<Row>, rows: seq<Row>, table: seq<ThresholdRow>, week: int)
    ensures forall a :: a in AlertsFor(current, rows, table, week) <==>
              exists i :: 0 <= i < |current| && RowAlert(current[i], rows, table, week) == Some(a)
  {
    var cs := RowAlerts(current, rows, table, week);
    SomesMembers(cs);
  }

  /** Against a safe table, every alert of a non-negative volume is
      measured from a positive mean, so its drop is well defined. */
  lemma AlertsHavePositiveMean(rows: seq<Row>, table: seq<ThresholdRow>, week: int)
    requires SafeTable(table) && RowsNonNegative(rows)
    ensures forall a :: a in AlertsFor(RowsAt(rows, week), rows, table, week) ==> 0.0 < a.meanVolume
  {
    var current := RowsAt(rows, week);
    RowsAtMembers(rows, week);
    AlertsOfRows(current, rows, table, week);
    forall a | a in AlertsFor(current, rows, table, week) ensures 0.0 < a.meanVolume {
      var i :| 0 <= i < |current| && RowAlert(current[i], rows, table, week) == Some(a);
      var row := current[i];
      assert row in rows;
      var t := Lookup(table, row.app, row.messageType).value;
      var k :| 0 <= k < |table| && table[k] == t && Matches(table[k], row.app, row.messageType);
      assert 0.0 < table[k].threshold;
    }
  }
}

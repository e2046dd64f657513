/** The production weekly monitor: for a check week, every category with
    enough history gets a dynamic threshold from its earlier weeks; a
    category without a row in the check week raises a NO_DATA alert and
    one whose volume falls below its threshold raises a VOLUME_DROP alert
    graded by its drop from the historical mean. */
module WeeklyMonitoring {
  import opened Stats
  import opened Records
  import opened Thresholds

  datatype Severity = Critical | High | Medium | Low

  datatype AlertType = NoData | VolumeDrop

  /** One alert row; a NO_DATA alert carries no recent average. */
  datatype Alert = Alert(
    app: string,
    messageType: string,
    date: int,
    currentVolume: real,
    threshold: real,
    meanVolume: real,
    recentAvg: Option<real>,
    dropPct: real,
    severity: Severity,
    alertType: AlertType)

  /** calculate_dynamic_threshold: the three estimators of the sensitivity
      level's table entry and their maximum. */
  function CalculateDynamicThreshold(vs: seq<real>, s: Sensitivity, sqrt: real -> real): (e: Estimate)
    requires |vs| > 0
    ensures e.zThreshold == ZThreshold(vs, ConfigOf(s).zScore, sqrt)
    ensures e.percentileThreshold == Percentile(vs, ConfigOf(s).percentile)
    ensures e.iqrThreshold == IqrThreshold(vs)
    ensures e.mean == Mean(vs)
    ensures e.threshold == Max(Max(e.zThreshold, e.percentileThreshold), e.iqrThreshold)
  {
    EstimateOf(vs, ConfigOf(s).zScore, ConfigOf(s).percentile, sqrt)
  }

  /** A more sensitive level never yields a lower threshold for the same
      history: its z multiplier is smaller and its percentile higher. */
  lemma ThresholdMonotoneInSensitivity(vs: seq<real>, s: Sensitivity, t: Sensitivity, sqrt: real -> real)
    requires |vs| > 0 && IsSqrt(sqrt) && Rank(s) <= Rank(t)
    ensures CalculateDynamicThreshold(vs, t, sqrt).threshold <= CalculateDynamicThreshold(vs, s, sqrt).threshold
  {
    ConfigOrdered(s, t);
    ZThresholdAntitone(vs, ConfigOf(s).zScore, ConfigOf(t).zScore, sqrt);
    PercentileMonotone(vs, ConfigOf(t).percentile, ConfigOf(s).percentile);
  }

  /** The severity band of a percentage drop: 70 and above critical, 50
      high, 30 medium, anything less low. */
  function SeverityOf(drop: real): (s: Severity)
    ensures s == Critical <==> 70.0 <= drop
    ensures s == Severity.High <==> 50.0 <= drop < 70.0
    ensures s == Severity.Medium <==> 30.0 <= drop < 50.0
    ensures s == Severity.Low <==> drop < 30.0
  {
    if drop >= 70.0 then Critical
    else if drop >= 50.0 then Severity.High
    else if drop >= 30.0 then Severity.Medium
    else Severity.Low
  }

  /** Position from the most to the least severe. */
  function SeverityRank(s: Severity): nat
  {
    match s
    case Critical => 0
    case High => 1
    case Medium => 2
    case Low => 3
  }

  /** A larger drop is never graded less severe. */
  lemma SeverityMonotone(d1: real, d2: real)
    requires d1 <= d2
    ensures SeverityRank(SeverityOf(d2)) <= SeverityRank(SeverityOf(d1))
  {
  }

  /** The history of a category before the check week. */
  function History(g: Group, checkDate: int): seq<real>
  {
    Volumes(Before(g.rows, checkDate))
  }

  /** The alert, if any, that the loop of detect_weekly_alerts records for
      one category. */
  function GroupAlert(g: Group, checkDate: int, s: Sensitivity, sqrt: real -> real): (a: Option<Alert>)
    ensures a.Some? <==>
              && ConfigOf(s).minWeeks <= |g.rows|
              && ConfigOf(s).minWeeks <= |History(g, checkDate)|
              && (|At(g.rows, checkDate)| == 0
                  || At(g.rows, checkDate)[0].volume
                     < CalculateDynamicThreshold(History(g, checkDate), s, sqrt).threshold)
    ensures a.Some? ==>
              && a.value.app == g.app && a.value.messageType == g.messageType
              && a.value.date == checkDate
              && a.value.threshold == CalculateDynamicThreshold(History(g, checkDate), s, sqrt).threshold
              && a.value.meanVolume == Mean(History(g, checkDate))
    ensures a.Some? ==> (a.value.alertType == NoData <==> |At(g.rows, checkDate)| == 0)
    ensures a.Some? && a.value.alertType == NoData ==>
              && a.value.currentVolume == 0.0 && a.value.dropPct == 100.0
              && a.value.severity == Critical && a.value.recentAvg.None?
    ensures a.Some? && a.value.alertType == VolumeDrop ==>
              && a.value.currentVolume == At(g.rows, checkDate)[0].volume
              && a.value.currentVolume < a.value.threshold
              && a.value.dropPct == DropFromMean(a.value.meanVolume, a.value.currentVolume)
              && a.value.severity == SeverityOf(a.value.dropPct)
              && a.value.recentAvg == Some(Mean(Tail(History(g, checkDate), 4)))
  {
    var minWeeks := ConfigOf(s).minWeeks;
    var current := At(g.rows, checkDate);
    var hist := History(g, checkDate);
    if |g.rows| < minWeeks then None
    else if |current| == 0 then
      if |hist| >= minWeeks then
        var e := CalculateDynamicThreshold(hist, s, sqrt);
        Some(Alert(g.app, g.messageType, checkDate, 0.0, e.threshold, e.mean, None, 100.0, Critical, NoData))
      else None
    else if |hist| < minWeeks then None
    else
      var e := CalculateDynamicThreshold(hist, s, sqrt);
      var v := current[0].volume;
      if v < e.threshold then
        var drop := DropFromMean(e.mean, v);
        Some(Alert(g.app, g.messageType, checkDate, v, e.threshold, e.mean,
                   Some(Mean(Tail(hist, 4))), drop, SeverityOf(drop), VolumeDrop))
      else None
  }

  /** Some category has a row in the check week. */
  predicate HasCurrentWeek(groups: seq<Group>, checkDate: int)
  {
    exists i :: 0 <= i < |groups| && |At(groups[i].rows, checkDate)| > 0
  }

  /** What each category contributes, in the order of the categories. */
  function GroupCandidates(groups: seq<Group>, checkDate: int, s: Sensitivity, sqrt: real -> real)
    : (cs: seq<Option<Alert>>)
    ensures |cs| == |groups|
    ensures forall i :: 0 <= i < |groups| ==> cs[i] == GroupAlert(groups[i], checkDate, s, sqrt)
  {
    seq(|groups|, i requires 0 <= i < |groups| => GroupAlert(groups[i], checkDate, s, sqrt))
  }

  /** The alerts of a list of categories, in their order. */
  function AlertsOf(groups: seq<Group>, checkDate: int, s: Sensitivity, sqrt: real -> real): (alerts: seq<Alert>)
    ensures |alerts| <= |groups|
  {
    Somes(GroupCandidates(groups, checkDate, s, sqrt))
  }

  /** detect_weekly_alerts: nothing when no category has a row in the check
      week, otherwise the alerts of every category in turn. */
  function WeeklyAlerts(groups: seq<Group>, checkDate: int, s: Sensitivity, sqrt: real -> real): seq<Alert>
  {
    if HasCurrentWeek(groups, checkDate) then AlertsOf(groups, checkDate, s, sqrt) else []
  }

  /** The check that some category has a row in the check week. */
  method AnyCurrentWeek(groups: seq<Group>, checkDate: int) returns (found: bool)
    ensures found <==> HasCurrentWeek(groups, checkDate)
  {
    found := false;
    var j := 0;
    while j < |groups| && !found
      invariant 0 <= j <= |groups|
      invariant found <==> exists i :: 0 <= i < j && |At(groups[i].rows, checkDate)| > 0
    {
      found := |At(groups[j].rows, checkDate)| > 0;
      j := j + 1;
    }
  }

  /** detect_weekly_alerts: the check for rows in the check week, then the
      loop over the categories. */
  method DetectWeeklyAlerts(groups: seq<Group>, checkDate: int, s: Sensitivity, sqrt: real -> real)
    returns (alerts: seq<Alert>)
    ensures alerts == WeeklyAlerts(groups, checkDate, s, sqrt)
    ensures !HasCurrentWeek(groups, checkDate) ==> alerts == []
    ensures |alerts| <= |groups|
  {
    alerts := [];
    var found := AnyCurrentWeek(groups, checkDate);
    if !found {
      return;
    }
    ghost var cs := GroupCandidates(groups, checkDate, s, sqrt);
    var i := 0;
    while i < |groups|
      invariant 0 <= i <= |groups|
      invariant alerts == Somes(cs[..i])
    {
      SomesSnoc(cs, i);
      alerts := AddAlert(alerts, groups[i], checkDate, s, sqrt);
      i := i + 1;
    }
    assert cs[..i] == cs;
  }

  /** One pass of that loop: the category's alert, if it raises one, is
      appended. */
  method AddAlert(alerts: seq<Alert>, g: Group, checkDate: int, s: Sensitivity, sqrt: real -> real)
    returns (alerts': seq<Alert>)
    ensures alerts' == alerts + AsSeq(GroupAlert(g, checkDate, s, sqrt))
  {
    alerts' := alerts;
    var a := GroupAlert(g, checkDate, s, sqrt);
    if a.Some? {
      alerts' := alerts' + [a.value];
    }
  }

  /** An alert is in the list exactly when one of the categories raises
      it. */
  lemma AlertsComeFromGroups(groups: seq<Group>, checkDate: int, s: Sensitivity, sqrt: real -> real)
    ensures forall a :: a in AlertsOf(groups, checkDate, s, sqrt) <==>
              exists i :: 0 <= i < |groups| && GroupAlert(groups[i], checkDate, s, sqrt) == Some(a)
  {
    var cs := GroupCandidates(groups, checkDate, s, sqrt);
    SomesMembers(cs);
  }

  /** Categories with distinct (app, message_type) keys raise alerts with
      distinct keys: at most one alert per category and run. */
  lemma AlertsOnePerCategory(groups: seq<Group>, checkDate: int, s: Sensitivity, sqrt: real -> real)
    requires forall i, j :: 0 <= i < j < |groups| ==>
               groups[i].app != groups[j].app || groups[i].messageType != groups[j].messageType
    ensures var alerts := AlertsOf(groups, checkDate, s, sqrt);
            forall k, l :: 0 <= k < l < |alerts| ==>
              alerts[k].app != alerts[l].app || alerts[k].messageType != alerts[l].messageType
  {
    var cs := GroupCandidates(groups, checkDate, s, sqrt);
    var alerts := Somes(cs);
    var idx := SomesIndices(cs);
    forall k, l | 0 <= k < l < |alerts|
      ensures alerts[k].app != alerts[l].app || alerts[k].messageType != alerts[l].messageType
    {
      AlertKeys(groups[idx[k]], checkDate, s, sqrt, alerts[k]);
      AlertKeys(groups[idx[l]], checkDate, s, sqrt, alerts[l]);
    }
  }

  lemma AlertKeys(g: Group, checkDate: int, s: Sensitivity, sqrt: real -> real, a: Alert)
    requires GroupAlert(g, checkDate, s, sqrt) == Some(a)
    ensures a.app == g.app && a.messageType == g.messageType
  {
  }

  /** For non-negative volumes, a VOLUME_DROP alert is measured against a
      positive mean, so its drop is the true percentage below the mean and
      the source's division is well defined. */
  lemma VolumeDropHasPositiveMean(g: Group, checkDate: int, s: Sensitivity, sqrt: real -> real)
    requires IsSqrt(sqrt) && NonNegative(g.rows)
    requires GroupAlert(g, checkDate, s, sqrt).Some?
    ensures GroupAlert(g, checkDate, s, sqrt).value.alertType == VolumeDrop ==>
              0.0 < GroupAlert(g, checkDate, s, sqrt).value.meanVolume
  {
    var a := GroupAlert(g, checkDate, s, sqrt).value;
    if a.alertType == VolumeDrop {
      var vs := History(g, checkDate);
      HistoryNonNegative(g, checkDate);
      CurrentNonNegative(g, checkDate);
      PositiveThresholdHasPositiveMean(vs, ConfigOf(s).zScore, ConfigOf(s).percentile, sqrt);
    }
  }

  lemma HistoryNonNegative(g: Group, checkDate: int)
    requires NonNegative(g.rows)
    ensures AllNonNegative(History(g, checkDate))
  {
    BeforeMembers(g.rows, checkDate);
    NonNegativeSubset(g.rows, Before(g.rows, checkDate));
  }

  lemma CurrentNonNegative(g: Group, checkDate: int)
    requires NonNegative(g.rows) && |At(g.rows, checkDate)| > 0
    ensures 0.0 <= At(g.rows, checkDate)[0].volume
  {
    var current := At(g.rows, checkDate);
    AtMembers(g.rows, checkDate);
    assert current[0] in current;
    NonNegativeSubset(g.rows, current);
  }

  /** Every alert raised at a less sensitive level is raised, with the same
      current volume and type, at a more sensitive level too. */
  lemma GroupAlertMonotone(g: Group, checkDate: int, s: Sensitivity, t: Sensitivity, sqrt: real -> real)
    requires IsSqrt(sqrt) && Rank(s) <= Rank(t)
    requires GroupAlert(g, checkDate, t, sqrt).Some?
    ensures GroupAlert(g, checkDate, s, sqrt).Some?
    ensures GroupAlert(g, checkDate, s, sqrt).value.alertType == GroupAlert(g, checkDate, t, sqrt).value.alertType
    ensures GroupAlert(g, checkDate, s, sqrt).value.currentVolume == GroupAlert(g, checkDate, t, sqrt).value.currentVolume
  {
    ConfigOrdered(s, t);
    var hist := History(g, checkDate);
    if |hist| > 0 {
      ThresholdMonotoneInSensitivity(hist, s, t, sqrt);
    }
  }

  /** A more sensitive level never reports fewer alerts. */
  lemma AlertCountMonotone(groups: seq<Group>, checkDate: int, s: Sensitivity, t: Sensitivity, sqrt: real -> real)
    requires IsSqrt(sqrt) && Rank(s) <= Rank(t)
    ensures |WeeklyAlerts(groups, checkDate, t, sqrt)| <= |WeeklyAlerts(groups, checkDate, s, sqrt)|
  {
    if HasCurrentWeek(groups, checkDate) {
      AlertsOfCountMonotone(groups, checkDate, s, t, sqrt);
    }
  }

  lemma AlertsOfCountMonotone(groups: seq<Group>, checkDate: int, s: Sensitivity, t: Sensitivity, sqrt: real -> real)
    requires IsSqrt(sqrt) && Rank(s) <= Rank(t)
    ensures |AlertsOf(groups, checkDate, t, sqrt)| <= |AlertsOf(groups, checkDate, s, sqrt)|
  {
    var cs := GroupCandidates(groups, checkDate, s, sqrt);
    var ct := GroupCandidates(groups, checkDate, t, sqrt);
    forall i | 0 <= i < |groups| && ct[i].Some? ensures cs[i].Some? {
      GroupAlertMonotone(groups[i], checkDate, s, t, sqrt);
    }
    SomesCountMonotone(cs, ct);
  }
}

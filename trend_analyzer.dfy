/** Trend metrics of a category: per-window average, total, volatility,
    OLS slope, half-versus-half growth rate and a direction label, computed
    over seven nested look-back windows, plus a comparison of the most
    recent weeks against the rest of the history. */
module TrendAnalyzer {
  import opened Stats
  import opened Records

  datatype Direction = Increasing | Decreasing | Stable | InsufficientData | NoData

  /** min, max and median of a non-empty window. */
  datatype Spread = Spread(min: real, max: real, median: real)

  /** The metrics of one window. */
  datatype Metrics = Metrics(
    avgVolume: real,
    totalVolume: real,
    direction: Direction,
    growthRate: real,
    volatility: real,
    slope: real,
    dataPoints: nat,
    spread: Option<Spread>)

  /** std/mean, taken as 0 when the mean is not positive. */
  function Volatility(vs: seq<real>, sqrt: real -> real): (v: real)
    requires |vs| > 0 && IsSqrt(sqrt)
    ensures 0.0 <= v
    ensures Mean(vs) <= 0.0 ==> v == 0.0
  {
    if Mean(vs) > 0.0 then Ratio(Std(vs, sqrt), Mean(vs)) else 0.0
  }

  /** The two averages the growth rate compares: the means of the first
      and second halves (split at n/2) from four points on, the first and
      last points below that. */
  function HalfAverages(vs: seq<real>): (r: (real, real))
    requires |vs| >= 2
  {
    if |vs| >= 4 then (Mean(vs[..|vs| / 2]), Mean(vs[|vs| / 2..]))
    else (vs[0], vs[|vs| - 1])
  }

  /** Percentage change from the first to the second half average; 0 when
      the first is not positive. */
  function GrowthRate(vs: seq<real>): (g: real)
    requires |vs| >= 2
    ensures HalfAverages(vs).0 <= 0.0 ==> g == 0.0
    ensures HalfAverages(vs).0 > 0.0 ==>
              (g > 0.0 <==> HalfAverages(vs).1 > HalfAverages(vs).0) &&
              (g < 0.0 <==> HalfAverages(vs).1 < HalfAverages(vs).0)
  {
    var (first, second) := HalfAverages(vs);
    if first > 0.0 then Ratio(second - first, first) * 100.0 else 0.0
  }

  /** A constant series does not grow. */
  lemma GrowthOfConstant(vs: seq<real>, c: real)
    requires |vs| >= 2
    requires forall i :: 0 <= i < |vs| ==> vs[i] == c
    ensures GrowthRate(vs) == 0.0
  {
    if |vs| >= 4 {
      MeanConstant(vs[..|vs| / 2], c);
      MeanConstant(vs[|vs| / 2..], c);
    }
  }

  /** The direction label as the source writes it: a growth of exactly
      +5 % is labelled decreasing. */
  function DirectionAsWritten(g: real): (d: Direction)
    ensures d == Stable <==> -5.0 < g < 5.0
    ensures d == Increasing <==> g > 5.0
    ensures d == Decreasing <==> g <= -5.0 || g == 5.0
  {
    if Abs(g) < 5.0 then Stable else if g > 5.0 then Increasing else Decreasing
  }

  /** The direction label with the +5 % boundary on the increasing side,
      mirroring the -5 % boundary on the decreasing side. */
  function DirectionOf(g: real): (d: Direction)
    ensures d == Stable <==> -5.0 < g < 5.0
    ensures d == Increasing <==> g >= 5.0
    ensures d == Decreasing <==> g <= -5.0
  {
    if Abs(g) < 5.0 then Stable else if g >= 5.0 then Increasing else Decreasing
  }

  /** Negating the growth swaps increasing and decreasing and keeps stable. */
  lemma DirectionSymmetric(g: real)
    ensures DirectionOf(g) == Stable <==> DirectionOf(-g) == Stable
    ensures DirectionOf(g) == Increasing <==> DirectionOf(-g) == Decreasing
  {
  }

  /** A series going from 100 to 105 grows by exactly 5 %: the trend
      metrics label it decreasing, and the two boundary growths +5 and -5
      get the same label, so the as-written rule is not symmetric; the
      corrected rule labels it increasing. */
  lemma FivePercentGrowthAsWritten(sqrt: real -> real)
    requires IsSqrt(sqrt)
    ensures GrowthRate([100.0, 105.0]) == 5.0
    ensures CalculateTrendMetrics([100.0, 105.0], sqrt).direction == Decreasing
    ensures DirectionAsWritten(GrowthRate([100.0, 105.0])) == Decreasing
    ensures DirectionAsWritten(5.0) == DirectionAsWritten(-5.0)
    ensures DirectionOf(GrowthRate([100.0, 105.0])) == Increasing
  {
    assert HalfAverages([100.0, 105.0]) == (100.0, 105.0);
  }

  /** calculate_trend_metrics over the volumes of a date-ordered window
      (its dates argument is not used by the source). The direction is
      labelled by the rule as written, so a growth of exactly +5 % is
      decreasing. */
  function CalculateTrendMetrics(vs: seq<real>, sqrt: real -> real): (m: Metrics)
    requires IsSqrt(sqrt)
    ensures m.dataPoints == |vs|
    ensures |vs| == 0 <==> m.direction == NoData
    ensures |vs| == 0 ==> m == Metrics(0.0, 0.0, NoData, 0.0, 0.0, 0.0, 0, None)
    ensures |vs| == 1 <==> m.direction == InsufficientData
    ensures |vs| == 1 ==> m.slope == 0.0 && m.growthRate == 0.0
    ensures |vs| >= 2 ==> m.slope == OlsSlope(vs) && m.growthRate == GrowthRate(vs)
    ensures |vs| >= 2 ==> m.direction == DirectionAsWritten(m.growthRate)
    ensures 0.0 <= m.volatility
    ensures |vs| > 0 ==> m.volatility == Volatility(vs, sqrt)
    ensures |vs| > 0 ==> m.spread == Some(Spread(MinOf(vs), MaxOf(vs), Median(vs)))
    ensures |vs| > 0 ==>
              && m.spread.Some?
              && m.spread.value.min <= m.spread.value.median <= m.spread.value.max
              && m.spread.value.min <= m.avgVolume <= m.spread.value.max
              && m.spread.value.min in vs && m.spread.value.max in vs
              && m.totalVolume == Sum(vs) && m.avgVolume == Mean(vs)
  {
    if |vs| == 0 then Metrics(0.0, 0.0, NoData, 0.0, 0.0, 0.0, 0, None)
    else
      MedianBetweenMinAndMax(vs);
      MeanBetweenMinAndMax(vs);
      var spread := Spread(MinOf(vs), MaxOf(vs), Median(vs));
      var vol := Volatility(vs, sqrt);
      if |vs| >= 2 then
        var g := GrowthRate(vs);
        Metrics(Mean(vs), Sum(vs), DirectionAsWritten(g), g, vol, OlsSlope(vs), |vs|, Some(spread))
      else
        Metrics(Mean(vs), Sum(vs), InsufficientData, 0.0, vol, 0.0, |vs|, Some(spread))
  }

  /** For a non-empty window the total is the average times the number of
      data points. */
  lemma TrendTotal(vs: seq<real>, sqrt: real -> real, m: Metrics)
    requires |vs| > 0 && IsSqrt(sqrt) && m == CalculateTrendMetrics(vs, sqrt)
    ensures m.totalVolume == m.avgVolume * (m.dataPoints as real)
  {
    MeanTimesCount(vs, m.avgVolume, m.totalVolume, m.dataPoints);
  }

  /** A perfectly linear window a + b*i has slope b. */
  lemma TrendOfLine(vs: seq<real>, a: real, b: real, sqrt: real -> real)
    requires |vs| >= 2 && IsSqrt(sqrt)
    requires forall i :: 0 <= i < |vs| ==> vs[i] == a + b * i as real
    ensures CalculateTrendMetrics(vs, sqrt).slope == b
  {
    OlsSlopeOfLine(vs, a, b);
  }

  /** A constant window of two or more points is stable, with no slope, no
      growth and no volatility. */
  lemma TrendOfConstant(vs: seq<real>, c: real, sqrt: real -> real)
    requires |vs| >= 2 && IsSqrt(sqrt)
    requires forall i :: 0 <= i < |vs| ==> vs[i] == c
    ensures var m := CalculateTrendMetrics(vs, sqrt);
            m.slope == 0.0 && m.growthRate == 0.0 && m.direction == Stable && m.volatility == 0.0
  {
    OlsSlopeOfConstant(vs, c);
    GrowthOfConstant(vs, c);
    StdConstant(vs, c, sqrt);
  }

  // ---------------------------------------------------------------------
  // The seven look-back windows

  const WindowNames: seq<string> :=
    ["2_weeks", "1_month", "3_months", "6_months", "9_months", "12_months", "18_months"]

  const WindowWeeks: seq<nat> := [2, 4, 13, 26, 39, 52, 78]

  /** The window names are pairwise distinct: no two share their first
      two characters. */
  lemma WindowNamesDistinct(i: nat, j: nat)
    requires i < j < |WindowNames|
    ensures WindowNames[i] != WindowNames[j]
  {
    var a, b := WindowNames[i], WindowNames[j];
    assert a[0] != b[0] || a[1] != b[1];
  }

  lemma WindowWeeksAscending(i: nat, j: nat)
    requires i <= j < |WindowWeeks|
    ensures WindowWeeks[i] <= WindowWeeks[j]
  {
  }

  /** The reference date: the one given, or else the latest date of the
      category (none for an empty category, whose windows are all empty). */
  function ReferenceDate(obs: seq<Observation>, reference: Option<int>): (r: Option<int>)
    ensures reference.Some? ==> r == reference
    ensures reference.None? && |obs| > 0 ==> r == Some(LastDate(obs))
    ensures reference.None? && |obs| > 0 ==>
              r.Some? && forall i :: 0 <= i < |obs| ==> obs[i].date <= r.value
    ensures reference.None? && |obs| == 0 ==> r.None?
  {
    if reference.Some? then reference
    else if |obs| == 0 then None
    else Some(LastDate(obs))
  }

  /** The rows of the window reaching weeks back from the reference:
      reference - 7 * weeks < date <= reference. */
  function WindowRows(obs: seq<Observation>, reference: Option<int>, weeks: nat): (w: seq<Observation>)
    ensures |w| <= |obs|
    ensures ReferenceDate(obs, reference).None? ==> w == []
  {
    match ReferenceDate(obs, reference)
    case None => []
    case Some(r) => Window(obs, r - DaysPerWeek * weeks, r)
  }

  /** The window holds exactly the category's rows dated after reference -
      7 * weeks and up to the reference, and nothing when there is no
      reference date. */
  lemma WindowRowsMembers(obs: seq<Observation>, reference: Option<int>, weeks: nat)
    ensures forall o :: o in WindowRows(obs, reference, weeks) ==> o in obs
    ensures ReferenceDate(obs, reference).Some? ==>
              var r := ReferenceDate(obs, reference).value;
              forall o :: o in WindowRows(obs, reference, weeks) <==> o in obs && r - DaysPerWeek * weeks < o.date <= r
  {
    var rd := ReferenceDate(obs, reference);
    if rd.Some? {
      WindowMembers(obs, rd.value - DaysPerWeek * weeks, rd.value);
    }
  }

  /** The metrics of one look-back window. */
  function WindowMetrics(obs: seq<Observation>, reference: Option<int>, weeks: nat, sqrt: real -> real): Metrics
    requires IsSqrt(sqrt)
  {
    CalculateTrendMetrics(Volumes(WindowRows(obs, reference, weeks)), sqrt)
  }

  /** A longer look-back window never holds fewer rows. */
  lemma WindowRowsNested(obs: seq<Observation>, reference: Option<int>, w1: nat, w2: nat)
    requires w1 <= w2
    ensures |WindowRows(obs, reference, w1)| <= |WindowRows(obs, reference, w2)|
  {
    var rd := ReferenceDate(obs, reference);
    if rd.Some? {
      WindowRowsAt(obs, reference, w1, rd.value);
      WindowRowsAt(obs, reference, w2, rd.value);
      WeekSpanMonotone(w1, w2);
      WindowNested(obs, rd.value - DaysPerWeek * w1, rd.value - DaysPerWeek * w2, rd.value);
    } else {
      WindowRowsNone(obs, reference, w1);
      WindowRowsNone(obs, reference, w2);
    }
  }

  lemma WindowRowsNone(obs: seq<Observation>, reference: Option<int>, weeks: nat)
    requires ReferenceDate(obs, reference).None?
    ensures |WindowRows(obs, reference, weeks)| == 0
  {
  }

  lemma WindowRowsAt(obs: seq<Observation>, reference: Option<int>, weeks: nat, r: int)
    requires ReferenceDate(obs, reference) == Some(r)
    ensures WindowRows(obs, reference, weeks) == Window(obs, r - DaysPerWeek * weeks, r)
  {
  }

  lemma WeekSpanMonotone(w1: nat, w2: nat)
    requires w1 <= w2
    ensures DaysPerWeek * w1 <= DaysPerWeek * w2
  {
  }

  /** A longer look-back window never reports fewer data points. */
  lemma WindowsNested(obs: seq<Observation>, reference: Option<int>, w1: nat, w2: nat, sqrt: real -> real)
    requires w1 <= w2 && IsSqrt(sqrt)
    ensures WindowMetrics(obs, reference, w1, sqrt).dataPoints
            <= WindowMetrics(obs, reference, w2, sqrt).dataPoints
  {
    WindowRowsNested(obs, reference, w1, w2);
  }

  /** Along the list of windows the number of data points never falls. */
  lemma WindowsAscending(obs: seq<Observation>, reference: Option<int>, i: nat, j: nat, sqrt: real -> real)
    requires i <= j < |WindowWeeks| && IsSqrt(sqrt)
    ensures WindowMetrics(obs, reference, WindowWeeks[i], sqrt).dataPoints
            <= WindowMetrics(obs, reference, WindowWeeks[j], sqrt).dataPoints
  {
    WindowWeeksAscending(i, j);
    WindowsNested(obs, reference, WindowWeeks[i], WindowWeeks[j], sqrt);
  }

  /** The table mapping each of the first k names to its value. */
  function Tabulate<T>(names: seq<string>, vals: seq<T>, k: nat): map<string, T>
    requires k <= |names| == |vals|
  {
    if k == 0 then map[] else Tabulate(names, vals, k - 1)[names[k - 1] := vals[k - 1]]
  }

  /** One more name adds its value to the table. */
  lemma TabulateStep<T>(names: seq<string>, vals: seq<T>, k: nat, v: T)
    requires k < |names| == |vals| && vals[k] == v
    ensures Tabulate(names, vals, k + 1) == Tabulate(names, vals, k)[names[k] := v]
  {
  }

  /** With distinct names, the first k names are exactly the keys of the
      table, each mapped to its own value. */
  lemma {:induction false} TabulateEntries<T>(names: seq<string>, vals: seq<T>, k: nat)
    requires k <= |names| == |vals|
    requires forall i, j :: 0 <= i < j < |names| ==> names[i] != names[j]
    ensures forall name :: name in Tabulate(names, vals, k) <==> name in names[..k]
    ensures forall i :: 0 <= i < k ==> Tabulate(names, vals, k)[names[i]] == vals[i]
  {
    if k > 0 {
      TabulateEntries(names, vals, k - 1);
      assert names[..k] == names[..k - 1] + [names[k - 1]];
    }
  }

  /** The metrics of every window, in the order of the window list. */
  function WindowValues(obs: seq<Observation>, reference: Option<int>, sqrt: real -> real): (vals: seq<Metrics>)
    requires IsSqrt(sqrt)
    ensures |vals| == |WindowWeeks|
    ensures forall i :: 0 <= i < |WindowWeeks| ==> vals[i] == WindowMetrics(obs, reference, WindowWeeks[i], sqrt)
  {
    seq(|WindowWeeks|, i requires 0 <= i < |WindowWeeks| => WindowMetrics(obs, reference, WindowWeeks[i], sqrt))
  }

  /** The table of every window's metrics, keyed by window name. */
  function WindowTable(obs: seq<Observation>, reference: Option<int>, sqrt: real -> real): map<string, Metrics>
    requires IsSqrt(sqrt)
  {
    Tabulate(WindowNames, WindowValues(obs, reference, sqrt), |WindowNames|)
  }

  /** The full window table has one entry per window name, holding that
      window's metrics, and the data points never fall along the list. */
  lemma WindowTableProperties(obs: seq<Observation>, reference: Option<int>, sqrt: real -> real,
                              t: map<string, Metrics>)
    requires IsSqrt(sqrt) && t == WindowTable(obs, reference, sqrt)
    ensures forall name :: name in t <==> name in WindowNames
    ensures forall i :: 0 <= i < |WindowNames| ==>
              t[WindowNames[i]] == WindowMetrics(obs, reference, WindowWeeks[i], sqrt)
    ensures forall i, j :: 0 <= i <= j < |WindowNames| ==>
              t[WindowNames[i]].dataPoints <= t[WindowNames[j]].dataPoints
  {
    var vals := WindowValues(obs, reference, sqrt);
    WindowTableEntries(vals, t);
    WindowValuesAscending(obs, reference, sqrt, vals);
  }

  /** Tabulated under the window names, a sequence of one value per window
      gives a table whose keys are the names and whose entry for each name
      is that window's value. */
  lemma WindowTableEntries<T>(vals: seq<T>, t: map<string, T>)
    requires |vals| == |WindowNames|
    requires t == Tabulate(WindowNames, vals, |WindowNames|)
    ensures forall name :: name in t <==> name in WindowNames
    ensures forall i :: 0 <= i < |WindowNames| ==> t[WindowNames[i]] == vals[i]
  {
    forall i, j | 0 <= i < j < |WindowNames| ensures WindowNames[i] != WindowNames[j] {
      WindowNamesDistinct(i, j);
    }
    TabulateEntries(WindowNames, vals, |WindowNames|);
    assert WindowNames[..|WindowNames|] == WindowNames;
  }

  lemma WindowValuesAscending(obs: seq<Observation>, reference: Option<int>, sqrt: real -> real,
                              vals: seq<Metrics>)
    requires IsSqrt(sqrt) && vals == WindowValues(obs, reference, sqrt)
    ensures forall i, j :: 0 <= i <= j < |vals| ==> vals[i].dataPoints <= vals[j].dataPoints
  {
    forall i, j | 0 <= i <= j < |vals|
      ensures vals[i].dataPoints <= vals[j].dataPoints
    {
      WindowsAscending(obs, reference, i, j, sqrt);
    }
  }

  /** analyze_trends_multi_window: fills one entry per window name, giving
      the table whose properties WindowTableProperties states. */
  method AnalyzeTrendsMultiWindow(obs: seq<Observation>, reference: Option<int>, sqrt: real -> real)
    returns (results: map<string, Metrics>)
    requires IsSqrt(sqrt)
    ensures results == WindowTable(obs, reference, sqrt)
  {
    ghost var vals := WindowValues(obs, reference, sqrt);
    results := map[];
    var k := 0;
    while k < |WindowNames|
      invariant 0 <= k <= |WindowNames|
      invariant results == Tabulate(WindowNames, vals, k)
    {
      var m := WindowMetrics(obs, reference, WindowWeeks[k], sqrt);
      TabulateStep(WindowNames, vals, k, m);
      results := results[WindowNames[k] := m];
      k := k + 1;
    }
  }

  // ---------------------------------------------------------------------
  // Recent weeks against the rest of the history

  datatype Status = Normal | Rising | Falling | NotEnoughData

  datatype Comparison = Comparison(recentAvg: real, historicalAvg: real, changePct: real, status: Status)

  /** The status band of a percentage change: within 10 % either way,
      including exactly +10 and -10, is normal. */
  function StatusOf(c: real): (s: Status)
    ensures s == Normal <==> -10.0 <= c <= 10.0
    ensures s == Rising <==> c > 10.0
    ensures s == Falling <==> c < -10.0
  {
    if Abs(c) < 10.0 then Normal
    else if c > 10.0 then Rising
    else if c < -10.0 then Falling
    else Normal
  }

  /** compare_recent_to_historical over the volumes of a date-ordered
      category: the last recentWeeks points against all earlier ones, once
      at least four earlier points exist. */
  function CompareRecentToHistorical(vs: seq<real>, recentWeeks: nat): (c: Comparison)
    requires 1 <= recentWeeks
    ensures |vs| < recentWeeks + 4 <==> c.status == NotEnoughData
    ensures |vs| < recentWeeks + 4 ==> c == Comparison(0.0, 0.0, 0.0, NotEnoughData)
    ensures |vs| >= recentWeeks + 4 ==>
              && c.recentAvg == Mean(vs[|vs| - recentWeeks..])
              && c.historicalAvg == Mean(vs[..|vs| - recentWeeks])
              && (c.historicalAvg <= 0.0 ==> c.changePct == 0.0)
              && (c.historicalAvg > 0.0 ==> (c.changePct > 0.0 <==> c.recentAvg > c.historicalAvg))
              && c.status == StatusOf(c.changePct)
  {
    if |vs| < recentWeeks + 4 then Comparison(0.0, 0.0, 0.0, NotEnoughData)
    else
      var recent := Mean(vs[|vs| - recentWeeks..]);
      var historical := Mean(vs[..|vs| - recentWeeks]);
      var change := if historical > 0.0 then Ratio(recent - historical, historical) * 100.0 else 0.0;
      Comparison(recent, historical, change, StatusOf(change))
  }

  /** The recent and historical parts split the series: together they
      hold every point and every unit of volume. */
  lemma RecentAndHistoricalPartition(vs: seq<real>, recentWeeks: nat)
    requires 1 <= recentWeeks <= |vs|
    ensures vs[..|vs| - recentWeeks] + vs[|vs| - recentWeeks..] == vs
    ensures Sum(vs) == Sum(vs[..|vs| - recentWeeks]) + Sum(vs[|vs| - recentWeeks..])
  {
    var k := |vs| - recentWeeks;
    assert vs[..k] + vs[k..] == vs;
    SumAppend(vs[..k], vs[k..]);
  }

  /** A constant positive series compares as normal with no change. */
  lemma ComparisonOfConstant(vs: seq<real>, recentWeeks: nat, c: real)
    requires 1 <= recentWeeks && |vs| >= recentWeeks + 4 && 0.0 < c
    requires forall i :: 0 <= i < |vs| ==> vs[i] == c
    ensures CompareRecentToHistorical(vs, recentWeeks).changePct == 0.0
    ensures CompareRecentToHistorical(vs, recentWeeks).status == Normal
  {
    var k := |vs| - recentWeeks;
    MeanConstant(vs[k..], c);
    MeanConstant(vs[..k], c);
  }
}

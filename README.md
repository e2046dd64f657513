# Payment-screening volume monitoring, modelled in Dafny

The system watches weekly event counts of payment-screening messages. Each
category is an (app, message_type) pair with one row per week: the week's
start date and its volume. Its core is a per-category pipeline:

- **Gap-based frequency detection** (`frequency_detector.py`) sorts a
  category's occurrence dates and takes the day gaps between them. It scores
  how regular the gaps are (1 − coefficient of variation, clamped to
  [0, 1]), labels the cadence through a band table on the average gap, and
  then overrides the label with "irregular" when the gaps are very uneven.
- **Trend metrics** (`trend_analyzer.py`) compute, for a window of weeks,
  the average, total, volatility, ordinary-least-squares slope,
  half-versus-half growth rate and a direction label. They do so for seven
  nested look-back windows (2 weeks to 18 months) and compare the most recent
  weeks with the rest of the history.
- **Dynamic thresholds** come from three estimators: a z-score bound
  clamped at 0, a low percentile, and an inter-quartile fence clamped at 0.
  The binding threshold is their maximum. The estimators are shared by the
  production monitor (`weekly_monitoring.py`) and the first analysis script
  (`volume_analysis.py`). The second script (`volume_analysis_v2.py`)
  widens the z multiplier of irregular categories by up to a half.
- **Alerts**. The production monitor raises NO_DATA for a qualified category
  without a row in the checked week. It raises VOLUME_DROP, graded
  CRITICAL/HIGH/MEDIUM/LOW at 70/50/30 %, for a volume below the threshold.
  The first analysis script has its own older rule: HIGH/MEDIUM/LOW, strictly
  above 50/30 %.

The model has one module per source file, plus three shared modules:

- `Stats` holds sums, means, population standard deviation over an abstract
  square root, insertion sort, linear-interpolation percentiles and the OLS
  slope.
- `Records` holds rows, categories and date filters, and the "keep the
  present candidates" helper. Every filtering loop is specified through that
  helper.
- `Thresholds` holds the sensitivity table and the three estimators.

Volumes are `real`, dates are integer day numbers, and a week is 7 days.
Each loop the source runs is a Dafny `method`. Each method is proved equal
to a specification function, and the lemmas state their properties about
that function.

The repository's own description expects 28-day gaps to be labelled
monthly. The code labels them biweekly: the average is in (21, 45] and the
regularity is above 0.4. The model follows the code
(`FrequencyDetector.FourWeeklyDatesAreBiweekly`).

The trend metrics label the direction by the rule as written
(`TrendAnalyzer.DirectionAsWritten`), under which a growth of exactly +5 % is
"decreasing". The corrected rule (`TrendAnalyzer.DirectionOf`) is stated
beside it for the finding below.

## Model

| member | source | states |
|---|---|---|
| Records.WindowMembers | trend_analyzer.py:114-117 | a row is in the window (lo, hi] exactly when it is a row of the category dated after lo and up to hi |
| Records.BeforeMembers | weekly_monitoring.py:152 | a row is kept exactly when it is dated strictly before the check date |
| Records.AtMembers | weekly_monitoring.py:122-125 | a row is kept exactly when it is dated on the check date |
| Records.WindowNested | trend_analyzer.py:114-117 | a window with an earlier lower end and the same upper end holds at least as many rows |
| Records.Tail | weekly_monitoring.py:166 | `tail(n)` has min(n, len) elements, and they are the last ones, in order |
| Records.LastDate | trend_analyzer.py:93-94 | the latest date is one of the category's dates and no date is later |
| Records.RowsAtMembers | volume_analysis.py:222 | a table row is kept exactly when it is dated in the checked week |
| Stats.Sort | frequency_detector.py:27 | the sorted dates are ascending and a permutation of the input |
| Stats.StdNonNegative | weekly_monitoring.py:61 | the population standard deviation is never negative |
| Stats.StdConstant | weekly_monitoring.py:60-61 | a constant sample c has mean c, variance 0 and standard deviation 0 |
| Stats.MeanBetweenMinAndMax | trend_analyzer.py:74-75 | the mean lies between the minimum and the maximum |
| Stats.PercentileBounds | weekly_monitoring.py:67 | every percentile lies between the minimum and the maximum |
| Stats.PercentileMonotone | weekly_monitoring.py:70-71 | a higher percentile is never smaller, so q1 <= q3 |
| Stats.PercentileConstant | weekly_monitoring.py:67 | every percentile of a constant sample is that constant |
| Stats.MedianBetweenMinAndMax | trend_analyzer.py:74-76 | the median lies between the minimum and the maximum |
| Stats.OlsSlopeOfLine | trend_analyzer.py:42-43 | the OLS slope against 0..n-1 of the points a + b*i is b |
| Stats.OlsSlopeOfConstant | trend_analyzer.py:42-43 | a constant series has OLS slope 0 |
| Thresholds.ConfigOf | weekly_monitoring.py:31-50 | every level has a positive z multiplier, a percentile below the first quartile and at least 4 weeks |
| Thresholds.ConfigOrdered | weekly_monitoring.py:31-50 | from high to low sensitivity, z grows strictly and min_weeks grows, while the percentile falls |
| Thresholds.EstimateOf | weekly_monitoring.py:60-76 | the binding threshold is one of the three estimators and at least each of them; the z and IQR bounds and the threshold are >= 0 |
| Thresholds.ZThresholdAtMostMean | weekly_monitoring.py:64 | with z >= 0 and non-negative volumes, the z bound never exceeds the mean |
| Thresholds.ZThresholdAntitone | weekly_monitoring.py:64 | a larger z multiplier never raises the z bound |
| Thresholds.IqrThresholdAtMostQ1 | weekly_monitoring.py:70-73 | the IQR fence never exceeds the first quartile of non-negative volumes |
| Thresholds.ThresholdAtMostMax | weekly_monitoring.py:76 | the binding threshold of non-negative volumes is at most their maximum |
| Thresholds.PositiveThresholdHasPositiveMean | weekly_monitoring.py:162-163 | for non-negative volumes, a positive threshold forces a positive mean, so the drop's division is defined |
| Thresholds.ThresholdOfConstant | weekly_monitoring.py:64-76 | every estimator of a constant history c >= 0, and so the threshold, is c |
| Thresholds.DropFromMean | weekly_monitoring.py:163 | for a positive mean, the drop is positive exactly when the volume is below the mean; it is <= 100 for a volume >= 0 and exactly 100 for a volume of 0 |
| FrequencyDetector.Differences | frequency_detector.py:30 | n points give n-1 differences, the i-th being point i+1 minus point i |
| FrequencyDetector.DifferencesTelescope | frequency_detector.py:30 | the consecutive differences add up to last minus first |
| FrequencyDetector.Gaps | frequency_detector.py:27-30 | n dates give n-1 gaps, none negative |
| FrequencyDetector.SortEnds | frequency_detector.py:27 | the first sorted date is the earliest and the last is the latest |
| FrequencyDetector.GapsSumToSpan | frequency_detector.py:27-30 | the gaps add up to the latest date minus the earliest |
| FrequencyDetector.SortedGaps | frequency_detector.py:27-30 | for dates already ascending, the gaps are their plain consecutive differences |
| FrequencyDetector.Regularity | frequency_detector.py:39-43 | the regularity score lies in [0, 1] and is 0 when the average gap is 0 |
| FrequencyDetector.RegularityOfEqualGaps | frequency_detector.py:35-43 | equal positive gaps have that gap as average and regularity 1 |
| FrequencyDetector.Band | frequency_detector.py:53-79 | each label holds exactly under its band's condition on average gap and regularity, and the table never yields insufficient_data or single_occurrence |
| FrequencyDetector.BandConfidence | frequency_detector.py:53-79 | the confidence is the regularity times 1, 0.8, 0.7 or 0.5 by band, so it lies in [0, regularity] |
| FrequencyDetector.ShortIrregularGapsFallThrough | frequency_detector.py:53-79 | short gaps with low regularity reach the last branch and come out semi_annual or irregular with half confidence |
| FrequencyDetector.Override | frequency_detector.py:82-84 | regularity below 0.3 over more than 3 gaps gives irregular with confidence 1 - regularity; otherwise the label is unchanged |
| FrequencyDetector.PatternOfGaps | frequency_detector.py:35-86 | confidence and regularity lie in [0, 1]; the override decides when it applies, the band table otherwise |
| FrequencyDetector.AnalyzeOccurrencePattern | frequency_detector.py:13-86 | fewer than 2 dates iff insufficient_data with zeros; single_occurrence is never returned; the override applies exactly for more than 4 dates with regularity below 0.3 |
| FrequencyDetector.DetectFrequencyAdvanced | frequency_detector.py:89-123 | weeks_with_data = total_occurrences = row count; the rate is count / total_weeks; the pattern is that of the dates; avg, std, min and max are the mean, population std, minimum and maximum of the volumes; cv is std / mean, or 0 when the mean is not positive |
| FrequencyDetector.EvenlySpaced | frequency_detector.py:27-86 | evenly spaced dates have average gap = step and regularity 1, so the band table alone decides |
| FrequencyDetector.EvenGaps | frequency_detector.py:27-30 | every gap of evenly spaced dates is the step |
| FrequencyDetector.WeeklyDatesAreDaily | frequency_detector.py:153-159 | 52 weekly dates are labelled daily with confidence 1 |
| FrequencyDetector.FourWeeklyDatesAreBiweekly | frequency_detector.py:161-167 | 13 dates 28 days apart are labelled biweekly with confidence 1 |
| FrequencyDetector.UnevenWeeksAreIrregular | frequency_detector.py:169-175 | weeks 0, 2, 8, 10, 30, 45, 50 are labelled irregular with confidence above 0.7 |
| FrequencyDetector.UnevenWeeksGaps | frequency_detector.py:169-175 | those weeks give the gaps 14, 42, 14, 140, 105 and 35 days |
| FrequencyDetector.QuarterlyDatesAreMonthly | frequency_detector.py:177-183 | 4 dates 91 days apart are labelled monthly with confidence 0.8 |
| FrequencyDetector.MostlyWeeklyIsSemiAnnual | frequency_detector.py:53-84 | weeks 0-4 and 7 average 9.8 days but have regularity in (0.4, 0.5], so they fall through to semi_annual |
| TrendAnalyzer.Volatility | trend_analyzer.py:38 | volatility is >= 0, and 0 when the mean is not positive |
| TrendAnalyzer.GrowthRate | trend_analyzer.py:46-52 | 0 when the first average is not positive; otherwise positive and negative exactly when the second average is above or below the first |
| TrendAnalyzer.GrowthOfConstant | trend_analyzer.py:46-52 | a constant series has growth 0 |
| TrendAnalyzer.DirectionAsWritten | trend_analyzer.py:55-60 | stable iff -5 < g < 5, increasing iff g > 5, decreasing iff g <= -5 or g = 5 |
| TrendAnalyzer.FivePercentGrowthAsWritten | trend_analyzer.py:45-60 | 100 then 105 grows by exactly 5 %, and the trend metrics label it decreasing, like -5 %; the corrected rule says increasing |
| TrendAnalyzer.DirectionOf | trend_analyzer.py:55-60 | the corrected rule of the finding below, not the one the program runs: stable iff -5 < g < 5, increasing iff g >= 5, decreasing iff g <= -5 |
| TrendAnalyzer.DirectionSymmetric | trend_analyzer.py:55-60 | under the corrected rule, negating the growth swaps increasing and decreasing and keeps stable |
| TrendAnalyzer.CalculateTrendMetrics | trend_analyzer.py:14-77 | empty iff no_data with all zeros; one point iff insufficient_data with slope and growth 0; otherwise the OLS slope and the as-written direction of the growth; for a non-empty window the volatility, min, max and median of the window, with min <= median <= max and min <= avg <= max |
| TrendAnalyzer.TrendTotal | trend_analyzer.py:36-37 | the total of a non-empty window is its average times its data points |
| TrendAnalyzer.TrendOfLine | trend_analyzer.py:41-43 | a linear window a + b*i has slope b |
| TrendAnalyzer.TrendOfConstant | trend_analyzer.py:36-60 | a constant window is stable with slope, growth and volatility 0 |
| TrendAnalyzer.WindowNamesDistinct | trend_analyzer.py:97-105 | the seven window names are pairwise distinct |
| TrendAnalyzer.WindowWeeksAscending | trend_analyzer.py:97-105 | the window lengths ascend along the list |
| TrendAnalyzer.ReferenceDate | trend_analyzer.py:93-94 | the reference is the given date, or else the latest date of the category |
| TrendAnalyzer.WindowRows | trend_analyzer.py:111-117 | a window has no more rows than the category and is empty without a reference date |
| TrendAnalyzer.WindowRowsMembers | trend_analyzer.py:111-117 | a window holds exactly the rows with reference - 7*weeks < date <= reference |
| TrendAnalyzer.WindowRowsNested | trend_analyzer.py:111-117 | a longer window never holds fewer rows |
| TrendAnalyzer.WindowsAscending | trend_analyzer.py:97-123 | data_points never fall from 2_weeks to 18_months |
| TrendAnalyzer.TabulateEntries | trend_analyzer.py:107-123 | with distinct names, the filled dictionary has exactly the names as keys, each mapped to its own value |
| TrendAnalyzer.WindowTableProperties | trend_analyzer.py:107-125 | the result has exactly the seven window names as keys, each holding the metrics of its window, with data_points non-decreasing along the list |
| TrendAnalyzer.AnalyzeTrendsMultiWindow | trend_analyzer.py:80-125 | the loop returns the window table that WindowTableProperties describes |
| TrendAnalyzer.StatusOf | trend_analyzer.py:165-172 | normal iff -10 <= c <= 10 (exactly +-10 included), increasing iff c > 10, decreasing iff c < -10 |
| TrendAnalyzer.CompareRecentToHistorical | trend_analyzer.py:128-180 | fewer than recent_weeks + 4 points iff insufficient_data with zeros; otherwise the means of the last recent_weeks and of the earlier points, a change of 0 for a non-positive historical mean and positive exactly when recent beats historical |
| TrendAnalyzer.RecentAndHistoricalPartition | trend_analyzer.py:150-156 | the recent and historical parts concatenate to the series and split its total |
| TrendAnalyzer.ComparisonOfConstant | trend_analyzer.py:159-172 | a constant positive series has change 0 and status normal |
| WeeklyMonitoring.CalculateDynamicThreshold | weekly_monitoring.py:56-87 | the three estimators at the level's z and percentile, and their maximum, are returned |
| WeeklyMonitoring.ThresholdMonotoneInSensitivity | weekly_monitoring.py:31-76 | a more sensitive level never gives a lower threshold for the same history |
| WeeklyMonitoring.SeverityOf | weekly_monitoring.py:169-176 | CRITICAL iff drop >= 70, HIGH iff 50 <= drop < 70, MEDIUM iff 30 <= drop < 50, LOW iff drop < 30 |
| WeeklyMonitoring.SeverityMonotone | weekly_monitoring.py:169-176 | a larger drop is never graded less severe |
| WeeklyMonitoring.GroupAlert | weekly_monitoring.py:116-190 | a category alerts iff it has min_weeks rows overall and min_weeks rows before the check date, and it either misses the week or is below the threshold of its earlier rows; NO_DATA iff the week is missing, with volume 0, drop 100 and CRITICAL; VOLUME_DROP with the week's volume below the threshold, its drop, its severity and the mean of the last 4 earlier weeks |
| WeeklyMonitoring.AnyCurrentWeek | weekly_monitoring.py:109-111 | true exactly when some category has a row in the check week |
| WeeklyMonitoring.DetectWeeklyAlerts | weekly_monitoring.py:93-192 | the alert list is the per-category alerts of every category, in category order, at most one per category, and it is empty when no row is dated in the check week |
| WeeklyMonitoring.AddAlert | weekly_monitoring.py:127-190 | one pass of the loop appends the category's alert, if any, and nothing else |
| WeeklyMonitoring.AlertsComeFromGroups | weekly_monitoring.py:116-190 | an alert is reported exactly when some category raises it |
| WeeklyMonitoring.AlertsOnePerCategory | weekly_monitoring.py:116-190 | categories with distinct keys give alerts with distinct keys: at most one alert per category and run |
| WeeklyMonitoring.AlertKeys | weekly_monitoring.py:135-137 | an alert carries its category's app and message type |
| WeeklyMonitoring.VolumeDropHasPositiveMean | weekly_monitoring.py:162-163 | for non-negative volumes, the mean behind a VOLUME_DROP alert is positive, so the division is never by zero |
| WeeklyMonitoring.GroupAlertMonotone | weekly_monitoring.py:118-162 | an alert raised at a less sensitive level is raised at a more sensitive one, with the same type and volume |
| WeeklyMonitoring.AlertCountMonotone | weekly_monitoring.py:93-192 | a more sensitive level never reports fewer alerts |
| VolumeAnalysis.CadenceOfRate | volume_analysis.py:77-88 | each label holds exactly in its band of the occurrence rate: >= 0.95, 0.75, 0.35, 0.15, 0.05, below |
| VolumeAnalysis.CadenceMonotone | volume_analysis.py:77-88 | a higher occurrence rate never gives a sparser cadence |
| VolumeAnalysis.DetectFrequency | volume_analysis.py:68-88 | the score is the rate, with rate * total_weeks = row count, and the label is the band of that rate |
| VolumeAnalysis.FullPeriodIsDaily | volume_analysis.py:74-78 | a category with a row in every week is daily |
| VolumeAnalysis.CalculateThresholds | volume_analysis.py:127-170 | the three estimators, the 0.7 * mean line, the binding maximum (>= each estimator and >= 0), and cv = std / mean, or 0 for a non-positive mean |
| VolumeAnalysis.PercentageThresholdNotBinding | volume_analysis.py:155-159 | for the history [0, 10] the binding threshold is 0.5 while the 30 % line is 3.5, so a volume of 2 sits between them |
| VolumeAnalysis.RowOf | volume_analysis.py:181-194 | the row carries the category's key and row count, and its mean, std, cv, binding threshold and z, percentile and IQR bounds are those of the category's volumes |
| VolumeAnalysis.Candidate | volume_analysis.py:180-194 | a category contributes a row iff it has at least min_weeks rows, and the row is its RowOf |
| VolumeAnalysis.ThresholdTable | volume_analysis.py:177-196 | the loop builds the table of its categories' candidates, in order |
| VolumeAnalysis.AddRow | volume_analysis.py:180-194 | one pass of the loop appends the category's row only when it has min_weeks rows |
| VolumeAnalysis.ThresholdRowsFilter | volume_analysis.py:179-196 | a row is in the table exactly when some category's candidate is that row |
| VolumeAnalysis.ThresholdTableSafe | volume_analysis.py:179-196 | for non-negative volumes, every positive threshold in the table comes with a positive mean |
| VolumeAnalysis.RowPositiveMean | volume_analysis.py:181-190 | a category row of non-negative volumes with a positive threshold has a positive mean |
| VolumeAnalysis.SeverityOf | volume_analysis.py:258 | HIGH iff drop > 50, MEDIUM iff 30 < drop <= 50, LOW iff drop <= 30 |
| VolumeAnalysis.Lookup | volume_analysis.py:226-232 | none iff no table row matches the key; otherwise the first matching row |
| VolumeAnalysis.RecentAverage | volume_analysis.py:241-247 | the mean of the last 4 earlier rows, or the category mean when there are none |
| VolumeAnalysis.RowAlert | volume_analysis.py:224-259 | a row alerts iff its category has a table row and its volume is below that threshold; the alert carries the drop, its severity and the recent average |
| VolumeAnalysis.DetectAlerts | volume_analysis.py:215-261 | the alerts are those of the checked week's rows, in table order |
| VolumeAnalysis.AlertsOfRows | volume_analysis.py:224-259 | an alert is reported exactly when one of the checked week's rows raises it |
| VolumeAnalysis.AlertsHavePositiveMean | volume_analysis.py:236-238 | against a safe table, every alert on non-negative volumes has a positive mean |
| VolumeAnalysisV2.AdjustedZBounds | volume_analysis_v2.py:176-177 | for regularity in [0, 1], z <= adjusted z <= 1.5 z, with equality to z at regularity 1 |
| VolumeAnalysisV2.AdjustedZAntitone | volume_analysis_v2.py:176-177 | a less regular category never gets a smaller multiplier |
| VolumeAnalysisV2.PatternRow | volume_analysis_v2.py:170-202 | the row carries its category's label and regularity; the binding threshold is one of the three estimators, at least each and >= 0 |
| VolumeAnalysisV2.PatternRowMonotone | volume_analysis_v2.py:177-188 | lower regularity never raises the z bound or the threshold, and leaves the percentile and IQR bounds unchanged |
| VolumeAnalysisV2.PatternRowBetweenFixedRules | volume_analysis_v2.py:177-180 | the z bound lies between those of the fixed multipliers 1.5 z and z |
| VolumeAnalysisV2.ProfileAdjustedZ | volume_analysis_v2.py:176-177 | the regularity of a detected profile keeps the adjusted multiplier in [z, 1.5 z] |
| VolumeAnalysisV2.PatternCandidate | volume_analysis_v2.py:163-202 | an entry contributes a row iff its category has at least min_weeks rows, and the row is its PatternRow |
| VolumeAnalysisV2.PatternAwareThresholds | volume_analysis_v2.py:160-202 | the loop builds the table of the entries' candidates, in order |
| VolumeAnalysisV2.AddPatternRow | volume_analysis_v2.py:167-202 | one pass of the loop appends the entry's row only when its category has min_weeks rows |
| VolumeAnalysisV2.PatternTableFilter | volume_analysis_v2.py:163-202 | a row is in the table exactly when some entry's candidate is that row |

## Left out

- Reading and writing of files (CSV, JSON), `print` output, the argument
  parsing and `datetime.now()` default of `weekly_monitoring.py`'s `main`,
  and its exit code: these are I/O.
- `create_visualizations.py`, `create_visualizations_v2.py` and
  `interactive_dashboard.py` are chart rendering and an interactive menu.
  `generate_data.py` is random data generation. None of them is part of this
  model.
- `generate_alert_report`, `get_trend_summary` and `get_frequency_summary`
  are text formatting only.
- The script-level code of `volume_analysis.py` outside its functions,
  including the frequency table loop (which uses the pandas sample standard
  deviation) and the merge and printing steps. Also the steps of
  `volume_analysis_v2.py`'s `main` other than the threshold loop.
- Floating point: volumes and results are exact reals, so rounding, `inf` and
  `nan` are not modelled.
- The square root is a parameter constrained to be a true square root on the
  non-negative reals.
- Of `linregress` only the slope is modelled.
- pandas grouping and sorting: categories arrive pre-grouped, and each
  category's rows arrive in date order. The order in which `groupby` visits
  the categories is the order of the given list.
- `TrendAnalyzer.WindowRows`: does not re-sort the window with
  `sort_values`. The window keeps the row order of its date-ordered category,
  so the sort would change nothing.
- `TrendAnalyzer.CompareRecentToHistorical`: requires `recentWeeks >= 1`. For
  0 or a negative count the source averages empty or reversed selections, and
  its NaN means are not modelled. It also does not re-sort; its input is the
  date-ordered volume list.
- `TrendAnalyzer.CalculateTrendMetrics`: takes only the volumes, because the
  source never reads its `dates` argument.
- `FrequencyDetector.DetectFrequencyAdvanced`: requires a non-empty category.
  On an empty one the source fails in `np.min`.
- `FrequencyDetector.DetectFrequencyAdvanced`: requires `totalWeeks > 0`. The
  source raises a division by zero when `total_weeks` is 0; every call passes
  the default of 104.
- `VolumeAnalysis.DetectFrequency`: requires `totalWeeks > 0`. The source
  raises a division by zero when `total_weeks` is 0; every call passes the
  default of 104.
- `Thresholds.DropFromMean`: a zero mean gives 0 instead of the source's
  division by zero. An all-zero history has mean 0, but its threshold is
  then 0 too, so with non-negative volumes no alert reaches the division;
  only a negative current volume can.
- `FrequencyDetector.AnalyzeOccurrencePattern`: models the unreachable
  single_occurrence branch as written. The contract proves it is never taken.
- `WeeklyMonitoring.DetectWeeklyAlerts` does not model the alert's
  free-text message field.

## Findings

| source | as written | input that shows it | evidently intended | confidence | as-written member | corrected member |
|---|---|---|---|---|---|---|
| trend_analyzer.py:55-60 | `abs(g) < 5` is stable, `g > 5` increasing, else decreasing, so a growth of exactly +5 % is labelled decreasing | volumes [100, 105], growth rate exactly 5 | +5 % labelled increasing, mirroring -5 % labelled decreasing | not executed | TrendAnalyzer.FivePercentGrowthAsWritten | TrendAnalyzer.DirectionSymmetric |

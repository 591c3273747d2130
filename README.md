# Smelter quality dashboard: aggregation engine

This project models the quality-aggregation engine of a smelter quality-control
dashboard and proves properties of that model. Laboratory samples are measured
at nine processing locations. Each sample is classified against its location's
target minimum as PASS, WARNING or FAIL. The dashboard pages then aggregate the
sample collection into several views:

- per-location statistics and a half-split trend;
- a location × date heatmap;
- a filtered and exported report;
- a prioritised alert list;
- per-location daily views;
- a day/month history;
- an overview.

A manual-entry dialog builds new samples, and the dashboard shell keeps the sample
log and the navigation.

One module per source file:

| module | file | source |
|---|---|---|
| `Seqs` | seqs.dfy | shared list operations: filter, `slice`, stable sort, de-duplication, group counts |
| `Text` | text.dfy | ASCII `toLowerCase`, `includes`, `join`/`split`, integer ↔ decimal text, ordinal string order |
| `Rates` | rates.dfy | the `Math.round` percentages, the tier/badge/trend thresholds |
| `Quality` | quality.dfy | `src/lib/data.ts` |
| `Heatmap` | heatmap.dfy | `src/components/charts/HeatmapChart.tsx` |
| `Metrics` | metrics.dfy | `src/components/charts/QualityMetrics.tsx` |
| `History` | history.dfy | `src/components/dashboard/DashboardHistory.tsx` |
| `Reports` | reports.dfy | `src/components/dashboard/DashboardReports.tsx` |
| `AlertsPage` | alerts.dfy | `src/components/dashboard/DashboardAlerts.tsx` |
| `LocationsPage` | locations.dfy | `src/components/dashboard/DashboardLocations.tsx` |
| `Overview` | overview.dfy | `src/components/dashboard/DashboardOverview.tsx` |
| `DataInput` | data_input.dfy | `src/components/data-input/DataInputModal.tsx` |
| `Dashboard` | dashboard.dfy | `src/components/dashboard/Dashboard.tsx` |

Conventions of the model:

- Timestamps are integer milliseconds, and the clock is a parameter `now`.
- A sample's `date` is its ISO `YYYY-MM-DD` text. Dates and months are ordered
  by ordinal string comparison (`StrLt`), which for that format is calendar order.
- Measured values are `real`.
- Pass rates are `Math.round(100 · passed / total)`, computed exactly in
  integers as `(200 · passed + total) / (2 · total)`, with 0 for an empty list.
- JavaScript's `sort` is stable. It is modelled as a stable insertion sort by an
  integer key (`-timestamp` for newest first). Stability is proved (`Seqs.SortStable`).
- Every page function takes the sample collection as a parameter.

Where the source builds a structure by mutating an accumulator, the model is a
method with a loop proved against a specification function:

- the heatmap's `forEach` into nested dictionaries;
- the history page's `reduce` grouping by day and by month.

Component state that handlers update is a class whose methods carry `modifies`
clauses:

- the entry dialog's `open` flag and form;
- the dashboard's sample log.

The rest is pure and is modelled as functions and lemmas.

Points where the design description and the code differ. The model follows the code:

- The half-split trend of a single sample is `-previousRate`, not 0. The recent
  half is empty, so the trend is −100 for one PASS sample (`Metrics.TrendOfSingleSample`).
- The month trend uses the opposite convention: oldest half first, later half
  minus earlier half. For a single sample the two trends are exact negatives of
  each other (`History.TrendConventionsDisagree`).
- A manually entered sample is PASS or FAIL, never WARNING. A value in the 2%
  warning band is recorded as FAIL (`DataInput.ManualStatusAgreesWithClassify`).
- `Dashboard.tsx` prepends new samples to its own `data` state. The Overview,
  Reports, Alerts, Locations and History pages read the module-level
  `SAMPLE_DATA`, not that state, so a manual entry does not reach them.
  The model passes the collection explicitly, which covers both readings.

## Model

| member | source | states |
|---|---|---|
| Quality.LocationsWellFormed | src/lib/data.ts:28-119 | the location table has nine entries with distinct ids, distinct names and positive target minimums |
| Quality.FindLocation | src/components/data-input/DataInputModal.tsx:36 | `PROCESSING_LOCATIONS.find` by id: found exactly when some table entry has that id, and the entry found has it |
| Quality.Classify | src/lib/data.ts:154-161 | PASS iff value ≥ target; WARNING iff 0.98·target ≤ value < target; FAIL iff below both; so exactly one status applies |
| Quality.WarningBandExists | src/lib/data.ts:154-161 | some value classifies as WARNING exactly when the target is positive (for a target ≤ 0 the band is empty) |
| Quality.ClassifyMonotone | src/lib/data.ts:154-161 | a larger measured value never receives a worse status |
| Quality.SortNewestFirst | src/lib/data.ts:181 | the timestamp-descending sort is a permutation of its input and is newest first |
| Quality.SeedOrder | src/lib/data.ts:181 | the seeded collection is a permutation of the generated samples, ordered newest first |
| Quality.SortNewestFirstKeepsSorted | src/lib/data.ts:181 | sorting an already newest-first list leaves it unchanged, because the sort is stable |
| Quality.LocationData | src/lib/data.ts:187-189 | getLocationData keeps exactly the samples with that location id, as an order-preserving subsequence |
| Quality.RecentData | src/lib/data.ts:191-195 | getRecentData keeps exactly the samples at or after `now − days`, as an order-preserving subsequence |
| Quality.Alerts | src/lib/data.ts:197-200 | getAlerts: at most 20 samples, all FAIL or WARNING, a prefix of all alerts in collection order (all of them when fewer than 20) |
| Quality.StatusCountsAddUp | src/lib/data.ts:204-208 | PASS + WARNING + FAIL counts equal the number of samples |
| Quality.PassRate | src/lib/data.ts:214 | the pass rate is within [0,100], is 0 for an empty list, and is the nearest integer to 100·passed/total (halves rounded up) |
| Quality.PassRateExtremes | src/lib/data.ts:214 | all samples passing gives exactly 100; none passing gives exactly 0 |
| Quality.AverageValue | src/lib/data.ts:215 | the mean is 0 for an empty list and otherwise within half a hundredth of the exact mean |
| Quality.AverageWithinRange | src/lib/data.ts:215 | the rounded mean lies within the range of the values, up to the rounding |
| Quality.StatsOf | src/lib/data.ts:202-217 | the counts by status, their sum equal to the total, the rounded pass rate, and all-zero stats for an empty list |
| Quality.LocationStats | src/lib/data.ts:202-217 | getLocationStats: the statistics of exactly that location's samples (its PASS/WARNING/FAIL counts, rounded pass rate and mean), and an id with no samples gives all-zero stats, not an error |
| Quality.LocationStatusCounts | src/lib/data.ts:202-217 | a location's passed, warning and failed counts equal the number of samples in the whole collection taken there with that status |
| Quality.ShareOf | src/components/dashboard/DashboardReports.tsx:57-71 | a location entry counts that location's samples, its passed count, rounded pass rate and mean are those of its samples (passed ≤ total, rate ≤ 100), and it is all zeros when it has no samples |
| Quality.ActiveShares | src/components/dashboard/DashboardReports.tsx:57-72 | the per-location entries keep table order, keep only totals > 0, and omit no location that has samples |
| Quality.ActiveSharesCoverKnownSamples | src/components/dashboard/DashboardReports.tsx:57-72 | when every sample belongs to a table location, the listed entries' totals add up to the number of samples |
| Quality.KnownSamplesPartition | src/lib/data.ts:187-189 | the per-location groups of samples from known locations partition the samples |
| Quality.SharesSum | src/components/dashboard/DashboardReports.tsx:57-72 | the totals of the per-location entries equal the sizes of the per-location groups |
| Seqs.SortStable | src/lib/data.ts:181 | the sort keeps the relative order of samples with equal timestamps |
| Seqs.FilterIsSubseq | src/lib/data.ts:187-189 | a filter result is an order-preserving subsequence of its input |
| Seqs.Dedup | src/components/dashboard/DashboardReports.tsx:84 | `[...new Set(xs)]`: no repeats, every element from the input, every input element present |
| Seqs.PartitionByKey | src/components/dashboard/DashboardHistory.tsx:46-53 | grouping by a key whose values are listed once each puts every element in exactly one group |
| Rates.Percent | src/components/dashboard/DashboardLocations.tsx:206-227 | percent of total: 0 when the total is 0; otherwise the nearest integer to 100·part/total, at most 100 when part ≤ total |
| Rates.PercentExtremes | src/components/dashboard/DashboardLocations.tsx:206-227 | the whole is 100% and nothing is 0% |
| Rates.PercentsOfSplit | src/components/dashboard/DashboardLocations.tsx:206-227 | three rounded percentages of a split total add up to between 99 and 101 |
| Rates.TierOf | src/components/charts/QualityMetrics.tsx:48 | excellent ≥ 90, good 80–89, warning 60–79, critical below 60 (also HeatmapChart.tsx:48 and the label at DashboardLocations.tsx:138-140) |
| Rates.BadgeOf | src/components/dashboard/DashboardOverview.tsx:150-157 | green ≥ 90, yellow 80–89, red below 80 (also getStatusColor in DashboardHistory.tsx:146-150 and DashboardLocations.tsx:56-60) |
| Rates.BadgeRefinesTier | src/components/dashboard/DashboardOverview.tsx:150-157 | the badge colour is the tier with warning and critical merged into red |
| Rates.DirectionOf | src/components/charts/QualityMetrics.tsx:63-73 | up iff trend > 5, down iff trend < −5, flat iff within ±5 (also DashboardHistory.tsx:152-162) |
| Rates.DirectionAntisymmetric | src/components/charts/QualityMetrics.tsx:63-73 | negating a trend swaps up and down and keeps flat |
| Rates.Round2 | src/lib/data.ts:215 | rounding to two decimals moves a value by less than half a hundredth |
| Heatmap.GroupByLocationDate | src/components/charts/HeatmapChart.tsx:15-26 | the `forEach` grouping: every (location name, date) lookup returns exactly that cell's samples in collection order, and no created entry is empty |
| Heatmap.PushPreservesGrouping | src/components/charts/HeatmapChart.tsx:19-25 | creating the missing entries and pushing one sample keeps the grouping exact for the extended prefix |
| Heatmap.DateColumns | src/components/charts/HeatmapChart.tsx:29 | min(14, number of distinct dates) columns, strictly ascending, each a sample date; every omitted date is older than the first column, and with at most 14 distinct dates none is omitted |
| Text.SortStringsAscending | src/components/charts/HeatmapChart.tsx:29 | `sort()` of the distinct dates gives a strictly ascending list |
| Heatmap.WindowProperties | src/components/charts/HeatmapChart.tsx:29 | `slice(-14)` of the sorted distinct dates stays ascending, holds sample dates only, and drops only older dates |
| Heatmap.CellOf | src/components/charts/HeatmapChart.tsx:35-48 | a cell has its location and date, the sample count, a rate of 0 when empty and otherwise the rounded pass rate, and the tier of that rate |
| Heatmap.BuildMatrix | src/components/charts/HeatmapChart.tsx:33-51 | one row per location name, one cell per date column, each cell built from that lookup |
| Heatmap.LocationNames | src/components/charts/HeatmapChart.tsx:30 | the row labels are the location names in table order |
| Heatmap.BuildHeatmap | src/components/charts/HeatmapChart.tsx:11-54 | the heatmap memo: rows in table order, the 14-date window as columns, each cell over the samples matching its location name and date |
| Heatmap.ColorClass | src/components/charts/HeatmapChart.tsx:56-63 | getColorClass: thresholds 90/80/60/40/above 0, each band as an if-and-only-if, with 0 mapped to the no-data slate |
| Heatmap.Intensity | src/components/charts/HeatmapChart.tsx:65-72 | getIntensity: each band as an if-and-only-if: 100 from 90 up, 90 for 80-89, 80 for 60-79, 70 for 40-59, 60 above 0 and below 40, 30 for 0 and below |
| Heatmap.BuiltCellsWellFormed | src/components/charts/HeatmapChart.tsx:36-47 | every cell the matrix holds has rate 0 when empty and rate ≤ 100 |
| Heatmap.SummaryMissesZeroCells | src/components/charts/HeatmapChart.tsx:161-179 | as written, the four summary tiles plus the cells that have samples and a 0% rate count every cell exactly once |
| Heatmap.SummaryCounterexample | src/components/charts/HeatmapChart.tsx:161-179 | a single cell holding one FAIL sample is counted by none of the four tiles |
| Heatmap.CorrectedSummaryPartitions | src/components/charts/HeatmapChart.tsx:161-179 | with "critical" as "has samples and below 60", the four tiles partition the cells |
| Heatmap.ZeroPassCellLooksEmpty | src/components/charts/HeatmapChart.tsx:108-109 | as written, a cell whose samples all failed gets the no-data colour and the no-data opacity (the legend's No Data swatch), the same as an empty cell |
| Heatmap.CellColour | src/components/charts/HeatmapChart.tsx:129-153 | the legend's colours: slate iff the cell is empty, red iff a non-empty cell is below 40%, getColorClass otherwise |
| Metrics.Halves | src/components/charts/QualityMetrics.tsx:26-28 | `recent` is the first ⌊n/2⌋ samples, `previous` the rest, and together they are the sorted list |
| Metrics.RecentHalfIsNewer | src/components/charts/QualityMetrics.tsx:26-28 | every recent-half sample is at least as new as every previous-half sample, and the halves hold exactly the location's samples |
| Metrics.RecentTrend | src/components/charts/QualityMetrics.tsx:30-37 | the trend lies within [−100, 100] |
| Metrics.TrendOfImprovement | src/components/charts/QualityMetrics.tsx:26-37 | a newer half that all passes after an older half that all failed gives +100: the newer half's rate minus the older half's |
| Metrics.TrendOfSingleSample | src/components/charts/QualityMetrics.tsx:30-37 | with one sample the recent half is empty, so the trend is −100 for a PASS and 0 otherwise |
| Metrics.TrendOfSteadyQuality | src/components/charts/QualityMetrics.tsx:30-37 | with two or more samples that all pass, or all fail to pass, the trend is 0 |
| Metrics.HalfPassRate | src/components/charts/QualityMetrics.tsx:30-35 | a non-empty half of uniformly passing (failing) samples has rate 100 (0) |
| Metrics.MetricOf | src/components/charts/QualityMetrics.tsx:15-49 | one location's metric: the statistics of that location's samples, the half-split trend of them (within ±100) and the tier of the pass rate; rate, mean and trend are 0 with no samples |
| Metrics.MetricsOf | src/components/charts/QualityMetrics.tsx:14 | one metric per location, in table order |
| History.HistoricalData | src/components/dashboard/DashboardHistory.tsx:20-42 | a newest-first reordering of the samples passing the location filter and the date filter (inclusive range, else a cutoff), each kept as often as it occurs |
| History.HistoricalDataIsSelection | src/components/dashboard/DashboardHistory.tsx:20-42 | the two filters in a row keep, as a multiset, exactly the samples meeting both conditions at once |
| History.RangeIncludesEnds | src/components/dashboard/DashboardHistory.tsx:29-33 | a sample dated on the start or the end date of a range is kept |
| History.GroupBy | src/components/dashboard/DashboardHistory.tsx:46-53 | the `reduce` grouping: keys in first-seen order, one group per key, each group exactly the samples with that key in order |
| History.NoGroupIsEmpty | src/components/dashboard/DashboardHistory.tsx:46-53 | a key never seen has no samples |
| History.KeysOfGroups | src/components/dashboard/DashboardHistory.tsx:46-53 | every sample's key is a group key and every group key has at least one sample |
| History.DescendingKeys | src/components/dashboard/DashboardHistory.tsx:94 | the distinct keys in strictly descending order, the same keys and no others |
| History.DayOf | src/components/dashboard/DashboardHistory.tsx:56-81 | a day's passed/warnings/failed are its PASS/WARNING/FAIL counts and add up to its samples, its rate is their rounded pass rate (≤ 100), and its location breakdown lists only locations with samples, in table order |
| History.Timeline | src/components/dashboard/DashboardHistory.tsx:44-95 | one entry per distinct date, each over that date's samples, dates strictly descending |
| History.TimelineDays | src/components/dashboard/DashboardHistory.tsx:46-58 | every entry holds exactly its date's samples, is non-empty, and every sample's date has an entry |
| History.TimelinePartition | src/components/dashboard/DashboardHistory.tsx:46-58 | the day totals add up to the number of samples |
| History.BuildTimeline | src/components/dashboard/DashboardHistory.tsx:44-95 | the reduce-then-map memo computes exactly the timeline |
| History.MonthTrend | src/components/dashboard/DashboardHistory.tsx:117-128 | the month trend (later half minus earlier half, oldest first) lies within [−100, 100] |
| History.TrendConventionsDisagree | src/components/dashboard/DashboardHistory.tsx:117-128 | for one sample the month trend is +100 for a PASS, and is the negative of the metrics trend |
| History.MonthOf | src/components/dashboard/DashboardHistory.tsx:108-141 | a month's counts are its PASS/WARNING/FAIL counts and add up to its total; its rate is the rounded pass rate (≤ 100), its trend the month trend (within ±100) and its mean the rounded mean; zeros when empty |
| History.MonthSummary | src/components/dashboard/DashboardHistory.tsx:97-144 | one entry per `YYYY-MM` prefix over that month's samples, months strictly descending |
| History.MonthSummaryGroups | src/components/dashboard/DashboardHistory.tsx:99-106 | each month's total is its number of samples (positive), and every sample's month has an entry |
| History.MonthSummaryPartition | src/components/dashboard/DashboardHistory.tsx:99-106 | the month totals add up to the number of samples |
| History.BuildMonthSummary | src/components/dashboard/DashboardHistory.tsx:97-144 | the reduce-then-map memo computes exactly the month summary |
| Reports.FilteredData | src/components/dashboard/DashboardReports.tsx:18-47 | exactly the samples that pass all four filters, as a permutation of the filter result, newest first |
| Reports.EmptySearchKeepsAll | src/components/dashboard/DashboardReports.tsx:36-44 | with no location, product or search restriction, every sample inside the date range is reported |
| Reports.SearchIgnoresCase | src/components/dashboard/DashboardReports.tsx:38-43 | lower-casing the search term never changes which samples match |
| Reports.ReportIsSubsequence | src/components/dashboard/DashboardReports.tsx:18-47 | over a newest-first collection, the report is an order-preserving subsequence of it |
| Reports.ReportStatsOf | src/components/dashboard/DashboardReports.tsx:49-82 | the counts are the report's PASS/WARNING/FAIL counts and add up to its size, the rate is their rounded pass rate (≤ 100, 0 when empty), and the location entries are those with samples |
| Reports.UniqueProducts | src/components/dashboard/DashboardReports.tsx:84 | each product of the collection appears exactly once, and nothing else does |
| Reports.ShownRows | src/components/dashboard/DashboardReports.tsx:315 | the table shows the first min(n, 50) report rows |
| Reports.CsvLines | src/components/dashboard/DashboardReports.tsx:95-110 | with no newline inside a field, the export splits back into the header and one row per report sample in order: 1 + n lines |
| Reports.RowColumns | src/components/dashboard/DashboardReports.tsx:98-109 | with no comma inside a field, a row splits back into its ten fields in header order |
| Reports.RowColumnCount | src/components/dashboard/DashboardReports.tsx:98-109 | without quoting, a row has ten columns plus one per comma inside its fields |
| Reports.HeaderColumns | src/components/dashboard/DashboardReports.tsx:97 | the header splits into exactly its ten column names |
| Text.IncludesIff | src/components/dashboard/DashboardReports.tsx:39 | `includes` holds exactly when the needle occurs at some position |
| Text.LowerIdempotent | src/components/dashboard/DashboardReports.tsx:39 | lower-casing twice is lower-casing once |
| Text.SplitJoin | src/components/dashboard/DashboardReports.tsx:96-110 | splitting a join recovers the pieces when none contains the separator |
| AlertsPage.FilteredAlerts | src/components/dashboard/DashboardAlerts.tsx:20-47 | an order-preserving subsequence of getAlerts holding exactly the alerts that match severity, location and search |
| AlertsPage.SeveritiesSplitAlerts | src/components/dashboard/DashboardAlerts.tsx:23-30 | the "critical" and "warning" lists together have as many alerts as the "all" list |
| AlertsPage.LocationAlertsOf | src/components/dashboard/DashboardAlerts.tsx:56-66 | per location, critical is its FAIL alert count and warnings its WARNING alert count, and they add up to its alert count |
| AlertsPage.AlertStatsOf | src/components/dashboard/DashboardAlerts.tsx:49-89 | total = size of getAlerts ≤ 20, critical and warnings its FAIL and WARNING counts adding up to total; the location list is the table's per-location entries with alerts, in table order, and holds every such location; recent count ≤ total, trend within ±total |
| AlertsPage.WindowsPartition | src/components/dashboard/DashboardAlerts.tsx:69-77 | the last 24 h, the 24 h before and anything older split every sample list |
| AlertsPage.TrendAccountsForAlerts | src/components/dashboard/DashboardAlerts.tsx:69-79 | trend = alerts in the last 24 h minus alerts in the 24 h before, and those two windows plus older alerts make up the total |
| AlertsPage.PriorityOf | src/components/dashboard/DashboardAlerts.tsx:99-107 | non-FAIL is Low; a FAIL is High iff more than 20% below target and Medium iff 10–20% below (mirrored for a negative target; NaN and −∞ deviations are Low) |
| AlertsPage.DeviationThreshold | src/components/dashboard/DashboardAlerts.tsx:100-103 | `deviation > pct` iff the value is below (1 − pct/100)·target, for a positive target, and the mirror for a negative one |
| AlertsPage.LowFailBand | src/components/dashboard/DashboardAlerts.tsx:99-107 | a correctly classified FAIL is Low priority exactly when it is 2–10% below target |
| AlertsPage.ElapsedOf | src/components/dashboard/DashboardAlerts.tsx:109-117 | minutes under 60, hours under 1440 minutes, days otherwise, each unit as an if-and-only-if with the floored amount's bounds |
| AlertsPage.TimeAgoReadsBack | src/components/dashboard/DashboardAlerts.tsx:114-116 | the label is the decimal amount, the unit letter and " ago", and the number reads back as the amount |
| Text.IntRoundTrip | src/components/dashboard/DashboardAlerts.tsx:114-116 | integer-to-text is decimal digits with an optional sign, and parses back to the same integer |
| LocationsPage.RecentSamples | src/components/dashboard/DashboardLocations.tsx:17-20 | at most 10 samples, all of that location, newest first, a prefix of its newest-first list |
| LocationsPage.RecentSamplesAreNewest | src/components/dashboard/DashboardLocations.tsx:17-20 | no sample of the location left out is newer than any sample shown |
| LocationsPage.Last7Days | src/components/dashboard/DashboardLocations.tsx:23-27 | exactly seven dates, oldest first, the last one today's |
| LocationsPage.DailyTrendOf | src/components/dashboard/DashboardLocations.tsx:29-43 | a day's count is the samples at that location on that date; its rate is the rounded share of those that passed (≤ 100) and its mean their rounded mean; rate and mean 0 when the count is 0 |
| LocationsPage.DailyCountsAddUp | src/components/dashboard/DashboardLocations.tsx:29-43 | over distinct days, the daily counts add up to the location's samples on those days |
| LocationsPage.LocationViewOf | src/components/dashboard/DashboardLocations.tsx:15-51 | a location's view holds getLocationStats, the ten newest samples and one daily entry per day of the last seven, in order |
| LocationsPage.LocationViews | src/components/dashboard/DashboardLocations.tsx:14-53 | one view per location, in table order |
| LocationsPage.Breakdown | src/components/dashboard/DashboardLocations.tsx:206-227 | the three figures are the rounded shares of passed, warnings and failed in that order, 0 when the total is 0; over a split each is ≤ 100 and they sum to between 99 and 101 |
| Overview.OverviewOf | src/components/dashboard/DashboardOverview.tsx:14-32 | the overall figures are the statistics of the samples in the time range (counts adding up, rate ≤ 100 and 0 when empty); one card per location in order; the first min(5, n) alerts of getAlerts |
| Overview.CardsAddUpToOverall | src/components/dashboard/DashboardOverview.tsx:21-32 | when every sample is inside the range and at a known location, the card totals add up to the overall total |
| DataInput.EmptyForm | src/components/data-input/DataInputModal.tsx:23-34 | the initial form has every text field empty and today's date |
| DataInput.SelectLocation | src/components/data-input/DataInputModal.tsx:76-88 | an unknown id leaves the form unchanged; a known id sets the location, product, parameter, unit and minimum and keeps every other field |
| DataInput.ManualRecord | src/components/data-input/DataInputModal.tsx:38-58 | no record iff the location is unknown; the descriptive fields come from the location; PASS iff value ≥ minimum, else FAIL, never WARNING; empty sample id and analyst get defaults |
| DataInput.ManualStatusAgreesWithClassify | src/components/data-input/DataInputModal.tsx:54 | the manual status equals the seeded classification except in the warning band, where it is FAIL |
| DataInput.SelectedLocationSubmits | src/components/data-input/DataInputModal.tsx:41-51 | after a known location is selected, submitting yields a record for it with that location's target |
| DataInput.EntryDialog.constructor | src/components/data-input/DataInputModal.tsx:21-34 | the dialog starts closed with the empty form |
| DataInput.EntryDialog.LocationChange | src/components/data-input/DataInputModal.tsx:76-88 | the form becomes SelectLocation of the old form; the open flag is unchanged |
| DataInput.EntryDialog.Submit | src/components/data-input/DataInputModal.tsx:38-74 | hands on ManualRecord of the old form; with an unknown location nothing changes; otherwise the dialog closes and the form resets |
| Dashboard.SampleLog.constructor | src/components/dashboard/Dashboard.tsx:30 | the log starts as the seeded collection |
| Dashboard.SampleLog.AddData | src/components/dashboard/Dashboard.tsx:32-34 | the new log is the new sample followed by the old log |
| Dashboard.PrependKeepsLog | src/components/dashboard/Dashboard.tsx:32-34 | prepending grows the log by one, keeps the old samples in order, and puts a new alert first among the alerts |
| Dashboard.FirstActive | src/components/dashboard/Dashboard.tsx:119 | `find`: none when no item is active; otherwise the index of an active item with no active item before it |
| Dashboard.PageTitle | src/components/dashboard/Dashboard.tsx:119 | the title is the first active item's name, or "Dashboard" when none is active |
| Dashboard.TitleIsKnown | src/components/dashboard/Dashboard.tsx:17-23 | every title is "Dashboard" or the name of a navigation item |
| Dashboard.TitleExamples | src/components/dashboard/Dashboard.tsx:41-46 | "/dashboard" is exact (Overview), other paths are prefixes ("/dashboard/reports/weekly" is Reports), and "/dashboard/" matches nothing |
| Dashboard.PrefixWithoutBoundary | src/components/dashboard/Dashboard.tsx:45 | the prefix test has no path-segment boundary: "/dashboard/alertsx" activates the Alerts item |

## Left out

- Random sample generation (`generateSampleData`): `Math.random` and the clock. The collection is a parameter, and `Quality.SeedOrder` gives only its final sort.
- Calendar arithmetic: `setDate(getDate() − n)` is modelled as exactly n·24 h before `now`. Time zones, daylight-saving shifts, `toISOString`, `format` and `toLocaleDateString` are not modelled. `Last7Days` and the manual-entry date take the formatting as a parameter.
- `new Date(date)` ordering of the timeline and `localeCompare` of months: both are modelled as ordinal string order, which agrees for ISO `YYYY-MM-DD` and `YYYY-MM` text.
- Floating point: values are exact reals. `Math.round(x·100)/100` is stated as "within half a hundredth" (`Rates.Round2`, `Quality.AverageValue`). `target * 0.98` and the deviation percent are exact.
- Number-to-string conversion in the CSV rows and in the location form's minimum: this is the parameter `num`.
- `parseFloat` of the value field: the parsed number is a parameter. A NaN from text that is not a number is not modelled.
- `Date.now()` is read twice in `handleSubmit`. The model uses one `now` for both the record id and the default sample id.
- DataInput.ManualRecord: the `notes` field is not part of the sample record type, so the record the model builds drops it.
- Case folding is ASCII only; `toLowerCase` of non-ASCII letters is not modelled.
- React machinery, JSX markup, CSS class strings other than the threshold functions, dialogs and tabs are not modelled.
- The CSV Blob download and `window.location.reload` are browser I/O and are not modelled.
- The login page, the router wiring in the app entry, and the barcode/upload placeholder panels are not part of this model. They hold no aggregation logic.
- Heatmap.ZeroPassCellLooksEmpty: of the drawn cell it models only the background colour and the opacity, not the other classes, the hover tooltip or the "0%" label that lines 113-119 print for every cell with samples (so the all-FAIL cell is still labelled, unlike an empty one).
- History.RangeIncludesEnds: the date range compares sample dates as calendar days. The source compares `new Date(d.date)`, which is UTC midnight, with picker dates at local midnight (DashboardHistory.tsx:31-32), so the ends are kept as stated only at UTC offset 0: west of UTC the start day is dropped, east of UTC the end day.
- Overview.OverviewOf: the `selectedTimeRange` effect that refetches `recentData` is the parameter `days`. The stale first render is not modelled.
- Reports: `parseInt(dateRange)` is the integer parameter `rangeDays`.

## Findings

| source | as written | input that shows it | evidently intended | confidence | as-written member | corrected member |
|---|---|---|---|---|---|---|
| src/components/charts/HeatmapChart.tsx:161-179 | the "Critical Days" tile counts cells with `passRate > 0 && passRate < 60` and "No Data Days" counts `sampleCount === 0`, so a cell with samples and a 0% pass rate is in no tile | one location and date whose only sample is FAIL: the cell has sampleCount 1 and passRate 0, and all four tiles count 0 | critical means "has samples and below 60%", so the four tiles partition the cells | not executed | Heatmap.SummaryCounterexample | Heatmap.CorrectedSummaryPartitions |
| src/components/charts/HeatmapChart.tsx:56-72 | getColorClass(0) is the no-data slate and getIntensity(0) is 30% opacity, so a cell whose samples all failed gets the no-data colour and opacity (only its "0%" label tells it apart) | the same one-FAIL cell: slate at 30% opacity, the legend's "No Data" swatch | the legend at lines 129-153 gives red for 0-40% and slate for no data, so a cell with samples below 40% is red | not executed | Heatmap.ZeroPassCellLooksEmpty | Heatmap.CellColour |

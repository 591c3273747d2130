/** DashboardHistory: the filtered, newest-first history, its grouping by
    day (the timeline) and by `YYYY-MM` month (the summary), and the
    month trend. */
module History {
  import opened Seqs
  import opened Text
  import opened Rates
  import opened Quality
  import opened Metrics

  // ---------------------------------------------------------------------
  // Filtering

  /** The date condition: with both ends of a range chosen, the calendar date
      lies in the range, ends included; otherwise the timestamp is within the
      selected number of days before `now`. */
  predicate InHistoryWindow(x: Sample, start: Option<string>, end: Option<string>, periodDays: int, now: int) {
    if start.Some? && end.Some? then !StrLt(x.date, start.value) && !StrLt(end.value, x.date)
    else x.timestamp >= now - periodDays * DayMs
  }

  predicate AtHistoryLocation(x: Sample, location: string) {
    location == "all" || x.locationId == location
  }

  function HistoryWindow(start: Option<string>, end: Option<string>, periodDays: int, now: int): Sample -> bool {
    (x: Sample) => InHistoryWindow(x, start, end, periodDays, now)
  }

  /** The location filter, skipped for "all". */
  function ByLocation(data: seq<Sample>, location: string): (r: seq<Sample>)
    ensures forall x :: x in r ==> x in data && AtHistoryLocation(x, location)
    ensures forall x :: x in data && AtHistoryLocation(x, location) ==> x in r
  {
    FilterMembers(data, AtLocation(location));
    AtLocationMeans(location);
    if location != "all" then Filter(data, AtLocation(location)) else data
  }

  /** `historicalData`: the location filter (skipped for "all"), the date
      filter, then a newest-first sort. */
  function HistoricalData(data: seq<Sample>, location: string, start: Option<string>, end: Option<string>,
                          periodDays: int, now: int): (r: seq<Sample>)
    ensures NewestFirst(r)
    ensures multiset(r) == multiset(Filter(ByLocation(data, location), HistoryWindow(start, end, periodDays, now)))
    ensures forall i :: 0 <= i < |r| ==>
      r[i] in data && AtHistoryLocation(r[i], location) && InHistoryWindow(r[i], start, end, periodDays, now)
    ensures forall i :: 0 <= i < |data| ==>
      (AtHistoryLocation(data[i], location) && InHistoryWindow(data[i], start, end, periodDays, now) ==> data[i] in r)
  {
    SortedFilterMembers(ByLocation(data, location), HistoryWindow(start, end, periodDays, now));
    SortNewestFirst(Filter(ByLocation(data, location), HistoryWindow(start, end, periodDays, now)))
  }

  /** Both conditions of the history page at once. */
  function HistorySelection(location: string, start: Option<string>, end: Option<string>,
                            periodDays: int, now: int): Sample -> bool {
    (x: Sample) => AtHistoryLocation(x, location) && InHistoryWindow(x, start, end, periodDays, now)
  }

  /** The history is a reordering of the samples meeting both conditions, each
      kept as often as it occurs: nothing repeated, nothing collapsed. */
  lemma HistoricalDataIsSelection(data: seq<Sample>, location: string, start: Option<string>, end: Option<string>,
                                  periodDays: int, now: int)
    ensures multiset(HistoricalData(data, location, start, end, periodDays, now)) ==
      multiset(Filter(data, HistorySelection(location, start, end, periodDays, now)))
  {
    var window := HistoryWindow(start, end, periodDays, now);
    var both := HistorySelection(location, start, end, periodDays, now);
    if location == "all" {
      FilterCongruent(data, window, both);
    } else {
      AtLocationMeans(location);
      FilterFilter(data, AtLocation(location), window, both);
    }
  }

  /** A chosen range keeps the samples dated on its first and on its last day. */
  lemma RangeIncludesEnds(x: Sample, first: string, last: string, periodDays: int, now: int)
    requires x.date == first || x.date == last
    requires !StrLt(last, first)
    ensures InHistoryWindow(x, Some(first), Some(last), periodDays, now)
  {
    StrLtIrreflexive(x.date);
  }

  // ---------------------------------------------------------------------
  // Grouping

  function DateOf(x: Sample): string { x.date }

  /** `sample.date.substring(0, 7)`: the `YYYY-MM` month of an ISO date. */
  function MonthKey(x: Sample): string { Take(x.date, 7) }

  /** The `reduce` that groups samples under a key: a key's list is created
      the first time the key is seen and every sample is pushed onto the list
      of its key. `order` is the insertion order of the keys, which is the
      order `Object.entries` lists them in. */
  method GroupBy(s: seq<Sample>, key: Sample -> string) returns (order: seq<string>, groups: map<string, seq<Sample>>)
    ensures order == Dedup(Map(s, key))
    ensures forall k :: k in groups <==> k in order
    ensures forall k :: k in groups ==> groups[k] == Filter(s, KeyIs(key, k))
  {
    order, groups := [], map[];
    var i := 0;
    assert Map(s[..0], key) == [];
    while i < |s|
      invariant 0 <= i <= |s|
      invariant GroupedAs(s[..i], key, order, groups)
    {
      order, groups := PushSample(s, i, key, order, groups);
      i := i + 1;
    }
    assert s[..|s|] == s;
  }

  /** The accumulator of the grouping `reduce` after the samples `seen`. */
  ghost predicate GroupedAs(seen: seq<Sample>, key: Sample -> string,
                            order: seq<string>, groups: map<string, seq<Sample>>) {
    && order == Dedup(Map(seen, key))
    && (forall k :: k in groups <==> k in order)
    && (forall k :: k in groups ==> groups[k] == Filter(seen, KeyIs(key, k)))
  }

  /** One step of the grouping `reduce`: create the key's list on first
      sight, then push the sample onto it. */
  method PushSample(s: seq<Sample>, i: nat, key: Sample -> string,
                    order: seq<string>, groups: map<string, seq<Sample>>)
    returns (order': seq<string>, groups': map<string, seq<Sample>>)
    requires i < |s| && GroupedAs(s[..i], key, order, groups)
    ensures GroupedAs(s[..i + 1], key, order', groups')
  {
    var k := key(s[i]);
    order' := if k in groups then order else order + [k];
    groups' := groups[k := (if k in groups then groups[k] else []) + [s[i]]];
    GroupByStep(s, i, key, order, groups, order', groups');
  }

  lemma GroupByStep(s: seq<Sample>, i: nat, key: Sample -> string,
                    order: seq<string>, groups: map<string, seq<Sample>>,
                    order': seq<string>, groups': map<string, seq<Sample>>)
    requires i < |s|
    requires GroupedAs(s[..i], key, order, groups)
    requires order' == if key(s[i]) in groups then order else order + [key(s[i])]
    requires groups' == groups[key(s[i]) := (if key(s[i]) in groups then groups[key(s[i])] else []) + [s[i]]]
    ensures GroupedAs(s[..i + 1], key, order', groups')
  {
    var k := key(s[i]);
    OrderStep(s, i, key, order);
    if k !in groups {
      NoGroupIsEmpty(s[..i], key, k);
    }
    GroupsStep(s, i, key, groups, groups');
  }

  /** The entry `mk` builds for a key from the samples carrying that key. */
  function EntryOf<E>(hist: seq<Sample>, key: Sample -> string, mk: (string, seq<Sample>) -> E): string -> E {
    (k: string) => mk(k, Filter(hist, KeyIs(key, k)))
  }

  /** The entry `mk` builds for a key from the list the grouping `reduce` holds for it. */
  function EntryOfGroup<E>(groups: map<string, seq<Sample>>, mk: (string, seq<Sample>) -> E): string -> E {
    (k: string) => mk(k, if k in groups then groups[k] else [])
  }

  /** Building one entry per key from the grouping `reduce`'s lists gives the
      same entries as building them from the filters. */
  lemma EntriesFromGroups<E>(hist: seq<Sample>, key: Sample -> string, order: seq<string>,
                             groups: map<string, seq<Sample>>, mk: (string, seq<Sample>) -> E)
    requires GroupedAs(hist, key, order, groups)
    ensures Map(DescendingKeys(order), EntryOfGroup(groups, mk)) == Map(DescendingKeys(order), EntryOf(hist, key, mk))
  {
    var keys := DescendingKeys(order);
    forall i | 0 <= i < |keys|
      ensures EntryOfGroup(groups, mk)(keys[i]) == EntryOf(hist, key, mk)(keys[i])
    {
      assert keys[i] in groups;
    }
    MapCongruent(keys, EntryOfGroup(groups, mk), EntryOf(hist, key, mk));
  }

  /** One push of the grouping `reduce` keeps the key order equal to the
      first occurrences of the keys seen so far. */
  lemma OrderStep(s: seq<Sample>, i: nat, key: Sample -> string, order: seq<string>)
    requires i < |s| && order == Dedup(Map(s[..i], key))
    ensures Dedup(Map(s[..i + 1], key)) == if key(s[i]) in order then order else order + [key(s[i])]
  {
    var m := Map(s[..i + 1], key);
    assert m[..|m| - 1] == Map(s[..i], key);
    assert m[|m| - 1] == key(s[i]);
  }

  /** One push of the grouping `reduce` keeps every group equal to the filter
      of the samples seen so far. */
  lemma GroupsStep(s: seq<Sample>, i: nat, key: Sample -> string,
                   groups: map<string, seq<Sample>>, groups': map<string, seq<Sample>>)
    requires i < |s|
    requires forall k :: k in groups ==> groups[k] == Filter(s[..i], KeyIs(key, k))
    requires key(s[i]) !in groups ==> Filter(s[..i], KeyIs(key, key(s[i]))) == []
    requires groups' == groups[key(s[i]) := (if key(s[i]) in groups then groups[key(s[i])] else []) + [s[i]]]
    ensures forall k :: k in groups' ==> groups'[k] == Filter(s[..i + 1], KeyIs(key, k))
  {
    assert s[..i + 1] == s[..i] + [s[i]];
    forall k | k in groups'
      ensures groups'[k] == Filter(s[..i + 1], KeyIs(key, k))
    {
      FilterSnoc(s[..i], s[i], KeyIs(key, k));
    }
  }

  /** A key no sample carries has an empty group. */
  lemma NoGroupIsEmpty(s: seq<Sample>, key: Sample -> string, k: string)
    requires k !in Dedup(Map(s, key))
    ensures Filter(s, KeyIs(key, k)) == []
  {
    var f := Filter(s, KeyIs(key, k));
    forall i | 0 <= i < |s|
      ensures !KeyIs(key, k)(s[i])
    {
      assert Map(s, key)[i] == key(s[i]);
    }
  }

  /** Every sample of a key's group carries that key. */
  lemma GroupsHaveTheirKey(s: seq<Sample>, key: Sample -> string)
    ensures forall k, j :: 0 <= j < |Filter(s, KeyIs(key, k))| ==> key(Filter(s, KeyIs(key, k))[j]) == k
  {
    forall k, j | 0 <= j < |Filter(s, KeyIs(key, k))|
      ensures key(Filter(s, KeyIs(key, k))[j]) == k
    {
      assert KeyIs(key, k)(Filter(s, KeyIs(key, k))[j]);
    }
  }

  /** Every sample's key is among the deduplicated keys, and every such key has a non-empty group. */
  lemma KeysOfGroups(s: seq<Sample>, key: Sample -> string)
    ensures forall i :: 0 <= i < |s| ==> key(s[i]) in Dedup(Map(s, key))
    ensures forall k :: k in Dedup(Map(s, key)) ==> Count(s, KeyIs(key, k)) > 0
  {
    var m := Map(s, key);
    forall i | 0 <= i < |s|
      ensures key(s[i]) in Dedup(m)
    {
      assert m[i] == key(s[i]);
    }
    forall k | k in Dedup(m)
      ensures Count(s, KeyIs(key, k)) > 0
    {
      var j :| 0 <= j < |m| && m[j] == k;
      FilterMembers(s, KeyIs(key, k));
      assert s[j] in Filter(s, KeyIs(key, k));
    }
  }

  /** Distinct keys sorted in descending order: the timeline sorts its days by
      date and the summary its months by `localeCompare`, newest first. */
  function DescendingKeys(keys: seq<string>): (r: seq<string>)
    requires Distinct(keys)
    ensures |r| == |keys|
    ensures forall i, j :: 0 <= i < j < |r| ==> StrLt(r[j], r[i])
    ensures Distinct(r)
    ensures forall i :: 0 <= i < |r| ==> r[i] in keys
    ensures forall i :: 0 <= i < |keys| ==> keys[i] in r
  {
    var sorted := SortStrings(keys);
    SortStringsAscending(keys);
    ReverseDescends(sorted, Reverse(sorted));
    ReverseKeepsElements(keys, sorted, Reverse(sorted));
    Reverse(sorted)
  }

  lemma ReverseDescends(sorted: seq<string>, r: seq<string>)
    requires StrictlyAscending(sorted)
    requires r == Reverse(sorted)
    ensures forall i, j :: 0 <= i < j < |r| ==> StrLt(r[j], r[i])
    ensures Distinct(r)
  {
    forall i, j | 0 <= i < j < |r|
      ensures StrLt(r[j], r[i])
    {
      assert r[i] == sorted[|sorted| - 1 - i] && r[j] == sorted[|sorted| - 1 - j];
    }
    forall i, j | 0 <= i < j < |r|
      ensures r[i] != r[j]
    {
      StrLtIrreflexive(r[i]);
    }
  }

  lemma ReverseKeepsElements(keys: seq<string>, sorted: seq<string>, r: seq<string>)
    requires multiset(sorted) == multiset(keys)
    requires r == Reverse(sorted)
    ensures forall i :: 0 <= i < |r| ==> r[i] in keys
    ensures forall i :: 0 <= i < |keys| ==> keys[i] in r
  {
    forall i | 0 <= i < |r|
      ensures r[i] in keys
    {
      assert r[i] == sorted[|sorted| - 1 - i];
      assert r[i] in multiset(keys);
    }
    forall i | 0 <= i < |keys|
      ensures keys[i] in r
    {
      assert keys[i] in multiset(sorted);
      var j :| 0 <= j < |sorted| && sorted[j] == keys[i];
      assert r[|sorted| - 1 - j] == keys[i];
    }
  }

  // ---------------------------------------------------------------------
  // Timeline

  datatype Day = Day(date: string, total: nat, passed: nat, warnings: nat, failed: nat, passRate: nat,
                     samples: seq<Sample>, breakdown: seq<LocationShare>)

  function DayOf(date: string, samples: seq<Sample>): (d: Day)
    ensures d.date == date && d.samples == samples && d.total == |samples|
    ensures d.passed == CountStatus(samples, PASS) && d.warnings == CountStatus(samples, WARNING)
    ensures d.failed == CountStatus(samples, FAIL) && d.passRate == PassRate(samples)
    ensures d.passed + d.warnings + d.failed == d.total
    ensures d.passRate <= 100
    ensures d.breakdown == ActiveShares(samples)
    ensures forall i :: 0 <= i < |d.breakdown| ==> d.breakdown[i].total > 0
  {
    var st := StatsOf(samples);
    Day(date, st.total, st.passed, st.warnings, st.failed, st.passRate, samples, ActiveShares(samples))
  }

  function DayKeys(hist: seq<Sample>): seq<string> {
    DescendingKeys(Dedup(Map(hist, DateOf)))
  }

  function DayEntry(hist: seq<Sample>): string -> Day {
    EntryOf(hist, DateOf, DayOf)
  }

  /** The day entry of a date is built over the samples of that date. */
  lemma DayEntryMeans(hist: seq<Sample>)
    ensures forall d :: DayEntry(hist)(d) == DayOf(d, Filter(hist, KeyIs(DateOf, d)))
  {
  }

  /** `timelineData`: one entry per distinct date, newest date first. */
  function Timeline(hist: seq<Sample>): (r: seq<Day>)
    ensures |r| == |DayKeys(hist)|
    ensures forall i :: 0 <= i < |r| ==> r[i] == DayEntry(hist)(DayKeys(hist)[i])
    ensures forall i, j :: 0 <= i < j < |r| ==> StrLt(r[j].date, r[i].date)
  {
    DayEntryMeans(hist);
    Map(DayKeys(hist), DayEntry(hist))
  }

  /** Each day holds exactly the samples of its date, at least one, and every
      sample's date has a day. */
  lemma TimelineDays(hist: seq<Sample>)
    ensures forall i :: 0 <= i < |Timeline(hist)| ==>
      Timeline(hist)[i].samples == Filter(hist, KeyIs(DateOf, Timeline(hist)[i].date)) &&
      Timeline(hist)[i].total > 0
    ensures forall i, k :: 0 <= i < |Timeline(hist)| && 0 <= k < |Timeline(hist)[i].samples| ==>
      Timeline(hist)[i].samples[k].date == Timeline(hist)[i].date
    ensures forall k :: 0 <= k < |hist| ==> hist[k].date in DayKeys(hist)
  {
    DayEntryMeans(hist);
    KeysOfGroups(hist, DateOf);
    GroupsHaveTheirKey(hist, DateOf);
  }

  /** The days partition the history: their totals add up to its length. */
  lemma TimelinePartition(hist: seq<Sample>)
    ensures SumOver(Timeline(hist), (d: Day) => d.total) == |hist|
  {
    var keys := DayKeys(hist);
    DayEntryMeans(hist);
    SumOverGroups(hist, DateOf, keys, DayEntry(hist), (d: Day) => d.total);
    KeysOfGroups(hist, DateOf);
    PartitionByKey(hist, DateOf, keys);
  }

  /** One day entry per key, each over the group the grouping `reduce` built for it. */
  function DayOfGroup(groups: map<string, seq<Sample>>): string -> Day {
    EntryOfGroup(groups, DayOf)
  }

  /** The timeline memo: the grouping `reduce`, then one entry per group, sorted by date. */
  method BuildTimeline(hist: seq<Sample>) returns (days: seq<Day>)
    ensures days == Timeline(hist)
  {
    var order, groups := GroupBy(hist, DateOf);
    var keys := DescendingKeys(order);
    days := Map(keys, DayOfGroup(groups));
    DaysFromGroups(hist, order, groups);
  }

  /** Entries built from the groups of the `reduce` are the timeline's entries. */
  lemma DaysFromGroups(hist: seq<Sample>, order: seq<string>, groups: map<string, seq<Sample>>)
    requires order == Dedup(Map(hist, DateOf))
    requires forall k :: k in groups <==> k in order
    requires forall k :: k in groups ==> groups[k] == Filter(hist, KeyIs(DateOf, k))
    ensures Map(DescendingKeys(order), DayOfGroup(groups)) == Timeline(hist)
  {
    EntriesFromGroups(hist, DateOf, order, groups, DayOf);
    assert Timeline(hist) == Map(DescendingKeys(order), DayEntry(hist));
  }

  // ---------------------------------------------------------------------
  // Month summary

  /** The month trend: after an oldest-first sort, the pass rate of the later
      half minus that of the earlier half. */
  function MonthTrend(samples: seq<Sample>): (t: int)
    ensures -100 <= t <= 100
  {
    var h := Halves(SortOldestFirst(samples));
    PassRate(h.1) - PassRate(h.0)
  }

  /** For one sample the history page and the metrics card report opposite
      trends: the single sample lands in the second half for the month and in
      the older half for the card. */
  lemma TrendConventionsDisagree(x: Sample)
    ensures MonthTrend([x]) == if x.status == PASS then 100 else 0
    ensures RecentTrend([x]) == -MonthTrend([x])
  {
    SingletonSorted(x);
    assert Halves([x]).0 == [] && Halves([x]).1 == [x];
    PassRateExtremes([x]);
    TrendOfSingleSample(x);
  }

  datatype Month = Month(month: string, total: nat, passed: nat, warnings: nat, failed: nat,
                         passRate: nat, trend: int, averageValue: real)

  function MonthOf(month: string, samples: seq<Sample>): (m: Month)
    ensures m.month == month && m.total == |samples|
    ensures m.passed == CountStatus(samples, PASS) && m.warnings == CountStatus(samples, WARNING)
    ensures m.failed == CountStatus(samples, FAIL) && m.passRate == PassRate(samples)
    ensures m.trend == MonthTrend(samples) && m.averageValue == AverageValue(samples)
    ensures m.passed + m.warnings + m.failed == m.total
    ensures m.passRate <= 100 && -100 <= m.trend <= 100
    ensures samples == [] ==> m.passRate == 0 && m.trend == 0 && m.averageValue == 0.0
  {
    var st := StatsOf(samples);
    Month(month, st.total, st.passed, st.warnings, st.failed, st.passRate, MonthTrend(samples), st.averageValue)
  }

  function MonthKeys(hist: seq<Sample>): seq<string> {
    DescendingKeys(Dedup(Map(hist, MonthKey)))
  }

  function MonthEntry(hist: seq<Sample>): string -> Month {
    EntryOf(hist, MonthKey, MonthOf)
  }

  /** The month entry of a prefix is built over the samples of that month. */
  lemma MonthEntryMeans(hist: seq<Sample>)
    ensures forall m :: MonthEntry(hist)(m) == MonthOf(m, Filter(hist, KeyIs(MonthKey, m)))
  {
  }

  /** `summaryData`: one entry per `YYYY-MM` prefix, latest month first, each
      over exactly the samples of that month. */
  function MonthSummary(hist: seq<Sample>): (r: seq<Month>)
    ensures |r| == |MonthKeys(hist)|
    ensures forall i :: 0 <= i < |r| ==> r[i] == MonthEntry(hist)(MonthKeys(hist)[i])
    ensures forall i, j :: 0 <= i < j < |r| ==> StrLt(r[j].month, r[i].month)
  {
    MonthEntryMeans(hist);
    Map(MonthKeys(hist), MonthEntry(hist))
  }

  /** Each month counts exactly the samples of its prefix, at least one, and
      every sample's month has an entry. */
  lemma MonthSummaryGroups(hist: seq<Sample>)
    ensures forall i :: 0 <= i < |MonthSummary(hist)| ==>
      MonthSummary(hist)[i].total == Count(hist, KeyIs(MonthKey, MonthSummary(hist)[i].month)) > 0
    ensures forall k :: 0 <= k < |hist| ==> MonthKey(hist[k]) in MonthKeys(hist)
  {
    MonthEntryMeans(hist);
    KeysOfGroups(hist, MonthKey);
  }

  /** The months partition the history: their totals add up to its length. */
  lemma MonthSummaryPartition(hist: seq<Sample>)
    ensures SumOver(MonthSummary(hist), (m: Month) => m.total) == |hist|
  {
    var keys := MonthKeys(hist);
    MonthEntryMeans(hist);
    SumOverGroups(hist, MonthKey, keys, MonthEntry(hist), (m: Month) => m.total);
    KeysOfGroups(hist, MonthKey);
    PartitionByKey(hist, MonthKey, keys);
  }

  function MonthOfGroup(groups: map<string, seq<Sample>>): string -> Month {
    EntryOfGroup(groups, MonthOf)
  }

  /** The summary memo: the month `reduce`, then one entry per month, latest first. */
  method BuildMonthSummary(hist: seq<Sample>) returns (months: seq<Month>)
    ensures months == MonthSummary(hist)
  {
    var order, groups := GroupBy(hist, MonthKey);
    var keys := DescendingKeys(order);
    months := Map(keys, MonthOfGroup(groups));
    MonthsFromGroups(hist, order, groups);
  }

  /** Entries built from the groups of the `reduce` are the summary's entries. */
  lemma MonthsFromGroups(hist: seq<Sample>, order: seq<string>, groups: map<string, seq<Sample>>)
    requires order == Dedup(Map(hist, MonthKey))
    requires forall k :: k in groups <==> k in order
    requires forall k :: k in groups ==> groups[k] == Filter(hist, KeyIs(MonthKey, k))
    ensures Map(DescendingKeys(order), MonthOfGroup(groups)) == MonthSummary(hist)
  {
    EntriesFromGroups(hist, MonthKey, order, groups, MonthOf);
    assert MonthSummary(hist) == Map(DescendingKeys(order), MonthEntry(hist));
  }
}

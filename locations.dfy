/** DashboardLocations: per processing location, its statistics, its ten
    newest samples and its daily figures for the last seven days. */
module LocationsPage {
  import opened Seqs
  import opened Rates
  import opened Quality
  import History

  /** The ten newest samples of one location, newest first. */
  function RecentSamples(data: seq<Sample>, locationId: string): (r: seq<Sample>)
    ensures |r| == if |LocationData(data, locationId)| <= 10 then |LocationData(data, locationId)| else 10
    ensures NewestFirst(r)
    ensures r <= SortNewestFirst(LocationData(data, locationId))
    ensures forall i :: 0 <= i < |r| ==> r[i].locationId == locationId
  {
    SortKeepsLocation(LocationData(data, locationId), locationId);
    Take(SortNewestFirst(LocationData(data, locationId)), 10)
  }

  lemma SortKeepsLocation(here: seq<Sample>, locationId: string)
    requires forall i :: 0 <= i < |here| ==> here[i].locationId == locationId
    ensures forall i :: 0 <= i < |SortNewestFirst(here)| ==> SortNewestFirst(here)[i].locationId == locationId
  {
    var sorted := SortNewestFirst(here);
    forall i | 0 <= i < |sorted|
      ensures sorted[i].locationId == locationId
    {
      assert sorted[i] in multiset(here);
    }
  }

  /** No sample of the location left out of the ten is newer than any sample shown. */
  lemma RecentSamplesAreNewest(data: seq<Sample>, locationId: string)
    ensures var here := LocationData(data, locationId);
      var r := RecentSamples(data, locationId);
      multiset(r) <= multiset(here) &&
      forall i, x: Sample :: 0 <= i < |r| && x in multiset(here) - multiset(r) ==> x.timestamp <= r[i].timestamp
  {
    var here := LocationData(data, locationId);
    PrefixIsNewest(SortNewestFirst(here), RecentSamples(data, locationId));
  }

  /** A prefix of a newest-first list is at least as new as everything after it. */
  lemma PrefixIsNewest(sorted: seq<Sample>, r: seq<Sample>)
    requires NewestFirst(sorted) && r <= sorted
    ensures multiset(r) <= multiset(sorted)
    ensures forall i, x: Sample :: 0 <= i < |r| && x in multiset(sorted) - multiset(r) ==> x.timestamp <= r[i].timestamp
  {
    var rest := sorted[|r|..];
    assert sorted == r + rest;
    assert multiset(sorted) == multiset(r) + multiset(rest);
    forall i, x: Sample | 0 <= i < |r| && x in multiset(sorted) - multiset(r)
      ensures x.timestamp <= r[i].timestamp
    {
      assert x in multiset(rest);
      var k :| 0 <= k < |rest| && rest[k] == x;
      assert sorted[|r| + k] == x && sorted[i] == r[i];
    }
  }

  /** The last seven calendar days, oldest first; `isoDate` stands for
      `toISOString().split('T')[0]` of a time. */
  function Last7Days(now: int, isoDate: int -> string): (r: seq<string>)
    ensures |r| == 7
    ensures r[6] == isoDate(now)
    ensures forall j :: 0 <= j < 7 ==> r[j] == isoDate(now - (6 - j) * DayMs)
  {
    Reverse(seq(7, i => isoDate(now - i * DayMs)))
  }

  /** One entry of `dailyTrends`. */
  datatype DailyTrend = DailyTrend(date: string, samples: nat, passRate: nat, averageValue: real)

  predicate OnDay(x: Sample, locationId: string, date: string) {
    x.locationId == locationId && x.date == date
  }

  function OnDayOf(locationId: string, date: string): Sample -> bool {
    (x: Sample) => OnDay(x, locationId, date)
  }

  function DailyTrendOf(data: seq<Sample>, locationId: string, date: string): (t: DailyTrend)
    ensures t.date == date
    ensures t.samples == Count(data, OnDayOf(locationId, date))
    ensures t.passRate == Percent(Count(data, PassedOnDay(locationId, date)), t.samples) && t.passRate <= 100
    ensures t.averageValue == AverageValue(Filter(data, OnDayOf(locationId, date)))
    ensures t.samples == 0 ==> t.passRate == 0 && t.averageValue == 0.0
  {
    var dayData := Filter(data, OnDayOf(locationId, date));
    FilterFilter(data, OnDayOf(locationId, date), HasStatus(PASS), PassedOnDay(locationId, date));
    DailyTrend(date, |dayData|, PassRate(dayData), AverageValue(dayData))
  }

  /** The passing samples of one location on one day. */
  function PassedOnDay(locationId: string, date: string): Sample -> bool {
    (x: Sample) => OnDay(x, locationId, date) && x.status == PASS
  }

  function TrendFor(data: seq<Sample>, locationId: string): string -> DailyTrend {
    (date: string) => DailyTrendOf(data, locationId, date)
  }

  function TrendSamples(t: DailyTrend): nat { t.samples }

  function DatedIn(dates: seq<string>): Sample -> bool {
    (x: Sample) => x.date in dates
  }

  /** Over distinct days, the daily sample counts add up to the location's
      samples dated on one of those days: none is counted twice or missed. */
  lemma DailyCountsAddUp(data: seq<Sample>, locationId: string, dates: seq<string>)
    requires Distinct(dates)
    ensures SumOver(Map(dates, TrendFor(data, locationId)), TrendSamples)
         == Count(LocationData(data, locationId), DatedIn(dates))
  {
    var here := LocationData(data, locationId);
    forall k
      ensures TrendSamples(TrendFor(data, locationId)(k)) == Count(here, KeyIs(History.DateOf, k))
    {
      forall x: Sample
        ensures OnDayOf(locationId, k)(x) == (AtLocation(locationId)(x) && KeyIs(History.DateOf, k)(x))
      {
        AtLocationMeans(locationId);
        assert KeyIs(History.DateOf, k)(x) == (History.DateOf(x) == k);
        assert OnDayOf(locationId, k)(x) == OnDay(x, locationId, k);
      }
      FilterFilter(data, AtLocation(locationId), KeyIs(History.DateOf, k), OnDayOf(locationId, k));
    }
    SumOverGroups(here, History.DateOf, dates, TrendFor(data, locationId), TrendSamples);
    SumCountsRestrict(here, History.DateOf, dates, DatedIn(dates));
    var dated := Filter(here, DatedIn(dates));
    forall i | 0 <= i < |dated|
      ensures History.DateOf(dated[i]) in dates
    {
      assert DatedIn(dates)(dated[i]);
    }
    PartitionByKey(dated, History.DateOf, dates);
  }

  /** One element of `locationData`. */
  datatype LocationView = LocationView(location: Location, stats: Stats,
                                       recentSamples: seq<Sample>, dailyTrends: seq<DailyTrend>)

  function LocationViewOf(data: seq<Sample>, location: Location, now: int, isoDate: int -> string): (v: LocationView)
    ensures v.location == location
    ensures v.stats == LocationStats(data, location.id)
    ensures v.recentSamples == RecentSamples(data, location.id)
    ensures |v.dailyTrends| == 7
    ensures forall j :: 0 <= j < 7 ==>
      v.dailyTrends[j] == DailyTrendOf(data, location.id, isoDate(now - (6 - j) * DayMs))
  {
    var days := Last7Days(now, isoDate);
    LocationView(location, LocationStats(data, location.id), RecentSamples(data, location.id),
                 Map(days, TrendFor(data, location.id)))
  }

  /** The `locationData` memo: one view per processing location, in table order. */
  function LocationViews(data: seq<Sample>, now: int, isoDate: int -> string): (r: seq<LocationView>)
    ensures |r| == |Locations|
    ensures forall i :: 0 <= i < |r| ==> r[i] == LocationViewOf(data, Locations[i], now, isoDate)
  {
    Map(Locations, (l: Location) => LocationViewOf(data, l, now, isoDate))
  }

  /** The "% of total" figures of the status breakdown. */
  function Breakdown(stats: Stats): (r: (nat, nat, nat))
    ensures stats.total == 0 ==> r == (0, 0, 0)
    ensures stats.total > 0 ==> 2 * stats.total * r.0 <= 200 * stats.passed + stats.total < 2 * stats.total * (r.0 + 1)
    ensures stats.total > 0 ==> 2 * stats.total * r.1 <= 200 * stats.warnings + stats.total < 2 * stats.total * (r.1 + 1)
    ensures stats.total > 0 ==> 2 * stats.total * r.2 <= 200 * stats.failed + stats.total < 2 * stats.total * (r.2 + 1)
    ensures stats.total > 0 && stats.passed + stats.warnings + stats.failed == stats.total ==>
      99 <= r.0 + r.1 + r.2 <= 101 && r.0 <= 100 && r.1 <= 100 && r.2 <= 100
  {
    SplitPercents(stats);
    (Percent(stats.passed, stats.total), Percent(stats.warnings, stats.total), Percent(stats.failed, stats.total))
  }

  lemma SplitPercents(stats: Stats)
    ensures stats.total > 0 && stats.passed + stats.warnings + stats.failed == stats.total ==>
      var t := stats.total;
      99 <= Percent(stats.passed, t) + Percent(stats.warnings, t) + Percent(stats.failed, t) <= 101
  {
    if stats.total > 0 && stats.passed + stats.warnings + stats.failed == stats.total {
      PercentsOfSplit(stats.passed, stats.warnings, stats.failed);
    }
  }
}

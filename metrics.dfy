/** QualityMetrics: one card per processing location with its counts, pass
    rate, mean value, tier and the half-split trend of its pass rate. */
module Metrics {
  import opened Seqs
  import opened Rates
  import opened Quality

  /** `slice(0, floor(n / 2))` and `slice(floor(n / 2))` of one list. */
  function Halves(sorted: seq<Sample>): (r: (seq<Sample>, seq<Sample>))
    ensures |r.0| == |sorted| / 2 && |r.1| == |sorted| - |sorted| / 2
    ensures r.0 + r.1 == sorted
  {
    (sorted[..|sorted| / 2], sorted[|sorted| / 2..])
  }

  /** The trend of a location: after a newest-first sort, the pass rate of
      the newer half minus the pass rate of the older half, each 0 when its
      half is empty. */
  function RecentTrend(locationData: seq<Sample>): (t: int)
    ensures -100 <= t <= 100
  {
    var h := Halves(SortNewestFirst(locationData));
    PassRate(h.0) - PassRate(h.1)
  }

  /** The newer half holds the newer samples, and the two halves together
      hold exactly the location's samples. */
  lemma RecentHalfIsNewer(locationData: seq<Sample>)
    ensures var h := Halves(SortNewestFirst(locationData));
      (forall i, j :: 0 <= i < |h.0| && 0 <= j < |h.1| ==> h.0[i].timestamp >= h.1[j].timestamp) &&
      multiset(h.0 + h.1) == multiset(locationData)
  {
    var sorted := SortNewestFirst(locationData);
    var h := Halves(sorted);
    var m := |sorted| / 2;
    forall i, j | 0 <= i < |h.0| && 0 <= j < |h.1|
      ensures h.0[i].timestamp >= h.1[j].timestamp
    {
      assert h.0[i] == sorted[i] && h.1[j] == sorted[m + j];
    }
  }

  /** With a single sample the newer half is empty, so the trend is minus
      the sample's own pass rate: -100 for a passing sample. */
  lemma TrendOfSingleSample(x: Sample)
    ensures RecentTrend([x]) == if x.status == PASS then -100 else 0
  {
    SingletonSorted(x);
    assert Halves([x]).0 == [] && Halves([x]).1 == [x];
    PassRateExtremes([x]);
  }

  /** A location whose samples all pass, or all miss, shows no trend once
      both halves are non-empty. */
  lemma TrendOfSteadyQuality(locationData: seq<Sample>)
    requires |locationData| >= 2
    requires forall i, j :: 0 <= i < |locationData| && 0 <= j < |locationData| ==>
      (locationData[i].status == PASS) == (locationData[j].status == PASS)
    ensures RecentTrend(locationData) == 0
  {
    var sorted := SortNewestFirst(locationData);
    var passing := locationData[0].status == PASS;
    SortKeepsUniformStatus(locationData, passing);
    var n := |sorted| / 2;
    assert Halves(sorted).0 == sorted[0..0 + n];
    assert Halves(sorted).1 == sorted[n..n + (|sorted| - n)];
    HalfPassRate(Halves(sorted).0, sorted, 0, passing);
    HalfPassRate(Halves(sorted).1, sorted, n, passing);
  }

  /** The sign convention: a location whose newer half all passes after an
      older half that all failed shows a trend of +100. */
  lemma TrendOfImprovement(s: seq<Sample>)
    requires NewestFirst(s) && |s| >= 2
    requires forall i :: 0 <= i < |s| ==> (s[i].status == PASS) == (i < |s| / 2)
    ensures RecentTrend(s) == 100
  {
    SortNewestFirstKeepsSorted(s);
    var h := Halves(s);
    forall i | 0 <= i < |h.0|
      ensures HasStatus(PASS)(h.0[i])
    {
      assert h.0[i] == s[i];
    }
    forall i | 0 <= i < |h.1|
      ensures !HasStatus(PASS)(h.1[i])
    {
      assert h.1[i] == s[|s| / 2 + i];
    }
    FilterAll(h.0, HasStatus(PASS));
    FilterNone(h.1, HasStatus(PASS));
    PassRateExtremes(h.0);
    PassRateExtremes(h.1);
  }

  /** Sorting keeps a list whose samples all pass (or all miss) that way. */
  lemma SortKeepsUniformStatus(s: seq<Sample>, passing: bool)
    requires forall i :: 0 <= i < |s| ==> (s[i].status == PASS) == passing
    ensures forall i :: 0 <= i < |SortNewestFirst(s)| ==> (SortNewestFirst(s)[i].status == PASS) == passing
  {
    var sorted := SortNewestFirst(s);
    forall i | 0 <= i < |sorted|
      ensures (sorted[i].status == PASS) == passing
    {
      assert sorted[i] in multiset(s);
    }
  }

  /** A non-empty slice of a list whose samples all pass (or all miss) has rate 100 (or 0). */
  lemma HalfPassRate(half: seq<Sample>, sorted: seq<Sample>, from: nat, passing: bool)
    requires half != [] && from + |half| <= |sorted| && half == sorted[from..from + |half|]
    requires forall i :: 0 <= i < |sorted| ==> (sorted[i].status == PASS) == passing
    ensures PassRate(half) == if passing then 100 else 0
  {
    forall i | 0 <= i < |half|
      ensures (half[i].status == PASS) == passing
    {
      assert half[i] == sorted[from + i];
    }
    if passing {
      FilterAll(half, HasStatus(PASS));
    } else {
      FilterNone(half, HasStatus(PASS));
    }
    PassRateExtremes(half);
  }

  /** One row of the metrics list. */
  datatype Metric = Metric(location: Location, stats: Stats, trend: int, tier: Tier)

  function MetricOf(data: seq<Sample>, location: Location): (m: Metric)
    ensures m.location == location
    ensures m.stats == StatsOf(LocationData(data, location.id))
    ensures m.trend == RecentTrend(LocationData(data, location.id))
    ensures m.tier == TierOf(m.stats.passRate)
    ensures m.stats.total == |LocationData(data, location.id)|
    ensures m.stats.passed + m.stats.warnings + m.stats.failed == m.stats.total
    ensures m.stats.total == 0 ==> m.stats.passRate == 0 && m.stats.averageValue == 0.0 && m.trend == 0
    ensures -100 <= m.trend <= 100
    ensures m.tier == Excellent <==> m.stats.passRate >= 90
    ensures m.tier == Critical <==> m.stats.passRate < 60
  {
    var locationData := LocationData(data, location.id);
    var stats := StatsOf(locationData);
    Metric(location, stats, RecentTrend(locationData), TierOf(stats.passRate))
  }

  /** The `metrics` memo: one metric per processing location, in the order of
      the location table, each over that location's samples only. */
  function MetricsOf(data: seq<Sample>): (r: seq<Metric>)
    ensures |r| == |Locations|
    ensures forall i :: 0 <= i < |r| ==> r[i].location == Locations[i]
    ensures forall i :: 0 <= i < |r| ==> r[i] == MetricOf(data, Locations[i])
  {
    Map(Locations, (l: Location) => MetricOf(data, l))
  }
}

/** The sample store of the dashboard: processing locations, quality
    samples, the PASS / WARNING / FAIL classification and the helper
    queries every view builds on (location subset, recent window, alert
    list, per-location statistics). The sample collection is a parameter
    (`data`) rather than the module-level SAMPLE_DATA constant. */
module Quality {
  import opened Seqs
  import opened Rates

  datatype Status = PASS | WARNING | FAIL

  /** A processing location and its target-quality rule (parameter, minimum value, unit). */
  datatype Location = Location(
    id: string, name: string, product: string,
    parameter: string, minValue: real, unit: string)

  /** One laboratory measurement. `timestamp` is milliseconds since the epoch;
      `date` is its calendar day as an ISO `YYYY-MM-DD` string. */
  datatype Sample = Sample(
    id: string, locationId: string, location: string, product: string,
    parameter: string, value: real, unit: string, targetMin: real,
    date: string, timestamp: int, status: Status, sampleId: string, analyst: string)

  const DayMs: int := 24 * 60 * 60 * 1000

  /** PROCESSING_LOCATIONS, in declaration order. */
  const Locations: seq<Location> := [
    Location("discharge_point", "DISCHARGE POINT", "Copper Concentrate", "Copper", 25.0, "%"),
    Location("flash_smelting_furnace", "FLASH SMELTING FURNACE", "Copper Matte", "Copper", 70.0, "%"),
    Location("slag_concentrator", "SLAG CONCENTRATOR", "Recovery Copper Concentrate", "Copper", 22.0, "%"),
    Location("acid_plant", "ACID PLANT", "Sulfuric Acid", "Sulfuric Acid", 98.5, "%"),
    Location("flash_converting_furnace", "FLASH CONVERTING FURNACE", "Copper Blister", "Copper", 98.5, "%"),
    Location("anode_furnace", "ANODE FURNACE & ANODE CASTING WHEEL", "Copper Anode", "Copper", 99.2, "%"),
    Location("copper_electro_refining", "COPPER ELECTRO REFINING", "Copper Cathode", "Copper", 99.99, "%"),
    Location("pmr_gold", "PMR_Gold", "Gold", "Gold", 99.99, "%"),
    Location("pmr_silver", "PMR_Silver", "Silver", "Silver", 99.99, "%")
  ]

  /** Nine locations, with distinct identifiers and distinct names, each with a positive target. */
  lemma LocationsWellFormed()
    ensures |Locations| == 9
    ensures forall i, j :: 0 <= i < j < |Locations| ==> Locations[i].id != Locations[j].id
    ensures forall i, j :: 0 <= i < j < |Locations| ==> Locations[i].name != Locations[j].name
    ensures forall i :: 0 <= i < |Locations| ==> Locations[i].minValue > 0.0
  {
    LocationIdsDistinct();
    LocationNamesDistinct();
  }

  lemma LocationIdsDistinct()
    ensures forall i, j :: 0 <= i < j < |Locations| ==> Locations[i].id != Locations[j].id
  {
  }

  lemma LocationNamesDistinct()
    ensures forall i, j :: 0 <= i < j < |Locations| ==> Locations[i].name != Locations[j].name
  {
  }

  /** `PROCESSING_LOCATIONS.find(loc => loc.id === id)`. */
  function FindLocation(id: string): (r: Option<Location>)
    ensures r.Some? <==> exists i :: 0 <= i < |Locations| && Locations[i].id == id
    ensures r.Some? ==> r.value in Locations && r.value.id == id
  {
    FindIn(Locations, id)
  }

  function FindIn(locs: seq<Location>, id: string): (r: Option<Location>)
    ensures r.Some? <==> exists i :: 0 <= i < |locs| && locs[i].id == id
    ensures r.Some? ==> r.value in locs && r.value.id == id
  {
    if locs == [] then None
    else if locs[0].id == id then Some(locs[0])
    else
      var r := FindIn(locs[1..], id);
      assert forall i :: 1 <= i < |locs| ==> locs[i] == locs[1..][i - 1];
      r
  }

  datatype Option<T> = None | Some(value: T)

  // ---------------------------------------------------------------------
  // Classification (the status rule of generateSampleData)

  /** PASS at or above the target minimum, WARNING within 2% below it, FAIL further below. */
  function Classify(value: real, targetMin: real): (s: Status)
    ensures s == PASS <==> value >= targetMin
    ensures s == WARNING <==> targetMin * 0.98 <= value < targetMin
    ensures s == FAIL <==> value < targetMin && value < targetMin * 0.98
  {
    if value >= targetMin then PASS
    else if value >= targetMin * 0.98 then WARNING
    else FAIL
  }

  /** The warning band is non-empty exactly for a positive target; at 0 it
      collapses and for a negative target it is empty. */
  lemma WarningBandExists(targetMin: real)
    ensures (exists v :: Classify(v, targetMin) == WARNING) <==> targetMin > 0.0
  {
    if targetMin > 0.0 {
      assert Classify(targetMin * 0.99, targetMin) == WARNING;
    }
  }

  function Rank(s: Status): nat {
    match s
    case FAIL => 0
    case WARNING => 1
    case PASS => 2
  }

  /** A larger measured value never gets a worse status. */
  lemma ClassifyMonotone(v1: real, v2: real, targetMin: real)
    requires v1 <= v2
    ensures Rank(Classify(v1, targetMin)) <= Rank(Classify(v2, targetMin))
  {
  }

  /** A stored sample's status agrees with the classification rule. */
  ghost predicate WellClassified(x: Sample) {
    x.status == Classify(x.value, x.targetMin)
  }

  // ---------------------------------------------------------------------
  // Ordering

  function NewestKey(x: Sample): int { -x.timestamp }
  function OldestKey(x: Sample): int { x.timestamp }

  ghost predicate NewestFirst(s: seq<Sample>) {
    forall i, j :: 0 <= i < j < |s| ==> s[i].timestamp >= s[j].timestamp
  }

  ghost predicate OldestFirst(s: seq<Sample>) {
    forall i, j :: 0 <= i < j < |s| ==> s[i].timestamp <= s[j].timestamp
  }

  /** `s.sort((a, b) => b.timestamp - a.timestamp)`: stable, newest first. */
  function SortNewestFirst(s: seq<Sample>): (r: seq<Sample>)
    ensures |r| == |s| && multiset(r) == multiset(s)
    ensures NewestFirst(r)
  {
    var r := SortBy(s, NewestKey);
    assert forall i, j :: 0 <= i < j < |r| ==> NewestKey(r[i]) <= NewestKey(r[j]);
    r
  }

  /** `s.sort((a, b) => a.timestamp - b.timestamp)`: stable, oldest first. */
  function SortOldestFirst(s: seq<Sample>): (r: seq<Sample>)
    ensures |r| == |s| && multiset(r) == multiset(s)
    ensures OldestFirst(r)
  {
    SortBy(s, OldestKey)
  }

  /** A list already newest first is returned unchanged by the newest-first sort. */
  lemma SortNewestFirstKeepsSorted(s: seq<Sample>)
    requires NewestFirst(s)
    ensures SortNewestFirst(s) == s
  {
    assert SortedBy(s, NewestKey);
    SortSortedIsIdentity(s, NewestKey);
  }

  /** A single sample is its own sort, either way. */
  lemma SingletonSorted(x: Sample)
    ensures SortNewestFirst([x]) == [x] && SortOldestFirst([x]) == [x]
  {
    var a := SortNewestFirst([x]);
    var b := SortOldestFirst([x]);
    assert a[0] in multiset([x]);
    assert b[0] in multiset([x]);
  }

  /** The newest-first sort of a filter holds exactly the samples that pass it. */
  lemma SortedFilterMembers(s: seq<Sample>, p: Sample -> bool)
    ensures forall x :: x in SortNewestFirst(Filter(s, p)) ==> x in s && p(x)
    ensures forall x :: x in s && p(x) ==> x in SortNewestFirst(Filter(s, p))
  {
    var f := Filter(s, p);
    var r := SortNewestFirst(f);
    FilterMembers(s, p);
    forall x | x in r
      ensures x in s && p(x)
    {
      assert x in multiset(f);
      var j :| 0 <= j < |f| && f[j] == x;
    }
    forall x | x in s && p(x)
      ensures x in r
    {
      var j :| 0 <= j < |s| && s[j] == x;
      assert x in multiset(r);
    }
  }

  /** The seeded collection: the generated samples ordered newest first. */
  function SeedOrder(generated: seq<Sample>): (r: seq<Sample>)
    ensures NewestFirst(r)
    ensures multiset(r) == multiset(generated)
  {
    SortNewestFirst(generated)
  }

  // ---------------------------------------------------------------------
  // Queries over the collection

  function LocationIdOf(x: Sample): string { x.locationId }

  function AtLocation(id: string): Sample -> bool {
    KeyIs(LocationIdOf, id)
  }

  lemma AtLocationMeans(id: string)
    ensures forall x :: AtLocation(id)(x) == (x.locationId == id)
  {
    forall x
      ensures AtLocation(id)(x) == (x.locationId == id)
    {
      assert AtLocation(id)(x) == KeyIs(LocationIdOf, id)(x) == (LocationIdOf(x) == id);
    }
  }

  function HasStatus(st: Status): Sample -> bool {
    (x: Sample) => x.status == st
  }

  function IsAlert(x: Sample): bool {
    x.status == FAIL || x.status == WARNING
  }

  /** getLocationData: the samples of one location, in collection order. */
  function LocationData(data: seq<Sample>, locationId: string): (r: seq<Sample>)
    ensures forall i :: 0 <= i < |r| ==> r[i].locationId == locationId && r[i] in data
    ensures forall i :: 0 <= i < |data| && data[i].locationId == locationId ==> data[i] in r
    ensures SubseqOf(r, data)
  {
    FilterIsSubseq(data, AtLocation(locationId));
    FilterMembers(data, AtLocation(locationId));
    AtLocationMeans(locationId);
    Filter(data, AtLocation(locationId))
  }

  /** getRecentData: the samples no older than `days` days before `now`, in collection order. */
  function RecentData(data: seq<Sample>, days: int, now: int): (r: seq<Sample>)
    ensures forall i :: 0 <= i < |r| ==> r[i].timestamp >= now - days * DayMs && r[i] in data
    ensures forall i :: 0 <= i < |data| && data[i].timestamp >= now - days * DayMs ==> data[i] in r
    ensures SubseqOf(r, data)
  {
    FilterIsSubseq(data, Within(days, now));
    FilterMembers(data, Within(days, now));
    Filter(data, Within(days, now))
  }

  function Within(days: int, now: int): Sample -> bool {
    (x: Sample) => x.timestamp >= now - days * DayMs
  }

  /** getAlerts: the first 20 FAIL / WARNING samples of the collection. */
  function Alerts(data: seq<Sample>): (r: seq<Sample>)
    ensures |r| <= 20
    ensures forall i :: 0 <= i < |r| ==> IsAlert(r[i])
    ensures r <= Filter(data, IsAlert)
    ensures |r| < 20 ==> r == Filter(data, IsAlert)
    ensures SubseqOf(r, data)
  {
    var all := Filter(data, IsAlert);
    FilterIsSubseq(data, IsAlert);
    PrefixIsSubseq(Take(all, 20), all, data);
    Take(all, 20)
  }

  lemma {:induction false} PrefixIsSubseq<T>(p: seq<T>, r: seq<T>, s: seq<T>)
    requires p <= r && SubseqOf(r, s)
    ensures SubseqOf(p, s)
    decreases |s|
  {
    if p != [] && s != [] {
      if r[0] == s[0] {
        PrefixIsSubseq(p[1..], r[1..], s[1..]);
      } else {
        PrefixIsSubseq(p, r, s[1..]);
      }
    }
  }

  // ---------------------------------------------------------------------
  // Statistics

  /** Sum of the measured values (the `reduce` of the source). */
  function Sum(s: seq<Sample>): real {
    if s == [] then 0.0 else s[0].value + Sum(s[1..])
  }

  lemma {:induction false} SumBounds(s: seq<Sample>, lo: real, hi: real)
    requires forall i :: 0 <= i < |s| ==> lo <= s[i].value <= hi
    ensures |s| as real * lo <= Sum(s) <= |s| as real * hi
  {
    if s != [] {
      SumBounds(s[1..], lo, hi);
    }
  }

  /** The mean of the values rounded to two decimals, 0 for no samples. */
  function AverageValue(s: seq<Sample>): (r: real)
    ensures s == [] ==> r == 0.0
    ensures s != [] ==> r - 0.005 <= Sum(s) / |s| as real < r + 0.005
  {
    if |s| > 0 then Round2(Sum(s) / |s| as real) else 0.0
  }

  /** When all values lie in [lo, hi], so does the unrounded mean; the average is within half a hundredth of it. */
  lemma AverageWithinRange(s: seq<Sample>, lo: real, hi: real)
    requires s != []
    requires forall i :: 0 <= i < |s| ==> lo <= s[i].value <= hi
    ensures lo - 0.005 <= AverageValue(s) <= hi + 0.005
  {
    SumBounds(s, lo, hi);
    var n := |s| as real;
    assert lo <= Sum(s) / n <= hi by {
      assert n * lo <= Sum(s) <= n * hi;
      assert (n * lo) / n == lo && (n * hi) / n == hi;
    }
  }

  /** Counts by status. */
  function CountStatus(s: seq<Sample>, st: Status): nat {
    Count(s, HasStatus(st))
  }

  /** Every sample has exactly one of the three statuses. */
  lemma {:induction false} StatusCountsAddUp(s: seq<Sample>)
    ensures CountStatus(s, PASS) + CountStatus(s, WARNING) + CountStatus(s, FAIL) == |s|
  {
    if s != [] {
      StatusCountsAddUp(s[1..]);
    }
  }

  /** `total > 0 ? Math.round((passed / total) * 100) : 0`: the share of PASS samples as a rounded percentage. */
  function PassRate(s: seq<Sample>): (r: nat)
    ensures r <= 100
    ensures s == [] ==> r == 0
    ensures s != [] ==> 2 * |s| * r <= 200 * CountStatus(s, PASS) + |s| < 2 * |s| * (r + 1)
  {
    Percent(CountStatus(s, PASS), |s|)
  }

  /** total, passed, warnings, failed, passRate, averageValue of a set of samples. */
  datatype Stats = Stats(
    total: nat, passed: nat, warnings: nat, failed: nat, passRate: nat, averageValue: real)

  const ZeroStats := Stats(0, 0, 0, 0, 0, 0.0)

  function StatsOf(s: seq<Sample>): (r: Stats)
    ensures r.total == |s|
    ensures r.passed == CountStatus(s, PASS)
    ensures r.warnings == CountStatus(s, WARNING)
    ensures r.failed == CountStatus(s, FAIL)
    ensures r.passed + r.warnings + r.failed == r.total
    ensures r.passRate <= 100
    ensures r.total > 0 ==> 2 * r.total * r.passRate <= 200 * r.passed + r.total < 2 * r.total * (r.passRate + 1)
    ensures s == [] ==> r == ZeroStats
  {
    StatusCountsAddUp(s);
    var total := |s|;
    var passed := CountStatus(s, PASS);
    Stats(total, passed, CountStatus(s, WARNING), CountStatus(s, FAIL),
          PassRate(s), AverageValue(s))
  }

  /** getLocationStats: the statistics of one location's samples. */
  function LocationStats(data: seq<Sample>, locationId: string): (r: Stats)
    ensures r == StatsOf(LocationData(data, locationId))
    ensures r.total == |LocationData(data, locationId)|
    ensures r.passed + r.warnings + r.failed == r.total
    ensures r.passRate <= 100
    ensures (forall i :: 0 <= i < |data| ==> data[i].locationId != locationId) ==> r == ZeroStats
  {
    StatsOf(LocationData(data, locationId))
  }

  /** Samples taken at one location with one status. */
  function StatusAt(locationId: string, st: Status): Sample -> bool {
    (x: Sample) => x.locationId == locationId && x.status == st
  }

  /** A location's passed, warning and failed counts are the numbers of
      samples in the whole collection taken there with that status. */
  lemma LocationStatusCounts(data: seq<Sample>, locationId: string)
    ensures LocationStats(data, locationId).passed == Count(data, StatusAt(locationId, PASS))
    ensures LocationStats(data, locationId).warnings == Count(data, StatusAt(locationId, WARNING))
    ensures LocationStats(data, locationId).failed == Count(data, StatusAt(locationId, FAIL))
  {
    AtLocationMeans(locationId);
    FilterFilter(data, AtLocation(locationId), HasStatus(PASS), StatusAt(locationId, PASS));
    FilterFilter(data, AtLocation(locationId), HasStatus(WARNING), StatusAt(locationId, WARNING));
    FilterFilter(data, AtLocation(locationId), HasStatus(FAIL), StatusAt(locationId, FAIL));
  }

  /** All samples passing gives 100%, none passing gives 0%. */
  lemma PassRateExtremes(s: seq<Sample>)
    requires s != []
    ensures CountStatus(s, PASS) == |s| ==> PassRate(s) == 100
    ensures CountStatus(s, PASS) == 0 ==> PassRate(s) == 0
  {
    PercentExtremes(|s|);
  }

  // ---------------------------------------------------------------------
  // Per-location shares of a subset (the history page's locationBreakdown
  // and the reports page's locationStats compute the same record)

  datatype LocationShare = LocationShare(location: Location, total: nat, passed: nat, passRate: nat, averageValue: real)

  function ShareOf(s: seq<Sample>, location: Location): (e: LocationShare)
    ensures e.location == location
    ensures e.total == Count(s, AtLocation(location.id))
    ensures e.passed == CountStatus(LocationData(s, location.id), PASS) && e.passed <= e.total
    ensures e.passRate == PassRate(LocationData(s, location.id)) && e.passRate <= 100
    ensures e.averageValue == AverageValue(LocationData(s, location.id))
    ensures e.total == 0 ==> e.passed == 0 && e.passRate == 0 && e.averageValue == 0.0
  {
    var ls := LocationData(s, location.id);
    LocationShare(location, |ls|, CountStatus(ls, PASS), PassRate(ls), AverageValue(ls))
  }

  function SharesOf(s: seq<Sample>): LocationShare -> bool {
    (e: LocationShare) => e.total > 0
  }

  function ShareIn(s: seq<Sample>): Location -> LocationShare {
    (l: Location) => ShareOf(s, l)
  }

  /** The locations of the table that have samples in s, in table order. */
  function ActiveShares(s: seq<Sample>): (r: seq<LocationShare>)
    ensures forall i :: 0 <= i < |r| ==> r[i].total > 0
    ensures forall i :: 0 <= i < |Locations| && ShareOf(s, Locations[i]).total > 0 ==>
      ShareOf(s, Locations[i]) in r
    ensures SubseqOf(r, Map(Locations, ShareIn(s)))
  {
    var all := Map(Locations, ShareIn(s));
    FilterIsSubseq(all, SharesOf(s));
    FilterMembers(all, SharesOf(s));
    Filter(all, SharesOf(s))
  }

  function ShareTotal(e: LocationShare): nat { e.total }

  function Ids(locs: seq<Location>): seq<string> {
    Map(locs, (l: Location) => l.id)
  }

  /** When every sample belongs to a location of the table, the listed
      locations account for every sample: their totals add up to |s|. */
  lemma ActiveSharesCoverKnownSamples(s: seq<Sample>)
    requires forall i :: 0 <= i < |s| ==> FindLocation(s[i].locationId).Some?
    ensures SumOver(ActiveShares(s), ShareTotal) == |s|
  {
    var all := Map(Locations, ShareIn(s));
    SumOverPositive(all, ShareTotal, SharesOf(s));
    SharesSum(s, Locations);
    KnownSamplesPartition(s);
  }

  /** Grouping samples of known locations by location id accounts for each once. */
  lemma {:induction false} KnownSamplesPartition(s: seq<Sample>)
    requires forall i :: 0 <= i < |s| ==> FindLocation(s[i].locationId).Some?
    ensures SumCounts(s, LocationIdOf, Ids(Locations)) == |s|
  {
    IdsDistinct();
    KnownIdsListed(s);
    PartitionByKey(s, LocationIdOf, Ids(Locations));
  }

  lemma KnownIdsListed(s: seq<Sample>)
    requires forall i :: 0 <= i < |s| ==> FindLocation(s[i].locationId).Some?
    ensures forall i :: 0 <= i < |s| ==> LocationIdOf(s[i]) in Ids(Locations)
  {
    forall i | 0 <= i < |s|
      ensures LocationIdOf(s[i]) in Ids(Locations)
    {
      var j :| 0 <= j < |Locations| && Locations[j].id == s[i].locationId;
      assert Ids(Locations)[j] == s[i].locationId;
    }
  }

  /** The identifiers of the location table are pairwise distinct. */
  lemma IdsDistinct()
    ensures Distinct(Ids(Locations))
  {
    LocationsWellFormed();
    var ids := Ids(Locations);
    forall a, b | 0 <= a < b < |ids|
      ensures ids[a] != ids[b]
    {
      assert ids[a] == Locations[a].id && ids[b] == Locations[b].id;
    }
  }

  lemma {:induction false} SharesSum(s: seq<Sample>, locs: seq<Location>)
    ensures SumOver(Map(locs, ShareIn(s)), ShareTotal) == SumCounts(s, LocationIdOf, Ids(locs))
  {
    if locs != [] {
      assert Map(locs, ShareIn(s))[1..] == Map(locs[1..], ShareIn(s));
      assert Ids(locs)[1..] == Ids(locs[1..]);
      SharesSum(s, locs[1..]);
    }
  }
}

/** DashboardAlerts: the filtered alert list, the alert statistics with the
    24-hour trend, the priority of an alert and its "time ago" label. */
module AlertsPage {
  import opened Seqs
  import opened Text
  import opened Quality

  // ---------------------------------------------------------------------
  // Filtered alert list

  /** The severity control: "critical" keeps FAIL alerts, "warning" keeps
      WARNING alerts, and any other value ("all") keeps every alert. */
  predicate SeverityMatches(x: Sample, severity: string) {
    if severity == "critical" then x.status == FAIL
    else if severity == "warning" then x.status == WARNING
    else true
  }

  /** The alert search looks at the location name, the product and the sample
      id (not the analyst, unlike the report search). */
  predicate AlertMatchesSearch(x: Sample, term: string) {
    var t := Lower(term);
    Includes(Lower(x.location), t) || Includes(Lower(x.product), t) || Includes(Lower(x.sampleId), t)
  }

  predicate InAlertList(x: Sample, severity: string, location: string, term: string) {
    SeverityMatches(x, severity) &&
    (location == "all" || x.locationId == location) &&
    (term == "" || AlertMatchesSearch(x, term))
  }

  function AlertFilter(severity: string, location: string, term: string): Sample -> bool {
    (x: Sample) => InAlertList(x, severity, location, term)
  }

  /** The `alerts` memo: the alerts of getAlerts that pass the three controls, in order. */
  function FilteredAlerts(data: seq<Sample>, severity: string, location: string, term: string): (r: seq<Sample>)
    ensures SubseqOf(r, Alerts(data))
    ensures forall i :: 0 <= i < |r| ==> IsAlert(r[i]) && InAlertList(r[i], severity, location, term)
    ensures forall i :: 0 <= i < |Alerts(data)| && InAlertList(Alerts(data)[i], severity, location, term) ==>
      Alerts(data)[i] in r
  {
    var all := Alerts(data);
    var p := AlertFilter(severity, location, term);
    FilterIsSubseq(all, p);
    FilterMembers(all, p);
    Filter(all, p)
  }

  /** Every alert is FAIL or WARNING, so under the same location and search
      the "critical" and "warning" lists split the "all" list between them. */
  lemma SeveritiesSplitAlerts(data: seq<Sample>, location: string, term: string)
    ensures |FilteredAlerts(data, "critical", location, term)| + |FilteredAlerts(data, "warning", location, term)|
         == |FilteredAlerts(data, "all", location, term)|
  {
    SeveritiesSplit(Alerts(data), location, term);
  }

  lemma {:induction false} SeveritiesSplit(s: seq<Sample>, location: string, term: string)
    requires forall i :: 0 <= i < |s| ==> IsAlert(s[i])
    ensures |Filter(s, AlertFilter("critical", location, term))| + |Filter(s, AlertFilter("warning", location, term))|
         == |Filter(s, AlertFilter("all", location, term))|
  {
    if s != [] {
      assert IsAlert(s[0]);
      SeveritiesSplit(s[1..], location, term);
    }
  }

  // ---------------------------------------------------------------------
  // Alert statistics

  datatype LocationAlerts = LocationAlerts(location: Location, total: nat, critical: nat, warnings: nat)

  /** One entry of `locationAlerts`. */
  function LocationAlertsOf(alerts: seq<Sample>, location: Location): (e: LocationAlerts)
    requires forall i :: 0 <= i < |alerts| ==> IsAlert(alerts[i])
    ensures e.location == location
    ensures e.total == |LocationData(alerts, location.id)|
    ensures e.critical == CountStatus(LocationData(alerts, location.id), FAIL)
    ensures e.warnings == CountStatus(LocationData(alerts, location.id), WARNING)
    ensures e.critical + e.warnings == e.total
  {
    var here := LocationData(alerts, location.id);
    StatusCountsAddUp(here);
    forall i | 0 <= i < |here|
      ensures !HasStatus(PASS)(here[i])
    {
      var j :| 0 <= j < |alerts| && alerts[j] == here[i];
      assert IsAlert(alerts[j]);
    }
    FilterNone(here, HasStatus(PASS));
    LocationAlerts(location, |here|, CountStatus(here, FAIL), CountStatus(here, WARNING))
  }

  function HasAlertsIn(e: LocationAlerts): bool { e.total > 0 }

  function AlertsAt(alerts: seq<Sample>): Location -> LocationAlerts
    requires forall i :: 0 <= i < |alerts| ==> IsAlert(alerts[i])
  {
    (l: Location) => LocationAlertsOf(alerts, l)
  }

  datatype AlertStats = AlertStats(total: nat, critical: nat, warnings: nat,
                                   locationAlerts: seq<LocationAlerts>, recentCount: nat, trend: int)

  /** The last 24 hours before `now`, and the 24 hours before those. */
  predicate InLastDay(x: Sample, now: int) { x.timestamp >= now - DayMs }
  predicate InDayBefore(x: Sample, now: int) { now - 2 * DayMs <= x.timestamp < now - DayMs }
  predicate OlderThanTwoDays(x: Sample, now: int) { x.timestamp < now - 2 * DayMs }

  function LastDay(now: int): Sample -> bool { (x: Sample) => InLastDay(x, now) }
  function DayBefore(now: int): Sample -> bool { (x: Sample) => InDayBefore(x, now) }
  function OlderDays(now: int): Sample -> bool { (x: Sample) => OlderThanTwoDays(x, now) }

  /** The `alertStats` memo over getAlerts, with the clock as a parameter. */
  function AlertStatsOf(data: seq<Sample>, now: int): (r: AlertStats)
    ensures r.total == |Alerts(data)| <= 20
    ensures r.critical == CountStatus(Alerts(data), FAIL) && r.warnings == CountStatus(Alerts(data), WARNING)
    ensures r.critical + r.warnings == r.total
    ensures r.locationAlerts == Filter(Map(Locations, AlertsAt(Alerts(data))), HasAlertsIn)
    ensures forall i :: 0 <= i < |r.locationAlerts| ==>
      r.locationAlerts[i].total > 0 && r.locationAlerts[i].critical + r.locationAlerts[i].warnings == r.locationAlerts[i].total
    ensures forall i :: 0 <= i < |Locations| && |LocationData(Alerts(data), Locations[i].id)| > 0 ==>
      LocationAlertsOf(Alerts(data), Locations[i]) in r.locationAlerts
    ensures r.recentCount <= r.total
    ensures -(r.total as int) <= r.trend <= r.total
  {
    var all := Alerts(data);
    StatusCountsAddUp(all);
    FilterNone(all, HasStatus(PASS));
    var entries := Map(Locations, AlertsAt(all));
    ListedAlertsCounted(all, entries);
    TableLocationsListed(all, entries);
    assert forall i :: 0 <= i < |Filter(entries, HasAlertsIn)| ==> Filter(entries, HasAlertsIn)[i] in Filter(entries, HasAlertsIn);
    var recent := Filter(all, LastDay(now));
    var previous := Filter(all, DayBefore(now));
    AlertStats(|all|, CountStatus(all, FAIL), CountStatus(all, WARNING),
               Filter(entries, HasAlertsIn), |recent|, |recent| - |previous|)
  }

  /** Every listed location has alerts, each critical or a warning. */
  lemma ListedAlertsCounted(all: seq<Sample>, entries: seq<LocationAlerts>)
    requires forall i :: 0 <= i < |all| ==> IsAlert(all[i])
    requires entries == Map(Locations, AlertsAt(all))
    ensures forall e :: e in Filter(entries, HasAlertsIn) ==> e.total > 0 && e.critical + e.warnings == e.total
  {
    forall j | 0 <= j < |entries|
      ensures entries[j].critical + entries[j].warnings == entries[j].total
    {
      assert entries[j] == LocationAlertsOf(all, Locations[j]);
    }
    FilterMembers(entries, HasAlertsIn);
  }

  /** Every location of the table with at least one alert is listed. */
  lemma TableLocationsListed(all: seq<Sample>, entries: seq<LocationAlerts>)
    requires forall i :: 0 <= i < |all| ==> IsAlert(all[i])
    requires entries == Map(Locations, AlertsAt(all))
    ensures forall i :: 0 <= i < |Locations| && |LocationData(all, Locations[i].id)| > 0 ==>
      LocationAlertsOf(all, Locations[i]) in Filter(entries, HasAlertsIn)
  {
    FilterMembers(entries, HasAlertsIn);
    forall i | 0 <= i < |Locations| && |LocationData(all, Locations[i].id)| > 0
      ensures LocationAlertsOf(all, Locations[i]) in Filter(entries, HasAlertsIn)
    {
      assert entries[i] == LocationAlertsOf(all, Locations[i]);
    }
  }

  /** The two windows of the trend never overlap: with the older alerts they
      account for every alert exactly once. */
  lemma {:induction false} WindowsPartition(s: seq<Sample>, now: int)
    ensures Count(s, LastDay(now)) + Count(s, DayBefore(now)) + Count(s, OlderDays(now)) == |s|
  {
    if s != [] {
      WindowsPartition(s[1..], now);
    }
  }

  /** The trend is the last day's alerts minus the day before's, and the
      alerts of the overview total split over the three windows. */
  lemma TrendAccountsForAlerts(data: seq<Sample>, now: int)
    ensures var r := AlertStatsOf(data, now);
      r.recentCount == Count(Alerts(data), LastDay(now)) &&
      r.trend == Count(Alerts(data), LastDay(now)) - Count(Alerts(data), DayBefore(now)) &&
      r.recentCount + Count(Alerts(data), DayBefore(now)) + Count(Alerts(data), OlderDays(now)) == r.total
  {
    WindowsPartition(Alerts(data), now);
  }

  // ---------------------------------------------------------------------
  // Priority

  datatype Priority = High | Medium | Low

  /** A double-precision quotient: a finite value, or the infinities and NaN
      that a division by zero produces. */
  datatype Number = Finite(r: real) | PlusInfinity | MinusInfinity | NotANumber

  /** `((targetMin - value) / targetMin) * 100`. Division by a zero target
      gives an infinity of the numerator's sign, or NaN for 0 / 0. */
  function Deviation(targetMin: real, value: real): Number {
    if targetMin != 0.0 then Finite((targetMin - value) / targetMin * 100.0)
    else if value < 0.0 then PlusInfinity
    else if value > 0.0 then MinusInfinity
    else NotANumber
  }

  /** `deviation > bound`: false for NaN and minus infinity. */
  predicate Exceeds(n: Number, bound: real) {
    match n
    case Finite(r) => r > bound
    case PlusInfinity => true
    case MinusInfinity => false
    case NotANumber => false
  }

  /** getPriorityLevel: a FAIL is High beyond 20% under target, Medium beyond
      10%, otherwise Low; a WARNING is always Low. */
  function PriorityOf(x: Sample): (p: Priority)
    ensures x.status != FAIL ==> p == Low
    ensures x.status == FAIL && x.targetMin > 0.0 ==>
      (p == High <==> x.value < 0.8 * x.targetMin) &&
      (p == Medium <==> 0.8 * x.targetMin <= x.value < 0.9 * x.targetMin)
    ensures x.status == FAIL && x.targetMin < 0.0 ==>
      (p == High <==> x.value > 0.8 * x.targetMin) &&
      (p == Medium <==> 0.9 * x.targetMin < x.value <= 0.8 * x.targetMin)
    ensures x.status == FAIL && x.targetMin == 0.0 ==> (p == High <==> x.value < 0.0)
  {
    var d := Deviation(x.targetMin, x.value);
    DeviationThreshold(x.targetMin, x.value, 20.0);
    DeviationThreshold(x.targetMin, x.value, 10.0);
    if x.status == FAIL then
      if Exceeds(d, 20.0) then High
      else if Exceeds(d, 10.0) then Medium
      else Low
    else Low
  }

  /** The deviation exceeds `pct` percent exactly when the value lies more
      than `pct` percent of the target below it (above it, for a negative target). */
  lemma DeviationThreshold(t: real, v: real, pct: real)
    ensures t > 0.0 ==> (Exceeds(Deviation(t, v), pct) <==> v < (1.0 - pct / 100.0) * t)
    ensures t < 0.0 ==> (Exceeds(Deviation(t, v), pct) <==> v > (1.0 - pct / 100.0) * t)
  {
    if t != 0.0 {
      var q := (t - v) / t;
      var k := pct / 100.0;
      assert Exceeds(Deviation(t, v), pct) <==> q > k;
      assert (q - k) * t == t - v - k * t;
      assert (1.0 - k) * t == t - k * t;
      if t > 0.0 {
        SignOfProduct(q - k, t);
      } else {
        SignOfProduct(k - q, -t);
        assert (k - q) * -t == (q - k) * t;
      }
    }
  }

  lemma SignOfProduct(a: real, b: real)
    requires b > 0.0
    ensures a > 0.0 <==> a * b > 0.0
  {
    if a > 0.0 {
      assert a * b > 0.0;
    } else {
      assert a * b <= 0.0;
    }
  }

  /** On a correctly classified FAIL with a positive target, the value is
      already at least 2% under target; it is Low only in the band from 10%
      to 2% under target. */
  lemma LowFailBand(x: Sample)
    requires WellClassified(x) && x.status == FAIL && x.targetMin > 0.0
    ensures PriorityOf(x) == Low <==> 0.9 * x.targetMin <= x.value < 0.98 * x.targetMin
  {
  }

  // ---------------------------------------------------------------------
  // Time ago

  /** The elapsed time shown on an alert, in minutes, hours or days. */
  datatype Elapsed = Elapsed(amount: int, unit: char)

  /** The whole minutes between the alert and `now` (Math.floor of the quotient). */
  function MinutesBetween(now: int, timestamp: int): int {
    (now - timestamp) / 60000
  }

  /** getTimeAgo's choice of unit: minutes under an hour, hours under a day,
      days otherwise, each rounded down. */
  function ElapsedOf(now: int, timestamp: int): (e: Elapsed)
    ensures var m := MinutesBetween(now, timestamp);
      (e.unit == 'm' <==> m < 60) &&
      (e.unit == 'm' ==> e.amount == m) &&
      (e.unit == 'h' <==> 60 <= m < 1440) &&
      (e.unit == 'h' ==> 1 <= e.amount <= 23 && 60 * e.amount <= m < 60 * e.amount + 60) &&
      (e.unit == 'd' <==> m >= 1440) &&
      (e.unit == 'd' ==> e.amount >= 1 && 1440 * e.amount <= m < 1440 * e.amount + 1440)
  {
    var m := MinutesBetween(now, timestamp);
    if m < 60 then Elapsed(m, 'm')
    else if m < 1440 then Elapsed(m / 60, 'h')
    else Elapsed(m / 1440, 'd')
  }

  /** The label: the amount in decimal, the unit letter, then " ago". */
  function TimeAgo(now: int, timestamp: int): string {
    var e := ElapsedOf(now, timestamp);
    IntToString(e.amount) + [e.unit] + " ago"
  }

  /** The label reads back: dropping the unit and " ago" leaves the decimal
      text of the elapsed amount. */
  lemma TimeAgoReadsBack(now: int, timestamp: int)
    ensures var r := TimeAgo(now, timestamp);
      var e := ElapsedOf(now, timestamp);
      |r| >= 6 && r[|r| - 5] == e.unit && r[|r| - 4..] == " ago" &&
      (r[0] == '-' || IsDigit(r[0])) &&
      (forall k :: 1 <= k < |r| - 5 ==> IsDigit(r[k])) &&
      ParseInt(r[..|r| - 5]) == e.amount
  {
    var e := ElapsedOf(now, timestamp);
    IntRoundTrip(e.amount);
    var r := TimeAgo(now, timestamp);
    assert r[..|r| - 5] == IntToString(e.amount);
  }
}

/** DashboardOverview: the overall counts over the selected time range, one
    card per processing location, and the five most recent alerts. */
module Overview {
  import opened Seqs
  import opened Quality

  datatype LocationCard = LocationCard(location: Location, stats: Stats)

  datatype OverviewPage = OverviewPage(overall: Stats, cards: seq<LocationCard>, shownAlerts: seq<Sample>)

  function CardOf(data: seq<Sample>): Location -> LocationCard {
    (l: Location) => LocationCard(l, LocationStats(data, l.id))
  }

  function CardTotal(c: LocationCard): nat { c.stats.total }

  /** The page for a time range of `days` days before `now`. The overall
      counts cover the time range only; the location cards, like
      getLocationStats, cover the whole collection. */
  function OverviewOf(data: seq<Sample>, days: int, now: int): (o: OverviewPage)
    ensures o.overall == StatsOf(RecentData(data, days, now))
    ensures o.overall.total == |RecentData(data, days, now)|
    ensures o.overall.passed + o.overall.warnings + o.overall.failed == o.overall.total
    ensures o.overall.passRate <= 100 && (o.overall.total == 0 ==> o.overall.passRate == 0)
    ensures o.overall.passed == Count(RecentData(data, days, now), HasStatus(PASS))
    ensures |o.cards| == |Locations|
    ensures forall i :: 0 <= i < |o.cards| ==>
      o.cards[i].location == Locations[i] && o.cards[i].stats == LocationStats(data, Locations[i].id)
    ensures |o.shownAlerts| == (if |Alerts(data)| <= 5 then |Alerts(data)| else 5) && o.shownAlerts <= Alerts(data)
    ensures forall i :: 0 <= i < |o.shownAlerts| ==> IsAlert(o.shownAlerts[i])
  {
    OverviewPage(StatsOf(RecentData(data, days, now)), Map(Locations, CardOf(data)), Take(Alerts(data), 5))
  }

  /** When every sample is inside the time range and belongs to a location of
      the table, the card totals add up to the overall total. */
  lemma CardsAddUpToOverall(data: seq<Sample>, days: int, now: int)
    requires forall i :: 0 <= i < |data| ==> data[i].timestamp >= now - days * DayMs
    requires forall i :: 0 <= i < |data| ==> FindLocation(data[i].locationId).Some?
    ensures var o := OverviewOf(data, days, now);
      SumOver(o.cards, CardTotal) == o.overall.total
  {
    FilterAll(data, Within(days, now));
    CardsSum(data, Locations);
    KnownSamplesPartition(data);
  }

  lemma {:induction false} CardsSum(data: seq<Sample>, locs: seq<Location>)
    ensures SumOver(Map(locs, CardOf(data)), CardTotal) == SumCounts(data, LocationIdOf, Ids(locs))
  {
    if locs != [] {
      assert Map(locs, CardOf(data))[1..] == Map(locs[1..], CardOf(data));
      assert Ids(locs)[1..] == Ids(locs[1..]);
      CardsSum(data, locs[1..]);
    }
  }
}

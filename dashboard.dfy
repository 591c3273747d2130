/** Dashboard: the sample log that manual entries are prepended to, the
    sidebar's active-item test and the page title. */
module Dashboard {
  import opened Seqs
  import opened Text
  import opened Quality

  /** The `data` state: the sample log, newest entry first. */
  class SampleLog {
    var data: seq<Sample>

    constructor(seed: seq<Sample>)
      ensures data == seed
    {
      data := seed;
    }

    /** handleDataAdded: the new record goes in front of the log. */
    method AddData(x: Sample)
      modifies this
      ensures data == [x] + old(data)
    {
      data := [x] + data;
    }
  }

  /** Prepending grows the log by one and keeps every earlier entry in its
      order; the new record is the first alert when it is one. */
  lemma PrependKeepsLog(x: Sample, data: seq<Sample>)
    ensures |[x] + data| == |data| + 1
    ensures SubseqOf(data, [x] + data)
    ensures IsAlert(x) ==> Alerts([x] + data)[0] == x
  {
    SubseqOfCons(x, data);
    if IsAlert(x) {
      assert ([x] + data)[1..] == data;
      assert Filter([x] + data, IsAlert)[0] == x;
    }
  }

  /** A sidebar entry. */
  datatype NavItem = NavItem(name: string, path: string)

  const Navigation: seq<NavItem> := [
    NavItem("Overview", "/dashboard"),
    NavItem("Reports", "/dashboard/reports"),
    NavItem("Locations", "/dashboard/locations"),
    NavItem("History", "/dashboard/history"),
    NavItem("Alerts", "/dashboard/alerts")
  ]

  /** isActive: the overview entry only on its exact path, every other entry
      on any pathname that starts with its path. */
  predicate IsActive(path: string, pathname: string) {
    if path == "/dashboard" then pathname == "/dashboard" else StartsWith(pathname, path)
  }

  /** `navigation.find(nav => isActive(nav.path))`. */
  function FirstActive(items: seq<NavItem>, pathname: string): (r: Option<nat>)
    ensures r.None? <==> forall i :: 0 <= i < |items| ==> !IsActive(items[i].path, pathname)
    ensures r.Some? ==> (r.value < |items| && IsActive(items[r.value].path, pathname) &&
                         forall i :: 0 <= i < r.value ==> !IsActive(items[i].path, pathname))
  {
    if items == [] then None
    else if IsActive(items[0].path, pathname) then Some(0)
    else match FirstActive(items[1..], pathname)
      case None => None
      case Some(k) => Some(k + 1)
  }

  /** The title of the top bar: the first active entry's name, or "Dashboard". */
  function PageTitle(pathname: string): (t: string)
    ensures FirstActive(Navigation, pathname).None? ==> t == "Dashboard"
    ensures FirstActive(Navigation, pathname).Some? ==> t == Navigation[FirstActive(Navigation, pathname).value].name
  {
    match FirstActive(Navigation, pathname)
    case None => "Dashboard"
    case Some(k) => Navigation[k].name
  }

  /** The title is always one of the entry names or "Dashboard". */
  lemma TitleIsKnown(pathname: string)
    ensures PageTitle(pathname) == "Dashboard" || exists i :: 0 <= i < |Navigation| && Navigation[i].name == PageTitle(pathname)
  {
  }

  /** A nested path under a section is titled by that section; the overview's
      own path is titled "Overview", and a trailing slash matches no entry. */
  lemma TitleExamples()
    ensures PageTitle("/dashboard/reports/weekly") == "Reports"
    ensures PageTitle("/dashboard") == "Overview"
    ensures PageTitle("/dashboard/") == "Dashboard"
  {
    assert StartsWith("/dashboard/reports/weekly", "/dashboard/reports");
    assert !StartsWith("/dashboard/", "/dashboard/reports");
    assert !StartsWith("/dashboard/", "/dashboard/locations");
    assert !StartsWith("/dashboard/", "/dashboard/history");
    assert !StartsWith("/dashboard/", "/dashboard/alerts");
  }

  /** The prefix test has no segment boundary: "/dashboard/alertsx" counts as Alerts. */
  lemma PrefixWithoutBoundary()
    ensures IsActive("/dashboard/alerts", "/dashboard/alertsx")
  {
    assert "/dashboard/alertsx"[..|"/dashboard/alerts"|] == "/dashboard/alerts";
  }
}

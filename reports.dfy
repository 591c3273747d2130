/** DashboardReports: the report filter chain, the report statistics, the
    product list, the CSV export text and the 50-row table. */
module Reports {
  import opened Seqs
  import opened Text
  import opened Quality

  // ---------------------------------------------------------------------
  // Filter chain

  /** The free-text search: the lower-cased term occurs in the lower-cased
      location name, product, sample id or analyst. */
  predicate MatchesSearch(x: Sample, term: string) {
    var t := Lower(term);
    Includes(Lower(x.location), t) || Includes(Lower(x.product), t) ||
    Includes(Lower(x.sampleId), t) || Includes(Lower(x.analyst), t)
  }

  /** The four filters of `filteredData`, each skipped when its control is
      "all" or empty: location, product, the `dateRange`-day cutoff before
      `now`, and the search. */
  predicate InReport(x: Sample, location: string, product: string, rangeDays: int, now: int, term: string) {
    (location == "all" || x.locationId == location) &&
    (product == "all" || x.product == product) &&
    x.timestamp >= now - rangeDays * DayMs &&
    (term == "" || MatchesSearch(x, term))
  }

  function ReportFilter(location: string, product: string, rangeDays: int, now: int, term: string): Sample -> bool {
    (x: Sample) => InReport(x, location, product, rangeDays, now, term)
  }

  /** `filteredData`: the samples passing every filter, newest first. */
  function FilteredData(data: seq<Sample>, location: string, product: string, rangeDays: int, now: int, term: string): (r: seq<Sample>)
    ensures NewestFirst(r)
    ensures multiset(r) == multiset(Filter(data, ReportFilter(location, product, rangeDays, now, term)))
    ensures forall i :: 0 <= i < |r| ==> r[i] in data && InReport(r[i], location, product, rangeDays, now, term)
    ensures forall i :: 0 <= i < |data| ==>
      (InReport(data[i], location, product, rangeDays, now, term) ==> data[i] in r)
  {
    SortedFilterMembers(data, ReportFilter(location, product, rangeDays, now, term));
    SortNewestFirst(Filter(data, ReportFilter(location, product, rangeDays, now, term)))
  }

  /** An empty search term filters nothing out: with no location, product or
      search restriction the report holds every sample inside the date range. */
  lemma EmptySearchKeepsAll(data: seq<Sample>, rangeDays: int, now: int)
    requires forall i :: 0 <= i < |data| ==> data[i].timestamp >= now - rangeDays * DayMs
    ensures multiset(FilteredData(data, "all", "all", rangeDays, now, "")) == multiset(data)
  {
    FilterAll(data, ReportFilter("all", "all", rangeDays, now, ""));
  }

  /** The search is case-insensitive: changing the case of the term never changes the report. */
  lemma SearchIgnoresCase(x: Sample, term: string)
    ensures MatchesSearch(x, Lower(term)) == MatchesSearch(x, term)
  {
    LowerIdempotent(term);
  }

  /** The seeded collection is newest first, so the sort keeps the filter's
      order and the report is an order-preserving subsequence of the collection. */
  lemma ReportIsSubsequence(data: seq<Sample>, location: string, product: string, rangeDays: int, now: int, term: string)
    requires NewestFirst(data)
    ensures SubseqOf(FilteredData(data, location, product, rangeDays, now, term), data)
  {
    var p := ReportFilter(location, product, rangeDays, now, term);
    FilterKeepsNewestFirst(data, p);
    SortNewestFirstKeepsSorted(Filter(data, p));
    FilterIsSubseq(data, p);
  }

  lemma {:induction false} FilterKeepsNewestFirst(s: seq<Sample>, p: Sample -> bool)
    requires NewestFirst(s)
    ensures NewestFirst(Filter(s, p))
  {
    if s != [] {
      FilterKeepsNewestFirst(s[1..], p);
      var rest := Filter(s[1..], p);
      FilterMembers(s[1..], p);
      if p(s[0]) {
        var r := [s[0]] + rest;
        forall i, j | 0 <= i < j < |r|
          ensures r[i].timestamp >= r[j].timestamp
        {
          if i == 0 {
            assert r[j] == rest[j - 1];
            var k :| 0 <= k < |s[1..]| && s[1..][k] == rest[j - 1];
            assert s[k + 1] == r[j];
          } else {
            assert r[i] == rest[i - 1] && r[j] == rest[j - 1];
          }
        }
      }
    }
  }

  // ---------------------------------------------------------------------
  // Statistics

  datatype ReportStats = ReportStats(total: nat, passed: nat, warnings: nat, failed: nat, passRate: nat,
                                     locationStats: seq<LocationShare>)

  /** `reportStats`: the counts and pass rate of the report, and the
      locations of the table that have samples in it. */
  function ReportStatsOf(filtered: seq<Sample>): (r: ReportStats)
    ensures r.total == |filtered|
    ensures r.passed == CountStatus(filtered, PASS) && r.warnings == CountStatus(filtered, WARNING)
    ensures r.failed == CountStatus(filtered, FAIL) && r.passRate == PassRate(filtered)
    ensures r.passed + r.warnings + r.failed == r.total
    ensures r.passRate <= 100 && (filtered == [] ==> r.passRate == 0)
    ensures forall i :: 0 <= i < |r.locationStats| ==> r.locationStats[i].total > 0
    ensures r.locationStats == ActiveShares(filtered)
  {
    var st := StatsOf(filtered);
    ReportStats(st.total, st.passed, st.warnings, st.failed, st.passRate, ActiveShares(filtered))
  }

  /** The products filter's options: every product of the collection, once each, in first-seen order. */
  function UniqueProducts(data: seq<Sample>): (r: seq<string>)
    ensures Distinct(r)
    ensures forall i :: 0 <= i < |r| ==> exists k :: 0 <= k < |data| && data[k].product == r[i]
    ensures forall k :: 0 <= k < |data| ==> data[k].product in r
  {
    var products := Map(data, (x: Sample) => x.product);
    var r := Dedup(products);
    forall i | 0 <= i < |r|
      ensures exists k :: 0 <= k < |data| && data[k].product == r[i]
    {
      var k :| 0 <= k < |products| && products[k] == r[i];
      assert data[k].product == r[i];
    }
    forall k | 0 <= k < |data|
      ensures data[k].product in r
    {
      assert products[k] == data[k].product;
    }
    r
  }

  /** The table shows the first 50 rows of the report. */
  function ShownRows(filtered: seq<Sample>): (r: seq<Sample>)
    ensures |r| == if |filtered| <= 50 then |filtered| else 50
    ensures r <= filtered
  {
    Take(filtered, 50)
  }

  // ---------------------------------------------------------------------
  // CSV export

  const HeaderFields: seq<string> :=
    ["Sample ID", "Location", "Product", "Parameter", "Value", "Unit", "Target Min", "Status", "Date", "Analyst"]

  const Header: string := Join(HeaderFields, ',')

  function StatusText(st: Status): string {
    match st
    case PASS => "PASS"
    case WARNING => "WARNING"
    case FAIL => "FAIL"
  }

  /** The ten fields of one CSV row, in header order; `num` is JavaScript's
      number-to-string conversion, which is not part of this model. */
  function RowFields(x: Sample, num: real -> string): (r: seq<string>)
    ensures |r| == |HeaderFields| == 10
  {
    [x.sampleId, x.location, x.product, x.parameter, num(x.value), x.unit, num(x.targetMin),
     StatusText(x.status), x.date, x.analyst]
  }

  /** One CSV row: the fields joined by commas, without quoting. */
  function Row(x: Sample, num: real -> string): string {
    Join(RowFields(x, num), ',')
  }

  function RowOf(num: real -> string): Sample -> string {
    (x: Sample) => Row(x, num)
  }

  /** The exported text: the header line, then one row per report sample, joined by newlines. */
  function Csv(filtered: seq<Sample>, num: real -> string): string {
    Join([Header] + Map(filtered, RowOf(num)), '\n')
  }

  ghost predicate NoNewlines(x: Sample, num: real -> string) {
    NoneContains(RowFields(x, num), '\n')
  }

  /** When no field holds a newline, the export splits back into the header
      and the rows, in report order: 1 + n lines. */
  lemma CsvLines(filtered: seq<Sample>, num: real -> string)
    requires forall i :: 0 <= i < |filtered| ==> NoNewlines(filtered[i], num)
    ensures Split(Csv(filtered, num), '\n') == [Header] + Map(filtered, RowOf(num))
    ensures |Split(Csv(filtered, num), '\n')| == 1 + |filtered|
  {
    var rows := Map(filtered, RowOf(num));
    var lines := [Header] + rows;
    HeaderIsOneLine();
    forall i | 0 <= i < |rows|
      ensures '\n' !in rows[i]
    {
      RowIsOneLine(filtered[i], num);
    }
    assert NoneContains(lines, '\n') by {
      forall i | 0 <= i < |lines|
        ensures '\n' !in lines[i]
      {
        if i > 0 {
          assert lines[i] == rows[i - 1];
        }
      }
    }
    SplitJoin(lines, '\n');
  }

  lemma HeaderIsOneLine()
    ensures '\n' !in Header
  {
    assert NoneContains(HeaderFields, '\n');
    JoinAvoids(HeaderFields, ',', '\n');
  }

  lemma RowIsOneLine(x: Sample, num: real -> string)
    requires NoNewlines(x, num)
    ensures '\n' !in RowOf(num)(x)
  {
    JoinAvoids(RowFields(x, num), ',', '\n');
  }

  /** When no field holds a comma, a row splits back into its ten fields. */
  lemma RowColumns(x: Sample, num: real -> string)
    requires NoneContains(RowFields(x, num), ',')
    ensures Split(Row(x, num), ',') == RowFields(x, num)
  {
    SplitJoin(RowFields(x, num), ',');
  }

  /** Without quoting, every comma inside a field adds a column: a row has
      ten columns plus the commas its fields contain. */
  lemma RowColumnCount(x: Sample, num: real -> string)
    ensures |Split(Row(x, num), ',')| == 10 + OccurrencesIn(RowFields(x, num), ',')
  {
    SplitLength(Row(x, num), ',');
    JoinOccurrences(RowFields(x, num), ',');
  }

  /** The header has exactly ten columns. */
  lemma HeaderColumns()
    ensures Split(Header, ',') == HeaderFields
  {
    assert NoneContains(HeaderFields, ',');
    SplitJoin(HeaderFields, ',');
  }
}

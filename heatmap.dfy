/** HeatmapChart: a location-by-date grid of pass rates over the last 14
    distinct sample dates, its colour scale and its summary counts. */
module Heatmap {
  import opened Seqs
  import opened Text
  import opened Rates
  import opened Quality

  /** The samples of one (location name, date) pair; grouping is by the
      denormalised location name, not by the location id. */
  function CellSamples(data: seq<Sample>, location: string, date: string): seq<Sample> {
    Filter(data, InCell(location, date))
  }

  function InCell(location: string, date: string): Sample -> bool {
    (x: Sample) => x.location == location && x.date == date
  }

  /** groupedData: location name -> date -> samples. */
  type Grouped = map<string, map<string, seq<Sample>>>

  /** `groupedData[location]?.[date] || []`. */
  function Lookup(g: Grouped, location: string, date: string): seq<Sample> {
    if location in g && date in g[location] then g[location][date] else []
  }

  /** The forEach that fills groupedData: creates the nested entries on
      first sight and pushes every sample onto its (location, date) list. */
  method GroupByLocationDate(data: seq<Sample>) returns (g: Grouped)
    ensures forall location, date :: Lookup(g, location, date) == CellSamples(data, location, date)
    ensures forall location, date :: location in g && date in g[location] ==> g[location][date] != []
  {
    g := map[];
    var i := 0;
    while i < |data|
      invariant 0 <= i <= |data|
      invariant forall location, date :: Lookup(g, location, date) == CellSamples(data[..i], location, date)
      invariant forall location, date :: location in g && date in g[location] ==> g[location][date] != []
    {
      var item := data[i];
      var date := item.date;
      var location := item.location;
      var row := if location in g then g[location] else map[];
      var cell := if date in row then row[date] else [];
      assert data[..i + 1] == data[..i] + [item];
      PushPreservesGrouping(g, data[..i], item);
      g := g[location := row[date := cell + [item]]];
      i := i + 1;
    }
    assert data[..|data|] == data;
  }

  /** Pushing a sample onto its (location, date) list keeps groupedData in
      step with the samples seen so far. */
  lemma PushPreservesGrouping(g: Grouped, seen: seq<Sample>, item: Sample)
    requires forall location, date :: Lookup(g, location, date) == CellSamples(seen, location, date)
    requires forall location, date :: location in g && date in g[location] ==> g[location][date] != []
    ensures var row := if item.location in g then g[item.location] else map[];
      var cell := if item.date in row then row[item.date] else [];
      var g' := g[item.location := row[item.date := cell + [item]]];
      (forall location, date :: Lookup(g', location, date) == CellSamples(seen + [item], location, date)) &&
      (forall location, date :: location in g' && date in g'[location] ==> g'[location][date] != [])
  {
    var row := if item.location in g then g[item.location] else map[];
    var cell := if item.date in row then row[item.date] else [];
    var g' := g[item.location := row[item.date := cell + [item]]];
    forall location, date
      ensures Lookup(g', location, date) == CellSamples(seen + [item], location, date)
    {
      FilterSnoc(seen, item, InCell(location, date));
      assert CellSamples(seen, location, date) == Lookup(g, location, date);
      if location == item.location && date == item.date {
        assert InCell(location, date)(item);
        assert Lookup(g', location, date) == cell + [item];
        assert cell == Lookup(g, location, date);
      } else {
        assert !InCell(location, date)(item);
        if location == item.location {
          assert Lookup(g', location, date) == Lookup(g, location, date);
        } else {
          assert location in g' <==> location in g;
          assert location in g ==> g'[location] == g[location];
        }
      }
    }
  }

  // ---------------------------------------------------------------------
  // Columns

  function Dates(data: seq<Sample>): seq<string> {
    Map(data, (x: Sample) => x.date)
  }

  /** `[...new Set(dates)].sort().slice(-14)`: the 14 latest distinct dates, ascending. */
  function DateColumns(data: seq<Sample>): (r: seq<string>)
    ensures |r| == if |Dedup(Dates(data))| <= 14 then |Dedup(Dates(data))| else 14
    ensures StrictlyAscending(r)
    ensures forall i :: 0 <= i < |r| ==> r[i] in Dates(data)
    ensures forall k :: 0 <= k < |data| && data[k].date !in r ==> |r| > 0 && StrLt(data[k].date, r[0])
    ensures |Dedup(Dates(data))| <= 14 ==> forall k :: 0 <= k < |data| ==> data[k].date in r
  {
    var distinct := Dedup(Dates(data));
    SortStringsAscending(distinct);
    WindowProperties(Dates(data), distinct, SortStrings(distinct));
    forall k | 0 <= k < |data|
      ensures data[k].date in Dates(data)
    {
      assert Dates(data)[k] == data[k].date;
    }
    assert |SortStrings(distinct)| == |distinct|;
    TakeLast(SortStrings(distinct), 14)
  }

  /** The last 14 of a sorted list of every date lie in the data, and every
      date left out is older than the first one kept. */
  lemma WindowProperties(all: seq<string>, distinct: seq<string>, sorted: seq<string>)
    requires forall i :: 0 <= i < |distinct| ==> distinct[i] in all
    requires forall i :: 0 <= i < |all| ==> all[i] in distinct
    requires multiset(sorted) == multiset(distinct)
    requires StrictlyAscending(sorted)
    ensures var r := TakeLast(sorted, 14);
      StrictlyAscending(r) &&
      (forall i :: 0 <= i < |r| ==> r[i] in all) &&
      (forall d :: d in all && d !in r ==> |r| > 0 && StrLt(d, r[0])) &&
      (|sorted| <= 14 ==> forall d :: d in all ==> d in r)
  {
    var r := TakeLast(sorted, 14);
    WindowAscending(sorted);
    forall i | 0 <= i < |r|
      ensures r[i] in all
    {
      assert r[i] in sorted;
      assert r[i] in multiset(distinct);
    }
    forall d | d in all && d !in r
      ensures |r| > 0 && StrLt(d, r[0])
    {
      assert d in multiset(sorted);
      WindowOmitsOlder(sorted, d);
    }
    if |sorted| <= 14 {
      forall d | d in all
        ensures d in r
      {
        assert d in multiset(sorted);
      }
    }
  }

  lemma WindowAscending(sorted: seq<string>)
    requires StrictlyAscending(sorted)
    ensures StrictlyAscending(TakeLast(sorted, 14))
  {
    var r := TakeLast(sorted, 14);
    var off := |sorted| - |r|;
    forall i, j | 0 <= i < j < |r|
      ensures StrLt(r[i], r[j])
    {
      assert r[i] == sorted[off + i] && r[j] == sorted[off + j];
    }
  }

  lemma WindowOmitsOlder(sorted: seq<string>, d: string)
    requires StrictlyAscending(sorted)
    requires d in sorted && d !in TakeLast(sorted, 14)
    ensures var r := TakeLast(sorted, 14); |r| > 0 && StrLt(d, r[0])
  {
    var r := TakeLast(sorted, 14);
    var off := |sorted| - |r|;
    var m :| 0 <= m < |sorted| && sorted[m] == d;
    assert r[0] == sorted[off];
  }

  // ---------------------------------------------------------------------
  // Cells and matrix

  datatype Cell = Cell(location: string, date: string, passRate: nat, sampleCount: nat, tier: Tier)

  /** One heatmap cell from the samples of its (location, date) pair. */
  function CellOf(samples: seq<Sample>, location: string, date: string): (c: Cell)
    ensures c.location == location && c.date == date
    ensures c.sampleCount == |samples|
    ensures samples == [] ==> c.passRate == 0 && c.tier == Critical
    ensures c.passRate <= 100
    ensures c.passRate == PassRate(samples)
    ensures c.tier == TierOf(c.passRate)
  {
    var passRate := PassRate(samples);
    Cell(location, date, passRate, |samples|, TierOf(passRate))
  }

  /** The matrix: one row per location name, one cell per date column. */
  function BuildMatrix(g: Grouped, names: seq<string>, dates: seq<string>): (m: seq<seq<Cell>>)
    ensures |m| == |names|
    ensures forall i :: 0 <= i < |m| ==> |m[i]| == |dates|
    ensures forall i, j :: 0 <= i < |m| && 0 <= j < |dates| ==>
      m[i][j] == CellOf(Lookup(g, names[i], dates[j]), names[i], dates[j])
  {
    Map(names, (name: string) =>
      Map(dates, (date: string) => CellOf(Lookup(g, name, date), name, date)))
  }

  function LocationNames(): (r: seq<string>)
    ensures |r| == |Locations|
    ensures forall i :: 0 <= i < |r| ==> r[i] == Locations[i].name
  {
    Map(Locations, (l: Location) => l.name)
  }

  /** The heatmapData memo: rows follow PROCESSING_LOCATIONS, columns the
      date window, and each cell summarises exactly the samples of its
      location name and date. */
  method BuildHeatmap(data: seq<Sample>) returns (matrix: seq<seq<Cell>>, dates: seq<string>, names: seq<string>)
    ensures names == LocationNames() && dates == DateColumns(data)
    ensures |matrix| == |Locations|
    ensures forall i :: 0 <= i < |matrix| ==> |matrix[i]| == |dates|
    ensures forall i, j :: 0 <= i < |matrix| && 0 <= j < |dates| ==>
      var samples := CellSamples(data, Locations[i].name, dates[j]);
      matrix[i][j] == CellOf(samples, Locations[i].name, dates[j]) &&
      matrix[i][j].sampleCount == |samples|
  {
    var g := GroupByLocationDate(data);
    dates := DateColumns(data);
    names := LocationNames();
    matrix := BuildMatrix(g, names, dates);
    forall i, j | 0 <= i < |matrix| && 0 <= j < |dates|
      ensures matrix[i][j] == CellOf(CellSamples(data, Locations[i].name, dates[j]), Locations[i].name, dates[j])
    {
      assert names[i] == Locations[i].name;
      assert Lookup(g, names[i], dates[j]) == CellSamples(data, names[i], dates[j]);
    }
  }

  // ---------------------------------------------------------------------
  // Colour scale

  datatype Colour = Green500 | Green400 | Yellow500 | Orange500 | Red500 | Slate600

  /** getColorClass: 90 / 80 / 60 / 40 / above 0, and the no-data slate for 0. */
  function ColorClass(passRate: int): (c: Colour)
    ensures c == Green500 <==> passRate >= 90
    ensures c == Green400 <==> 80 <= passRate < 90
    ensures c == Yellow500 <==> 60 <= passRate < 80
    ensures c == Orange500 <==> 40 <= passRate < 60
    ensures c == Red500 <==> 0 < passRate < 40
    ensures c == Slate600 <==> passRate <= 0
  {
    if passRate >= 90 then Green500
    else if passRate >= 80 then Green400
    else if passRate >= 60 then Yellow500
    else if passRate >= 40 then Orange500
    else if passRate > 0 then Red500
    else Slate600
  }

  /** getIntensity: the opacity percentage that goes with a pass rate. */
  function Intensity(passRate: int): (o: nat)
    ensures 30 <= o <= 100
    ensures o == 30 <==> passRate <= 0
    ensures o == 100 <==> passRate >= 90
    ensures o == 90 <==> 80 <= passRate < 90
    ensures o == 80 <==> 60 <= passRate < 80
    ensures o == 70 <==> 40 <= passRate < 60
    ensures o == 60 <==> 0 < passRate < 40
  {
    if passRate >= 90 then 100
    else if passRate >= 80 then 90
    else if passRate >= 60 then 80
    else if passRate >= 40 then 70
    else if passRate > 0 then 60
    else 30
  }

  /** The colour a cell is drawn in: the slate no-data override for an empty
      cell, otherwise the colour of its pass rate. */
  function DisplayedColour(c: Cell): Colour {
    if c.sampleCount == 0 then Slate600 else ColorClass(c.passRate)
  }

  /** The opacity a cell is drawn with: 30 for an empty cell, otherwise the
      intensity of its pass rate. */
  function DisplayedOpacity(c: Cell): nat {
    if c.sampleCount == 0 then 30 else Intensity(c.passRate)
  }

  /** As written, a cell whose samples all failed gets the no-data colour at
      the no-data opacity (the legend's No Data swatch); only its "0%" label
      tells it apart from an empty cell. */
  lemma ZeroPassCellLooksEmpty(x: Sample)
    requires x.status == FAIL
    ensures var full := CellOf([x], x.location, x.date);
      var empty := CellOf([], x.location, x.date);
      full.sampleCount == 1 && empty.sampleCount == 0 &&
      DisplayedColour(full) == DisplayedColour(empty) == Slate600 &&
      DisplayedOpacity(full) == DisplayedOpacity(empty) == 30
  {
    var full := CellOf([x], x.location, x.date);
    assert CountStatus([x], PASS) == 0;
    assert full.passRate == 0 by {
      PercentExtremes(1);
    }
  }

  /** The colour the legend promises: red below 40% for any cell with samples,
      slate only for an empty cell. */
  function CellColour(c: Cell): (r: Colour)
    ensures r == Slate600 <==> c.sampleCount == 0
    ensures c.sampleCount > 0 ==> (r == Red500 <==> c.passRate < 40)
    ensures c.sampleCount > 0 && c.passRate > 0 ==> r == ColorClass(c.passRate)
  {
    if c.sampleCount == 0 then Slate600
    else if c.passRate > 0 then ColorClass(c.passRate)
    else Red500
  }

  // ---------------------------------------------------------------------
  // Summary counts

  function Flatten(m: seq<seq<Cell>>): (r: seq<Cell>)
    ensures m == [] ==> r == []
  {
    if m == [] then [] else m[0] + Flatten(m[1..])
  }

  datatype Summary = Summary(excellent: nat, warning: nat, critical: nat, noData: nat)

  /** The four summary tiles as written: >= 90, 60..89, 1..59, and sampleCount = 0. */
  function SummaryOf(m: seq<seq<Cell>>): Summary {
    var cells := Flatten(m);
    Summary(
      Count(cells, (c: Cell) => c.passRate >= 90),
      Count(cells, (c: Cell) => c.passRate >= 60 && c.passRate < 90),
      Count(cells, (c: Cell) => c.passRate > 0 && c.passRate < 60),
      Count(cells, (c: Cell) => c.sampleCount == 0))
  }

  function Total(s: Summary): nat {
    s.excellent + s.warning + s.critical + s.noData
  }

  /** A cell as CellOf builds it: an empty cell has rate 0, every rate is at most 100. */
  ghost predicate WellFormedCell(c: Cell) {
    (c.sampleCount == 0 ==> c.passRate == 0) && c.passRate <= 100
  }

  function ZeroWithSamples(c: Cell): bool {
    c.sampleCount > 0 && c.passRate == 0
  }

  /** As written, the tiles miss exactly the cells that have samples and a 0% pass rate. */
  lemma {:induction false} SummaryMissesZeroCells(m: seq<seq<Cell>>)
    requires forall c :: c in Flatten(m) ==> WellFormedCell(c)
    ensures Total(SummaryOf(m)) + Count(Flatten(m), ZeroWithSamples) == |Flatten(m)|
  {
    SummaryMissesZeroCellsList(Flatten(m));
  }

  lemma {:induction false} SummaryMissesZeroCellsList(cells: seq<Cell>)
    requires forall c :: c in cells ==> WellFormedCell(c)
    ensures
      Count(cells, (c: Cell) => c.passRate >= 90) +
      Count(cells, (c: Cell) => c.passRate >= 60 && c.passRate < 90) +
      Count(cells, (c: Cell) => c.passRate > 0 && c.passRate < 60) +
      Count(cells, (c: Cell) => c.sampleCount == 0) +
      Count(cells, ZeroWithSamples) == |cells|
  {
    if cells != [] {
      assert WellFormedCell(cells[0]);
      SummaryMissesZeroCellsList(cells[1..]);
    }
  }

  /** A one-sample heatmap whose sample failed: one cell, counted in no tile. */
  lemma SummaryCounterexample(x: Sample)
    requires x.status == FAIL
    ensures var m := [[CellOf([x], x.location, x.date)]];
      |Flatten(m)| == 1 && Total(SummaryOf(m)) == 0
  {
    var c := CellOf([x], x.location, x.date);
    assert CountStatus([x], PASS) == 0;
    PercentExtremes(1);
    var m := [[c]];
    assert Flatten(m) == [c] by {
      assert m[1..] == [];
    }
    var cells := [c];
    assert cells[1..] == [];
  }

  /** The summary as the legend intends it: critical is any cell with samples below 60%. */
  function CorrectedSummaryOf(m: seq<seq<Cell>>): Summary {
    var cells := Flatten(m);
    Summary(
      Count(cells, (c: Cell) => c.passRate >= 90),
      Count(cells, (c: Cell) => c.passRate >= 60 && c.passRate < 90),
      Count(cells, (c: Cell) => c.sampleCount > 0 && c.passRate < 60),
      Count(cells, (c: Cell) => c.sampleCount == 0))
  }

  /** The corrected tiles partition the cells: every cell is counted exactly once. */
  lemma CorrectedSummaryPartitions(m: seq<seq<Cell>>)
    requires forall c :: c in Flatten(m) ==> WellFormedCell(c)
    ensures Total(CorrectedSummaryOf(m)) == |Flatten(m)|
  {
    CorrectedPartitionList(Flatten(m));
  }

  lemma {:induction false} CorrectedPartitionList(cells: seq<Cell>)
    requires forall c :: c in cells ==> WellFormedCell(c)
    ensures
      Count(cells, (c: Cell) => c.passRate >= 90) +
      Count(cells, (c: Cell) => c.passRate >= 60 && c.passRate < 90) +
      Count(cells, (c: Cell) => c.sampleCount > 0 && c.passRate < 60) +
      Count(cells, (c: Cell) => c.sampleCount == 0) == |cells|
  {
    if cells != [] {
      assert WellFormedCell(cells[0]);
      CorrectedPartitionList(cells[1..]);
    }
  }

  /** Cells built by BuildHeatmap are well formed, so both lemmas above apply to its matrix. */
  lemma {:induction false} BuiltCellsWellFormed(m: seq<seq<Cell>>, data: seq<Sample>, dates: seq<string>)
    requires |m| == |Locations|
    requires forall i :: 0 <= i < |m| ==> |m[i]| == |dates|
    requires forall i, j :: 0 <= i < |m| && 0 <= j < |dates| ==>
      m[i][j] == CellOf(CellSamples(data, Locations[i].name, dates[j]), Locations[i].name, dates[j])
    ensures forall c :: c in Flatten(m) ==> WellFormedCell(c)
  {
    forall c | c in Flatten(m)
      ensures WellFormedCell(c)
    {
      var i, j := FlattenIndex(m, c);
      assert j < |dates|;
      var samples := CellSamples(data, Locations[i].name, dates[j]);
      assert c == CellOf(samples, Locations[i].name, dates[j]);
    }
  }

  lemma {:induction false} FlattenIndex(m: seq<seq<Cell>>, c: Cell) returns (i: nat, j: nat)
    requires c in Flatten(m)
    ensures i < |m| && j < |m[i]| && m[i][j] == c
  {
    if c in m[0] {
      i := 0;
      j :| 0 <= j < |m[0]| && m[0][j] == c;
    } else {
      var i', j' := FlattenIndex(m[1..], c);
      i, j := i' + 1, j';
    }
  }
}

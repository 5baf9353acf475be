/**
 The two Dash callbacks of the automobile sales dashboard: the year selector's
 enabled state (`toggle_year_dropdown`) and the report (`update_graphs`), which
 is either the placeholder message or four aggregated views. A view is data:
 title, chart kind, the grouping columns, the aggregations and the table rows.
 */
module Dashboard {
  import opened KeyOrder
  import opened Records
  import opened GroupBy
  import opened Decimal

  /** A dropdown value; `None` when nothing is selected. */
  datatype Option<T> = None | Some(value: T)

  const YearlyStatistics: string := "Yearly Statistics"
  const RecessionStatistics: string := "Recession Period Statistics"
  const Placeholder: string := "Please select a report type and year (if applicable)."

  const RecessionTitle1: string := "Average Automobile Sales During Recession Periods"
  const RecessionTitle2: string := "Average Sales by Vehicle Type During Recession Periods"
  const RecessionTitle3: string := "Advertising Expenditure Share by Vehicle Type During Recessions"
  const RecessionTitle4: string := "Unemployment Rate vs Automobile Sales by Vehicle Type"
  const YearlyTitle1: string := "Average Yearly Automobile Sales (All Years)"
  const YearlyTitle2: string := "Average Monthly Automobile Sales (All Years)"
  /** Followed by the selected year. */
  const YearlyTitle3Prefix: string := "Average Sales by Vehicle Type in "
  /** Followed by the selected year. */
  const YearlyTitle4Prefix: string := "Advertising Expenditure Share by Vehicle Type in "

  /** The chart shape a view is drawn as: `px.line`, `px.bar`, `px.pie`, `px.scatter`. */
  datatype ChartKind = Line | Bar | Pie | Scatter

  /** One chart: its title and kind, and the aggregated table it plots. */
  datatype View = View(title: string, kind: ChartKind, keyColumns: seq<Column>, aggregates: seq<Agg>, rows: seq<Row>)

  /** What `update_graphs` puts in the output container. */
  datatype Output = Message(text: string) | Report(views: seq<View>)

  /** `toggle_year_dropdown`: whether the year selector is disabled. */
  function ToggleYearDropdown(selected: Option<string>): bool
  {
    selected != Some(YearlyStatistics)
  }

  /** Python truthiness of the year dropdown value: unset and `0` are false. */
  predicate YearGiven(year: Option<int>)
  {
    year.Some? && year.value != 0
  }

  /** `data['Recession'] == 1`. */
  predicate InRecession(r: Record)
  {
    r.recession == 1
  }

  /** `data['Year'] == year`. */
  function InYear(year: int): Record -> bool
  {
    (r: Record) => r.year == year
  }

  function RecessionRows(data: seq<Record>): seq<Record>
  {
    Filter(data, InRecession)
  }

  function YearRows(data: seq<Record>, year: int): seq<Record>
  {
    Filter(data, InYear(year))
  }

  /** A view of `rows.groupby(cols).agg(aggs).reset_index()`. */
  function Tabulated(title: string, kind: ChartKind, rows: seq<Record>, cols: seq<Column>, aggs: seq<Agg>): (v: View)
    ensures v.title == title && v.kind == kind && v.keyColumns == cols && v.aggregates == aggs
  {
    View(title, kind, cols, aggs, GroupAggregate(rows, cols, aggs))
  }

  /** The four recession-period views, all computed from the recession rows. */
  function RecessionViews(data: seq<Record>): (vs: seq<View>)
    ensures |vs| == 4
    ensures vs[0].kind == Line && vs[1].kind == Bar && vs[2].kind == Pie && vs[3].kind == Scatter
  {
    var rec := RecessionRows(data);
    [
      Tabulated(RecessionTitle1, Line, rec, [Year], [Mean(AutomobileSales)]),
      Tabulated(RecessionTitle2, Bar, rec, [Year, VehicleType], [Mean(AutomobileSales)]),
      Tabulated(RecessionTitle3, Pie, rec, [VehicleType], [Sum(AdvertisingExpenditure)]),
      Tabulated(RecessionTitle4, Scatter, rec, [VehicleType], [Mean(AutomobileSales), Mean(UnemploymentRate)])
    ]
  }

  /** The four yearly views: two over the whole table, two over the selected year. */
  function YearlyViews(data: seq<Record>, year: int): (vs: seq<View>)
    ensures |vs| == 4
    ensures vs[0].kind == Line && vs[1].kind == Line && vs[2].kind == Bar && vs[3].kind == Pie
  {
    var inYear := YearRows(data, year);
    [
      Tabulated(YearlyTitle1, Line, data, [Year], [Mean(AutomobileSales)]),
      Tabulated(YearlyTitle2, Line, data, [Month], [Mean(AutomobileSales)]),
      Tabulated(YearlyTitle3Prefix + IntText(year), Bar, inYear, [Month, VehicleType], [Mean(AutomobileSales)]),
      Tabulated(YearlyTitle4Prefix + IntText(year), Pie, inYear, [VehicleType], [Sum(AdvertisingExpenditure)])
    ]
  }

  /** `update_graphs(statistics, year)`. */
  function UpdateGraphs(data: seq<Record>, statistics: Option<string>, year: Option<int>): (out: Output)
    // a report exactly for recession statistics, or yearly statistics with a year
    ensures out.Report? <==>
      statistics == Some(RecessionStatistics) || (statistics == Some(YearlyStatistics) && YearGiven(year))
    ensures out.Message? ==> out.text == Placeholder
    ensures out.Report? ==> |out.views| == 4
  {
    if statistics == Some(RecessionStatistics) then
      Report(RecessionViews(data))
    else if statistics == Some(YearlyStatistics) && YearGiven(year) then
      Report(YearlyViews(data, year.value))
    else
      Message(Placeholder)
  }

  // ---- the year selector ----

  /** The year selector is disabled exactly when the report does not depend on
      the year: disabled statistics (including no selection) ignore every year,
      and for "Yearly Statistics" some two years give different reports. */
  lemma YearSelectorDisabledIffYearIgnored(data: seq<Record>, selected: Option<string>)
    ensures ToggleYearDropdown(selected) <==>
      forall y1, y2 :: UpdateGraphs(data, selected, y1) == UpdateGraphs(data, selected, y2)
  {
    if !ToggleYearDropdown(selected) {
      var a := UpdateGraphs(data, selected, Some(1980));
      var b := UpdateGraphs(data, selected, Some(1981));
      IntTextInjective(1980, 1981);
      var p := YearlyTitle3Prefix;
      assert (p + IntText(1980))[|p|..] == IntText(1980);
      assert (p + IntText(1981))[|p|..] == IntText(1981);
      assert a.views[2].title != b.views[2].title;
    }
  }

  /** With nothing selected the selector is disabled and only the message shows. */
  lemma NothingSelected(data: seq<Record>, year: Option<int>)
    ensures ToggleYearDropdown(None)
    ensures UpdateGraphs(data, None, year) == Message(Placeholder)
  {
  }

  // ---- recession branch ----

  /** The recession report never reads the year, stale or not. */
  lemma RecessionIgnoresYear(data: seq<Record>, y1: Option<int>, y2: Option<int>)
    ensures UpdateGraphs(data, Some(RecessionStatistics), y1) == UpdateGraphs(data, Some(RecessionStatistics), y2)
    ensures UpdateGraphs(data, Some(RecessionStatistics), y1) == Report(RecessionViews(data))
  {
  }

  /** Two tables with the same recession rows give the same recession report. */
  lemma RecessionReportDependsOnlyOnRecessionRows(d1: seq<Record>, d2: seq<Record>, year: Option<int>)
    requires RecessionRows(d1) == RecessionRows(d2)
    ensures UpdateGraphs(d1, Some(RecessionStatistics), year) == UpdateGraphs(d2, Some(RecessionStatistics), year)
  {
  }

  /** Removing every non-recession row leaves the recession report unchanged. */
  lemma RemovingNonRecessionRowsKeepsReport(data: seq<Record>, year: Option<int>)
    ensures UpdateGraphs(RecessionRows(data), Some(RecessionStatistics), year)
         == UpdateGraphs(data, Some(RecessionStatistics), year)
  {
    FilterIdempotent(data, InRecession);
  }

  /** Appending non-recession rows leaves the recession report unchanged. */
  lemma AddingNonRecessionRowsKeepsReport(data: seq<Record>, extra: seq<Record>, year: Option<int>)
    requires forall r :: r in extra ==> !InRecession(r)
    ensures UpdateGraphs(data + extra, Some(RecessionStatistics), year)
         == UpdateGraphs(data, Some(RecessionStatistics), year)
  {
    assert RecessionRows(data + extra) == RecessionRows(data) by {
      FilterAppend(data, extra, InRecession);
      FilterRejectsAll(extra, InRecession);
      assert Filter(data, InRecession) + [] == Filter(data, InRecession);
    }
    RecessionReportDependsOnlyOnRecessionRows(data + extra, data, year);
  }

  /** Each recession view tabulates the recession rows, grouped by its key columns. */
  lemma RecessionViewIsTableOfRecessionRows(data: seq<Record>, v: nat)
    requires v < 4
    ensures var view := RecessionViews(data)[v];
      view.rows == GroupAggregate(RecessionRows(data), view.keyColumns, view.aggregates)
  {
    if v == 0 {} else if v == 1 {} else if v == 2 {} else {}
  }

  /** Every value of every recession view aggregates a non-empty group of
      recession rows of the table. */
  lemma RecessionValuesComeFromRecessionRows(data: seq<Record>, view: View, i: nat)
    requires view in RecessionViews(data) && i < |view.rows|
    ensures var g := Group(RecessionRows(data), view.keyColumns, view.rows[i].key);
      && |g| > 0
      && (forall r :: r in g ==> r in data && r.recession == 1)
      && |view.rows[i].values| == |view.aggregates|
      && (forall j :: 0 <= j < |view.aggregates| ==> view.rows[i].values[j] == Aggregate(g, view.aggregates[j]))
  {
    var vs := RecessionViews(data);
    var v :| 0 <= v < 4 && vs[v] == view;
    var rec := RecessionRows(data);
    RecessionViewIsTableOfRecessionRows(data, v);
    GroupAggregateRow(rec, view.keyColumns, view.aggregates, i);
    var g := Group(rec, view.keyColumns, view.rows[i].key);
    forall r | r in g
      ensures r in data && r.recession == 1
    {
      assert r in rec;
    }
  }

  /** The recession pie's shares add up to the advertising expenditure of all
      recession rows: every recession row counted once, no other row counted. */
  lemma RecessionPieConservesExpenditure(data: seq<Record>)
    ensures ColumnTotal(RecessionViews(data)[2].rows, 0)
         == FieldSum(RecessionRows(data), AdvertisingExpenditure)
  {
    SumTableConservesTotal(RecessionRows(data), [VehicleType], AdvertisingExpenditure);
  }

  // ---- yearly branch ----

  /** Views 1 and 2 of the yearly report cover the whole table, whatever the year. */
  lemma YearlyOverviewIgnoresYear(data: seq<Record>, y1: int, y2: int)
    requires y1 != 0 && y2 != 0
    ensures var a := UpdateGraphs(data, Some(YearlyStatistics), Some(y1));
      var b := UpdateGraphs(data, Some(YearlyStatistics), Some(y2));
      a.Report? && b.Report? && a.views[..2] == b.views[..2]
    ensures UpdateGraphs(data, Some(YearlyStatistics), Some(y1)).views[0].rows
         == GroupAggregate(data, [Year], [Mean(AutomobileSales)])
  {
    var a := YearlyViews(data, y1);
    var b := YearlyViews(data, y2);
    assert a[0] == b[0] && a[1] == b[1];
    assert a[..2] == b[..2];
  }

  /** Views 3 and 4 of the yearly report depend only on the rows of the selected year. */
  lemma YearlyDetailDependsOnlyOnThatYear(d1: seq<Record>, d2: seq<Record>, year: int)
    requires year != 0
    requires YearRows(d1, year) == YearRows(d2, year)
    ensures var a := UpdateGraphs(d1, Some(YearlyStatistics), Some(year));
      var b := UpdateGraphs(d2, Some(YearlyStatistics), Some(year));
      a.Report? && b.Report? && a.views[2..] == b.views[2..]
  {
    var a := YearlyViews(d1, year);
    var b := YearlyViews(d2, year);
    assert a[2] == b[2] && a[3] == b[3];
    assert a[2..] == b[2..];
  }

  /** Views 1 and 2 of the yearly report tabulate the whole table, views 3 and 4
      the rows of the selected year, each grouped by its key columns. */
  lemma YearlyViewIsTable(data: seq<Record>, year: int, v: nat)
    requires v < 4
    ensures var view := YearlyViews(data, year)[v];
      view.rows == GroupAggregate(if v < 2 then data else YearRows(data, year), view.keyColumns, view.aggregates)
  {
    if v == 0 {} else if v == 1 {} else if v == 2 {} else {}
  }

  /** Views 3 and 4 of the yearly report tabulate the rows of the selected year. */
  lemma YearlyDetailTables(data: seq<Record>, year: int)
    requires year != 0
    ensures var out := UpdateGraphs(data, Some(YearlyStatistics), Some(year));
      && out.Report?
      && out.views[2].rows == GroupAggregate(YearRows(data, year), [Month, VehicleType], [Mean(AutomobileSales)])
      && out.views[3].rows == GroupAggregate(YearRows(data, year), [VehicleType], [Sum(AdvertisingExpenditure)])
  {
  }

  /** Every value of views 3 and 4 aggregates a non-empty group of rows of the selected year. */
  lemma YearlyDetailValuesComeFromThatYear(data: seq<Record>, year: int, v: nat, i: nat)
    requires 2 <= v < 4 && i < |YearlyViews(data, year)[v].rows|
    ensures var view := YearlyViews(data, year)[v];
      var g := Group(YearRows(data, year), view.keyColumns, view.rows[i].key);
      && |g| > 0
      && (forall r :: r in g ==> r in data && r.year == year)
      && |view.rows[i].values| == |view.aggregates|
      && (forall j :: 0 <= j < |view.aggregates| ==> view.rows[i].values[j] == Aggregate(g, view.aggregates[j]))
  {
    var view := YearlyViews(data, year)[v];
    var rows := YearRows(data, year);
    YearlyViewIsTable(data, year, v);
    GroupAggregateRow(rows, view.keyColumns, view.aggregates, i);
    var g := Group(rows, view.keyColumns, view.rows[i].key);
    forall r | r in g
      ensures r in data && r.year == year
    {
      assert r in rows;
    }
  }

  /** The titles of views 3 and 4 end with the selected year, which reads back
      from them. */
  lemma YearlyTitlesEmbedYear(data: seq<Record>, year: int)
    requires year != 0
    ensures var out := UpdateGraphs(data, Some(YearlyStatistics), Some(year));
      && out.Report?
      && out.views[2].title == YearlyTitle3Prefix + IntText(year)
      && out.views[3].title == YearlyTitle4Prefix + IntText(year)
      && ParseInt(out.views[2].title[|YearlyTitle3Prefix|..]) == year
      && ParseInt(out.views[3].title[|YearlyTitle4Prefix|..]) == year
  {
    var out := UpdateGraphs(data, Some(YearlyStatistics), Some(year));
    assert out.views[2].title[|YearlyTitle3Prefix|..] == IntText(year);
    assert out.views[3].title[|YearlyTitle4Prefix|..] == IntText(year);
    IntTextRoundTrip(year);
  }

  /** The yearly pie's shares add up to the advertising expenditure of the
      selected year's rows. */
  lemma YearlyPieConservesExpenditure(data: seq<Record>, year: int)
    ensures ColumnTotal(YearlyViews(data, year)[3].rows, 0)
         == FieldSum(YearRows(data, year), AdvertisingExpenditure)
  {
    SumTableConservesTotal(YearRows(data, year), [VehicleType], AdvertisingExpenditure);
  }

  /** With non-negative advertising expenditure no pie share is negative. */
  lemma PieSharesNonNegative(data: seq<Record>, year: int)
    requires NonNegativeIn(data, AdvertisingExpenditure)
    ensures ColumnNonNegative(RecessionViews(data)[2].rows, 0)
    ensures ColumnNonNegative(YearlyViews(data, year)[3].rows, 0)
  {
    RecessionViewIsTableOfRecessionRows(data, 2);
    YearlyViewIsTable(data, year, 3);
    AggregatesNonNegative(RecessionRows(data), [VehicleType], [Sum(AdvertisingExpenditure)]);
    AggregatesNonNegative(YearRows(data, year), [VehicleType], [Sum(AdvertisingExpenditure)]);
  }
}

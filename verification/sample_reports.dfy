/**
 Worked reports over a three-row sales table (two recession months of 2009 and
 one non-recession month of 2010), derived from the general definitions.
 */
module SampleReports {
  import opened KeyOrder
  import opened Records
  import opened GroupBy
  import opened Dashboard

  function SampleTable(): seq<Record>
  {
    [ Record(2009, "Jan", "SUV", 100.0, 50.0, 8.0, 1),
      Record(2009, "Feb", "SUV", 120.0, 60.0, 8.0, 1),
      Record(2010, "Jan", "SUV", 200.0, 80.0, 5.0, 0) ]
  }

  /** The recession line chart has one point, 2009 at (100 + 120) / 2;
      the 2010 row is not a recession row and is excluded. */
  lemma RecessionSample()
    ensures UpdateGraphs(SampleTable(), Some(RecessionStatistics), None).views[0].rows
         == [Row([IntPart(2009)], [110.0])]
  {
    SampleRecessionRows();
    SampleRecessionYearTable();
    RecessionViewIsTableOfRecessionRows(SampleTable(), 0);
  }

  lemma SampleRecessionRows()
    ensures RecessionRows(SampleTable()) == SampleTable()[..2]
  {
  }

  lemma SampleRecessionYearTable()
    ensures GroupAggregate(SampleTable()[..2], [Year], [Mean(AutomobileSales)]) == [Row([IntPart(2009)], [110.0])]
  {
    var rec := SampleTable()[..2];
    var k := [IntPart(2009)];
    assert KeyOf(rec[0], [Year]) == k && KeyOf(rec[1], [Year]) == k;
    assert KeySet(rec, [Year]) == {k};
    var g := Group(rec, [Year], k);
    assert g == rec;
    assert rec[1..][1..] == [];
    assert FieldSum(rec[1..], AutomobileSales) == 120.0;
    assert FieldSum(rec, AutomobileSales) == 220.0;
    SingleKeyTable(rec, [Year], [Mean(AutomobileSales)], k);
    assert AggregateAll(g, [Mean(AutomobileSales)]) == [110.0];
  }

  /** The all-years line chart averages every row, recession or not. */
  lemma YearlyOverviewSample()
    ensures UpdateGraphs(SampleTable(), Some(YearlyStatistics), Some(2009)).views[0].rows
         == [Row([IntPart(2009)], [110.0]), Row([IntPart(2010)], [200.0])]
  {
    YearlyOverviewIgnoresYear(SampleTable(), 2009, 2009);
    SampleYearTable();
  }

  lemma SampleYearTable()
    ensures GroupAggregate(SampleTable(), [Year], [Mean(AutomobileSales)])
         == [Row([IntPart(2009)], [110.0]), Row([IntPart(2010)], [200.0])]
  {
    var d := SampleTable();
    var k9 := [IntPart(2009)];
    var k10 := [IntPart(2010)];
    assert KeyOf(d[0], [Year]) == k9 && KeyOf(d[1], [Year]) == k9 && KeyOf(d[2], [Year]) == k10;
    assert KeySet(d, [Year]) == {k9, k10};
    var g9 := Group(d, [Year], k9);
    var g10 := Group(d, [Year], k10);
    assert g9 == d[..2];
    assert g10 == d[2..];
    assert FieldSum(g9, AutomobileSales) == 220.0 by {
      assert g9[1..][1..] == [];
    }
    assert FieldSum(g10, AutomobileSales) == 200.0 by {
      assert g10[1..] == [];
    }
    TwoKeyTable(d, [Year], [Mean(AutomobileSales)], k9, k10);
    assert AggregateAll(g9, [Mean(AutomobileSales)]) == [110.0];
    assert AggregateAll(g10, [Mean(AutomobileSales)]) == [200.0];
  }

  /** Month keys sort as strings (pandas' default), so February's bar comes
      before January's. */
  lemma YearlyMonthSample()
    ensures UpdateGraphs(SampleTable(), Some(YearlyStatistics), Some(2009)).views[2].rows
         == [Row([StrPart("Feb"), StrPart("SUV")], [120.0]), Row([StrPart("Jan"), StrPart("SUV")], [100.0])]
  {
    YearlyDetailTables(SampleTable(), 2009);
    SampleYearRows();
    SampleMonthTable();
  }

  lemma SampleYearRows()
    ensures YearRows(SampleTable(), 2009) == SampleTable()[..2]
  {
  }

  lemma SampleMonthKeys()
    ensures KeySet(SampleTable()[..2], [Month, VehicleType])
         == {[StrPart("Feb"), StrPart("SUV")], [StrPart("Jan"), StrPart("SUV")]}
    ensures KeyLess([StrPart("Feb"), StrPart("SUV")], [StrPart("Jan"), StrPart("SUV")])
  {
    var rows := SampleTable()[..2];
    var cols := [Month, VehicleType];
    assert KeyOf(rows[0], cols) == [StrPart("Jan"), StrPart("SUV")];
    assert KeyOf(rows[1], cols) == [StrPart("Feb"), StrPart("SUV")];
    assert StrLess("Feb", "Jan");
  }

  lemma SampleMonthGroups()
    ensures var rows := SampleTable()[..2];
      && Group(rows, [Month, VehicleType], [StrPart("Feb"), StrPart("SUV")]) == rows[1..]
      && Group(rows, [Month, VehicleType], [StrPart("Jan"), StrPart("SUV")]) == rows[..1]
      && AggregateAll(rows[1..], [Mean(AutomobileSales)]) == [120.0]
      && AggregateAll(rows[..1], [Mean(AutomobileSales)]) == [100.0]
  {
    var rows := SampleTable()[..2];
    var cols := [Month, VehicleType];
    assert KeyOf(rows[0], cols) == [StrPart("Jan"), StrPart("SUV")];
    assert KeyOf(rows[1], cols) == [StrPart("Feb"), StrPart("SUV")];
    assert rows[1..][1..] == [] && rows[..1][1..] == [];
  }

  lemma SampleMonthTable()
    ensures GroupAggregate(SampleTable()[..2], [Month, VehicleType], [Mean(AutomobileSales)])
         == [Row([StrPart("Feb"), StrPart("SUV")], [120.0]), Row([StrPart("Jan"), StrPart("SUV")], [100.0])]
  {
    var rows := SampleTable()[..2];
    SampleMonthKeys();
    SampleMonthGroups();
    TwoKeyTable(rows, [Month, VehicleType], [Mean(AutomobileSales)], [StrPart("Feb"), StrPart("SUV")], [StrPart("Jan"), StrPart("SUV")]);
  }
}

/**
 The in-memory sales table: one record per CSV row, the columns the dashboard
 groups by, the numeric columns it aggregates, row filtering and column sums.
 Numeric values are exact reals.
 */
module Records {
  import opened KeyOrder

  /** One row of the historical automobile sales table. `recession` is the
      integer `Recession` column (1 during a recession period). */
  datatype Record = Record(
    year: int,
    month: string,
    vehicleType: string,
    automobileSales: real,
    advertisingExpenditure: real,
    unemploymentRate: real,
    recession: int)

  /** The columns rows are grouped by: `Year`, `Month`, `Vehicle_Type`. */
  datatype Column = Year | Month | VehicleType

  /** The columns that are averaged or summed: `Automobile_Sales`,
      `Advertising_Expenditure`, `unemployment_rate`. */
  datatype Field = AutomobileSales | AdvertisingExpenditure | UnemploymentRate

  function PartOf(r: Record, c: Column): KeyPart
  {
    match c
    case Year => IntPart(r.year)
    case Month => StrPart(r.month)
    case VehicleType => StrPart(r.vehicleType)
  }

  /** The group key of a row for a list of grouping columns. */
  function KeyOf(r: Record, cols: seq<Column>): (k: Key)
    ensures |k| == |cols|
    ensures forall i :: 0 <= i < |cols| ==> k[i] == PartOf(r, cols[i])
  {
    seq(|cols|, i requires 0 <= i < |cols| => PartOf(r, cols[i]))
  }

  function ValueOf(r: Record, f: Field): real
  {
    match f
    case AutomobileSales => r.automobileSales
    case AdvertisingExpenditure => r.advertisingExpenditure
    case UnemploymentRate => r.unemploymentRate
  }

  /** `data[mask]`: the rows satisfying `p`, in their original order. */
  function Filter(rows: seq<Record>, p: Record -> bool): (kept: seq<Record>)
    ensures |kept| <= |rows|
    ensures forall x :: x in kept <==> x in rows && p(x)
    decreases |rows|
  {
    if |rows| == 0 then []
    else if p(rows[0]) then [rows[0]] + Filter(rows[1..], p)
    else Filter(rows[1..], p)
  }

  /** Total of one numeric column over the rows. */
  function FieldSum(rows: seq<Record>, f: Field): real
    decreases |rows|
  {
    if |rows| == 0 then 0.0 else ValueOf(rows[0], f) + FieldSum(rows[1..], f)
  }

  /** Filtering a concatenation filters each part. */
  lemma {:induction false} FilterAppend(a: seq<Record>, b: seq<Record>, p: Record -> bool)
    ensures Filter(a + b, p) == Filter(a, p) + Filter(b, p)
    decreases |a|
  {
    if |a| > 0 {
      assert (a + b)[1..] == a[1..] + b;
      FilterAppend(a[1..], b, p);
    } else {
      assert a + b == b;
    }
  }

  /** A filter that rejects every row keeps nothing. */
  lemma {:induction false} FilterRejectsAll(rows: seq<Record>, p: Record -> bool)
    requires forall r :: r in rows ==> !p(r)
    ensures Filter(rows, p) == []
    decreases |rows|
  {
    if |rows| > 0 {
      FilterRejectsAll(rows[1..], p);
    }
  }

  /** Filtering twice by the same predicate changes nothing the second time. */
  lemma {:induction false} FilterIdempotent(rows: seq<Record>, p: Record -> bool)
    ensures Filter(Filter(rows, p), p) == Filter(rows, p)
    decreases |rows|
  {
    if |rows| > 0 {
      FilterIdempotent(rows[1..], p);
      if p(rows[0]) {
        assert ([rows[0]] + Filter(rows[1..], p))[1..] == Filter(rows[1..], p);
      }
    }
  }

  /** `data[mask]` keeps every matching row exactly as often as it occurs in
      the input, and no other row. */
  lemma {:induction false} FilterCounts(rows: seq<Record>, p: Record -> bool)
    ensures forall x :: multiset(Filter(rows, p))[x] == if p(x) then multiset(rows)[x] else 0
    decreases |rows|
  {
    if |rows| > 0 {
      FilterCounts(rows[1..], p);
      assert rows == [rows[0]] + rows[1..];
      assert multiset(rows) == multiset([rows[0]]) + multiset(rows[1..]);
      if p(rows[0]) {
        assert multiset(Filter(rows, p)) == multiset([rows[0]]) + multiset(Filter(rows[1..], p));
      }
    }
  }

  /** Every row kept by the filter is one of the input rows, counted once:
      the filtered total plus the rejected total is the whole total. */
  lemma {:induction false} FilterSplitsSum(rows: seq<Record>, p: Record -> bool, f: Field)
    ensures FieldSum(Filter(rows, p), f) + FieldSum(Filter(rows, x => !p(x)), f) == FieldSum(rows, f)
    decreases |rows|
  {
    if |rows| > 0 {
      FilterSplitsSum(rows[1..], p, f);
      var q := x => !p(x);
      if p(rows[0]) {
        assert ([rows[0]] + Filter(rows[1..], p))[1..] == Filter(rows[1..], p);
      } else {
        assert ([rows[0]] + Filter(rows[1..], q))[1..] == Filter(rows[1..], q);
      }
    }
  }

  /** A column whose values are never negative has a non-negative total. */
  lemma {:induction false} FieldSumNonNegative(rows: seq<Record>, f: Field)
    requires forall r :: r in rows ==> ValueOf(r, f) >= 0.0
    ensures FieldSum(rows, f) >= 0.0
    decreases |rows|
  {
    if |rows| > 0 {
      FieldSumNonNegative(rows[1..], f);
    }
  }
}

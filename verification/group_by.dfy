/**
 `df.groupby(cols)[...].mean()` / `.sum()` followed by `reset_index()`:
 one output row per distinct key present in the input, keys in ascending
 order, each row carrying the aggregates of its (non-empty) group.
 */
module GroupBy {
  import opened KeyOrder
  import opened Records

  /** One aggregation of a numeric column over a group. */
  datatype Agg = Mean(field: Field) | Sum(field: Field)

  /** One row of an aggregated table: the group key and one value per aggregation. */
  datatype Row = Row(key: Key, values: seq<real>)

  /** The distinct keys present in the rows. */
  ghost function KeySet(rows: seq<Record>, cols: seq<Column>): set<Key>
  {
    set r | r in rows :: KeyOf(r, cols)
  }

  function HasKey(cols: seq<Column>, k: Key): Record -> bool
  {
    (r: Record) => KeyOf(r, cols) == k
  }

  /** The rows whose key is `k`, in input order. */
  function Group(rows: seq<Record>, cols: seq<Column>, k: Key): (g: seq<Record>)
    ensures forall r :: r in g <==> r in rows && KeyOf(r, cols) == k
    ensures |g| > 0 <==> k in KeySet(rows, cols)
  {
    var g := Filter(rows, HasKey(cols, k));
    assert |g| > 0 ==> g[0] in g;
    g
  }

  /** A group holds each input row with its key exactly as often as the input
      does, and nothing else. */
  lemma GroupCounts(rows: seq<Record>, cols: seq<Column>, k: Key)
    ensures forall x :: multiset(Group(rows, cols, k))[x] ==
                        (if KeyOf(x, cols) == k then multiset(rows)[x] else 0)
  {
    FilterCounts(rows, HasKey(cols, k));
  }

  /** The distinct keys of the rows, ascending. */
  function SortedKeys(rows: seq<Record>, cols: seq<Column>): (ks: seq<Key>)
    ensures StrictlySorted(ks)
    decreases |rows|
  {
    if |rows| == 0 then [] else Insert(KeyOf(rows[0], cols), SortedKeys(rows[1..], cols))
  }

  /** `SortedKeys` lists exactly the keys present in the rows. */
  lemma {:induction false} SortedKeysMembers(rows: seq<Record>, cols: seq<Column>)
    ensures forall k :: k in SortedKeys(rows, cols) <==> k in KeySet(rows, cols)
    decreases |rows|
  {
    if |rows| > 0 {
      SortedKeysMembers(rows[1..], cols);
      assert forall r :: r in rows <==> r == rows[0] || r in rows[1..];
    }
  }

  /** The aggregate of one column over a non-empty group. */
  function Aggregate(g: seq<Record>, a: Agg): real
    requires |g| > 0
  {
    match a
    case Mean(f) => FieldSum(g, f) / (|g| as real)
    case Sum(f) => FieldSum(g, f)
  }

  function AggregateAll(g: seq<Record>, aggs: seq<Agg>): (vs: seq<real>)
    requires |g| > 0
    ensures |vs| == |aggs|
    ensures forall j :: 0 <= j < |aggs| ==> vs[j] == Aggregate(g, aggs[j])
  {
    seq(|aggs|, j requires 0 <= j < |aggs| => Aggregate(g, aggs[j]))
  }

  /** One row per listed key, each a key present in the input. */
  function Tabulate(rows: seq<Record>, cols: seq<Column>, ks: seq<Key>, aggs: seq<Agg>): seq<Row>
    requires forall k :: k in ks ==> k in KeySet(rows, cols)
    decreases |ks|
  {
    if |ks| == 0 then []
    else [Row(ks[0], AggregateAll(Group(rows, cols, ks[0]), aggs))] + Tabulate(rows, cols, ks[1..], aggs)
  }

  /** Row `i` of the tabulation is the `i`-th key with its group's aggregates. */
  lemma {:induction false} TabulateRows(rows: seq<Record>, cols: seq<Column>, ks: seq<Key>, aggs: seq<Agg>)
    requires forall k :: k in ks ==> k in KeySet(rows, cols)
    ensures var t := Tabulate(rows, cols, ks, aggs);
      && |t| == |ks|
      && (forall i :: 0 <= i < |ks| ==> t[i].key == ks[i])
      && (forall i :: 0 <= i < |ks| ==> t[i].values == AggregateAll(Group(rows, cols, ks[i]), aggs))
    decreases |ks|
  {
    if |ks| > 0 {
      TabulateRows(rows, cols, ks[1..], aggs);
    }
  }

  function RowKeys(t: seq<Row>): (ks: seq<Key>)
    ensures |ks| == |t|
    ensures forall i :: 0 <= i < |t| ==> ks[i] == t[i].key
  {
    seq(|t|, i requires 0 <= i < |t| => t[i].key)
  }

  /** `rows.groupby(cols).agg(aggs).reset_index()`. Its properties are stated
      by `GroupAggregateKeys` and `GroupAggregateRow`. */
  function GroupAggregate(rows: seq<Record>, cols: seq<Column>, aggs: seq<Agg>): (t: seq<Row>)
    ensures |t| <= |rows|
    ensures |rows| == 0 ==> t == []
  {
    var ks := SortedKeys(rows, cols);
    SortedKeysMembers(rows, cols);
    KeysAtMostRows(rows, cols);
    TabulateRows(rows, cols, ks, aggs);
    Tabulate(rows, cols, ks, aggs)
  }

  /** There are never more distinct keys than rows. */
  lemma {:induction false} KeysAtMostRows(rows: seq<Record>, cols: seq<Column>)
    ensures |SortedKeys(rows, cols)| <= |rows|
    decreases |rows|
  {
    if |rows| > 0 {
      KeysAtMostRows(rows[1..], cols);
      InsertGrowsByAtMostOne(KeyOf(rows[0], cols), SortedKeys(rows[1..], cols));
    }
  }

  lemma {:induction false} InsertGrowsByAtMostOne(k: Key, ks: seq<Key>)
    requires StrictlySorted(ks)
    ensures |Insert(k, ks)| <= |ks| + 1
    decreases |ks|
  {
    if |ks| > 0 && k != ks[0] && !KeyLess(k, ks[0]) {
      InsertGrowsByAtMostOne(k, ks[1..]);
    }
  }

  /** The rows of an aggregated table have ascending keys, so no key appears
      twice, and their keys are exactly the keys present in the input: one row
      per distinct key. */
  lemma GroupAggregateKeys(rows: seq<Record>, cols: seq<Column>, aggs: seq<Agg>)
    ensures var t := GroupAggregate(rows, cols, aggs);
      && StrictlySorted(RowKeys(t))
      && (forall k :: k in RowKeys(t) <==> k in KeySet(rows, cols))
      && |t| == |KeySet(rows, cols)|
  {
    var ks := SortedKeys(rows, cols);
    var t := GroupAggregate(rows, cols, aggs);
    SortedKeysMembers(rows, cols);
    TabulateRows(rows, cols, ks, aggs);
    assert RowKeys(t) == ks;
    SortedIsDistinct(ks);
    DistinctCardinality(ks);
    assert (set k | k in ks) == KeySet(rows, cols);
  }

  /** Row `i` of an aggregated table: its group is a non-empty set of input
      rows sharing the row's key, and its values are that group's aggregates. */
  lemma GroupAggregateRow(rows: seq<Record>, cols: seq<Column>, aggs: seq<Agg>, i: nat)
    requires i < |GroupAggregate(rows, cols, aggs)|
    ensures var row := GroupAggregate(rows, cols, aggs)[i];
      var g := Group(rows, cols, row.key);
      && |g| > 0
      && (forall r :: r in g ==> r in rows && KeyOf(r, cols) == row.key)
      && |row.values| == |aggs|
      && (forall j :: 0 <= j < |aggs| ==> row.values[j] == Aggregate(g, aggs[j]))
      && row.values == AggregateAll(g, aggs)
  {
    var ks := SortedKeys(rows, cols);
    SortedKeysMembers(rows, cols);
    TabulateRows(rows, cols, ks, aggs);
    assert ks[i] in KeySet(rows, cols);
  }

  /** A table over a single distinct key has one row. */
  lemma SingleKeyTable(rows: seq<Record>, cols: seq<Column>, aggs: seq<Agg>, a: Key)
    requires KeySet(rows, cols) == {a}
    ensures |Group(rows, cols, a)| > 0
    ensures GroupAggregate(rows, cols, aggs) == [Row(a, AggregateAll(Group(rows, cols, a), aggs))]
  {
    var t := GroupAggregate(rows, cols, aggs);
    GroupAggregateKeys(rows, cols, aggs);
    assert t[0].key in RowKeys(t);
  }

  /** A table over two distinct keys has their two rows, the smaller key first. */
  lemma TwoKeyTable(rows: seq<Record>, cols: seq<Column>, aggs: seq<Agg>, a: Key, b: Key)
    requires KeySet(rows, cols) == {a, b} && KeyLess(a, b)
    ensures |Group(rows, cols, a)| > 0 && |Group(rows, cols, b)| > 0
    ensures GroupAggregate(rows, cols, aggs)
         == [Row(a, AggregateAll(Group(rows, cols, a), aggs)), Row(b, AggregateAll(Group(rows, cols, b), aggs))]
  {
    KeyLessIrreflexive(a);
    KeyLessAsymmetric(a, b);
    var t := GroupAggregate(rows, cols, aggs);
    GroupAggregateKeys(rows, cols, aggs);
    assert |t| == 2;
    GroupAggregateRow(rows, cols, aggs, 0);
    GroupAggregateRow(rows, cols, aggs, 1);
    assert t[0].key in RowKeys(t) && t[1].key in RowKeys(t);
    assert KeyLess(t[0].key, t[1].key);
    assert t[0].key == a && t[1].key == b;
  }

  // ---- sums over a partition into groups ----

  /** Sum over the listed keys of the column total of each key's group. */
  function GroupTotals(rows: seq<Record>, cols: seq<Column>, ks: seq<Key>, f: Field): real
    decreases |ks|
  {
    if |ks| == 0 then 0.0
    else FieldSum(Group(rows, cols, ks[0]), f) + GroupTotals(rows, cols, ks[1..], f)
  }

  /** `v` once for every occurrence of `k` among the keys. */
  function Occurrences(ks: seq<Key>, k: Key, v: real): real
    decreases |ks|
  {
    if |ks| == 0 then 0.0
    else (if ks[0] == k then v else 0.0) + Occurrences(ks[1..], k, v)
  }

  lemma {:induction false} OccurrencesAbsent(ks: seq<Key>, k: Key, v: real)
    requires k !in ks
    ensures Occurrences(ks, k, v) == 0.0
    decreases |ks|
  {
    if |ks| > 0 {
      OccurrencesAbsent(ks[1..], k, v);
    }
  }

  lemma {:induction false} OccurrencesOnce(ks: seq<Key>, k: Key, v: real)
    requires Distinct(ks) && k in ks
    ensures Occurrences(ks, k, v) == v
    decreases |ks|
  {
    if ks[0] == k {
      assert k !in ks[1..] by {
        forall j | 0 <= j < |ks[1..]| ensures ks[1..][j] != k {
          assert ks[1..][j] == ks[j + 1];
        }
      }
      OccurrencesAbsent(ks[1..], k, v);
    } else {
      OccurrencesOnce(ks[1..], k, v);
    }
  }

  lemma {:induction false} GroupTotalsOfNoRows(cols: seq<Column>, ks: seq<Key>, f: Field)
    ensures GroupTotals([], cols, ks, f) == 0.0
    decreases |ks|
  {
    if |ks| > 0 {
      GroupTotalsOfNoRows(cols, ks[1..], f);
    }
  }

  /** Adding one row in front adds its value to exactly the groups of its key. */
  lemma {:induction false} GroupTotalsStep(rows: seq<Record>, cols: seq<Column>, ks: seq<Key>, f: Field)
    requires |rows| > 0
    ensures GroupTotals(rows, cols, ks, f)
         == Occurrences(ks, KeyOf(rows[0], cols), ValueOf(rows[0], f)) + GroupTotals(rows[1..], cols, ks, f)
    decreases |ks|
  {
    if |ks| > 0 {
      GroupTotalsStep(rows, cols, ks[1..], f);
      var g := Group(rows, cols, ks[0]);
      var g' := Group(rows[1..], cols, ks[0]);
      if KeyOf(rows[0], cols) == ks[0] {
        assert g == [rows[0]] + g';
        assert g[1..] == g';
      } else {
        assert g == g';
      }
    }
  }

  /** The groups of distinct keys covering every row partition the rows:
      their totals add up to the total of all rows, each row counted once. */
  lemma {:induction false} GroupTotalsPartition(rows: seq<Record>, cols: seq<Column>, ks: seq<Key>, f: Field)
    requires Distinct(ks)
    requires forall r :: r in rows ==> KeyOf(r, cols) in ks
    ensures GroupTotals(rows, cols, ks, f) == FieldSum(rows, f)
    decreases |rows|
  {
    if |rows| == 0 {
      GroupTotalsOfNoRows(cols, ks, f);
    } else {
      GroupTotalsStep(rows, cols, ks, f);
      OccurrencesOnce(ks, KeyOf(rows[0], cols), ValueOf(rows[0], f));
      GroupTotalsPartition(rows[1..], cols, ks, f);
    }
  }

  /** Total of the value column `j` of a table (rows without it add nothing). */
  function ColumnTotal(t: seq<Row>, j: nat): real
    decreases |t|
  {
    if |t| == 0 then 0.0
    else (if j < |t[0].values| then t[0].values[j] else 0.0) + ColumnTotal(t[1..], j)
  }

  lemma {:induction false} TabulateTotal(rows: seq<Record>, cols: seq<Column>, ks: seq<Key>, f: Field)
    requires forall k :: k in ks ==> k in KeySet(rows, cols)
    ensures ColumnTotal(Tabulate(rows, cols, ks, [Sum(f)]), 0) == GroupTotals(rows, cols, ks, f)
    decreases |ks|
  {
    if |ks| > 0 {
      TabulateTotal(rows, cols, ks[1..], f);
      var t := Tabulate(rows, cols, ks, [Sum(f)]);
      assert t[1..] == Tabulate(rows, cols, ks[1..], [Sum(f)]);
    }
  }

  /** `groupby(cols)[f].sum()` conserves the column total: the per-group sums
      add up to the total of all input rows. */
  lemma SumTableConservesTotal(rows: seq<Record>, cols: seq<Column>, f: Field)
    ensures ColumnTotal(GroupAggregate(rows, cols, [Sum(f)]), 0) == FieldSum(rows, f)
  {
    var ks := SortedKeys(rows, cols);
    SortedKeysMembers(rows, cols);
    TabulateTotal(rows, cols, ks, f);
    SortedIsDistinct(ks);
    GroupTotalsPartition(rows, cols, ks, f);
  }

  ghost predicate NonNegativeIn(rows: seq<Record>, f: Field)
  {
    forall r :: r in rows ==> ValueOf(r, f) >= 0.0
  }

  /** Every row of the table has a non-negative value in column `j`. */
  ghost predicate ColumnNonNegative(t: seq<Row>, j: nat)
  {
    forall i :: 0 <= i < |t| ==> j < |t[i].values| && t[i].values[j] >= 0.0
  }

  /** Means and sums of a column that is never negative are never negative. */
  lemma AggregatesNonNegative(rows: seq<Record>, cols: seq<Column>, aggs: seq<Agg>)
    requires forall j :: 0 <= j < |aggs| ==> NonNegativeIn(rows, aggs[j].field)
    ensures forall j :: 0 <= j < |aggs| ==> ColumnNonNegative(GroupAggregate(rows, cols, aggs), j)
  {
    var t := GroupAggregate(rows, cols, aggs);
    forall j | 0 <= j < |aggs|
      ensures ColumnNonNegative(t, j)
    {
      forall i | 0 <= i < |t|
        ensures j < |t[i].values| && t[i].values[j] >= 0.0
      {
        GroupAggregateRow(rows, cols, aggs, i);
        AggregateNonNegative(Group(rows, cols, t[i].key), aggs[j]);
      }
    }
  }

  lemma AggregateNonNegative(g: seq<Record>, a: Agg)
    requires |g| > 0 && NonNegativeIn(g, a.field)
    ensures Aggregate(g, a) >= 0.0
  {
    FieldSumNonNegative(g, a.field);
    var n := |g| as real;
    assert n > 0.0;
  }

  /** The mean of a group lies between the smallest and the largest value in it. */
  lemma MeanWithinBounds(g: seq<Record>, f: Field, lo: real, hi: real)
    requires |g| > 0
    requires forall r :: r in g ==> lo <= ValueOf(r, f) <= hi
    ensures lo <= Aggregate(g, Mean(f)) <= hi
  {
    FieldSumBounds(g, f, lo, hi);
    QuotientWithin(FieldSum(g, f), |g| as real, lo, hi);
  }

  /** Dividing a total bounded by `n * lo` and `n * hi` by `n` lands in `[lo, hi]`. */
  lemma QuotientWithin(s: real, n: real, lo: real, hi: real)
    requires n > 0.0 && n * lo <= s <= n * hi
    ensures lo <= s / n <= hi
  {
    var m := s / n;
    assert s == m * n;
    if m < lo {
      ScaleStrict(m, lo, n);
    }
    if hi < m {
      ScaleStrict(hi, m, n);
    }
  }

  lemma ScaleStrict(a: real, b: real, n: real)
    requires a < b && n > 0.0
    ensures a * n < b * n
  {
    assert b * n - a * n == (b - a) * n;
  }

  lemma {:induction false} FieldSumBounds(g: seq<Record>, f: Field, lo: real, hi: real)
    requires forall r :: r in g ==> lo <= ValueOf(r, f) <= hi
    ensures (|g| as real) * lo <= FieldSum(g, f) <= (|g| as real) * hi
    decreases |g|
  {
    if |g| > 0 {
      FieldSumBounds(g[1..], f, lo, hi);
      assert g[0] in g;
      BoundsStep(|g[1..]| as real, FieldSum(g[1..], f), ValueOf(g[0], f), lo, hi);
      assert (|g| as real) == (|g[1..]| as real) + 1.0;
    }
  }

  /** Adding one value within `[lo, hi]` to a total of `k` such values. */
  lemma BoundsStep(k: real, s: real, v: real, lo: real, hi: real)
    requires k * lo <= s <= k * hi && lo <= v <= hi
    ensures (k + 1.0) * lo <= v + s <= (k + 1.0) * hi
  {
    assert (k + 1.0) * lo == k * lo + lo;
    assert (k + 1.0) * hi == k * hi + hi;
  }
}

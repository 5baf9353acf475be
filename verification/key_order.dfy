/**
 The order in which a pandas `groupby` emits its groups: keys sorted ascending.
 A key is one value per grouping column (a single column or a pair of columns);
 integer columns compare numerically, string columns compare as Python `str`
 does (code point by code point, a proper prefix first), and pairs compare
 lexicographically, first column first.
 */
module KeyOrder {

  /** One grouping column's value inside a key. */
  datatype KeyPart = IntPart(i: int) | StrPart(s: string)

  /** A group key: the values of the grouping columns, in column order. */
  type Key = seq<KeyPart>

  /** Python's `a < b` on strings. */
  predicate StrLess(a: string, b: string)
    decreases |a|
  {
    if |a| == 0 then |b| > 0
    else if |b| == 0 then false
    else if a[0] != b[0] then a[0] < b[0]
    else StrLess(a[1..], b[1..])
  }

  /** Order on single key parts. A column is either all integers or all strings;
      integers are put before strings only so that the order is total. */
  predicate PartLess(p: KeyPart, q: KeyPart)
  {
    match (p, q)
    case (IntPart(x), IntPart(y)) => x < y
    case (IntPart(_), StrPart(_)) => true
    case (StrPart(_), IntPart(_)) => false
    case (StrPart(a), StrPart(b)) => StrLess(a, b)
  }

  /** Lexicographic order on keys, as pandas sorts a MultiIndex. */
  predicate KeyLess(a: Key, b: Key)
    decreases |a|
  {
    if |a| == 0 then |b| > 0
    else if |b| == 0 then false
    else if a[0] != b[0] then PartLess(a[0], b[0])
    else KeyLess(a[1..], b[1..])
  }

  /** Keys in strictly ascending order: sorted and free of duplicates. */
  ghost predicate StrictlySorted(ks: seq<Key>)
  {
    forall i, j :: 0 <= i < j < |ks| ==> KeyLess(ks[i], ks[j])
  }

  ghost predicate Distinct(ks: seq<Key>)
  {
    forall i, j :: 0 <= i < j < |ks| ==> ks[i] != ks[j]
  }

  // ---- StrLess is a strict total order ----

  lemma {:induction false} StrLessIrreflexive(a: string)
    ensures !StrLess(a, a)
    decreases |a|
  {
    if |a| > 0 {
      StrLessIrreflexive(a[1..]);
    }
  }

  lemma {:induction false} StrLessTransitive(a: string, b: string, c: string)
    requires StrLess(a, b) && StrLess(b, c)
    ensures StrLess(a, c)
    decreases |a|
  {
    if |a| > 0 && a[0] == b[0] && b[0] == c[0] {
      StrLessTransitive(a[1..], b[1..], c[1..]);
    }
  }

  lemma {:induction false} StrLessTotal(a: string, b: string)
    requires a != b
    ensures StrLess(a, b) || StrLess(b, a)
    decreases |a|
  {
    if |a| > 0 && |b| > 0 && a[0] == b[0] {
      assert a == [a[0]] + a[1..] && b == [b[0]] + b[1..];
      StrLessTotal(a[1..], b[1..]);
    }
  }

  // ---- PartLess is a strict total order ----

  lemma PartLessIrreflexive(p: KeyPart)
    ensures !PartLess(p, p)
  {
    if p.StrPart? {
      StrLessIrreflexive(p.s);
    }
  }

  lemma PartLessTransitive(p: KeyPart, q: KeyPart, r: KeyPart)
    requires PartLess(p, q) && PartLess(q, r)
    ensures PartLess(p, r)
  {
    if p.StrPart? && q.StrPart? && r.StrPart? {
      StrLessTransitive(p.s, q.s, r.s);
    }
  }

  lemma PartLessTotal(p: KeyPart, q: KeyPart)
    requires p != q
    ensures PartLess(p, q) || PartLess(q, p)
  {
    if p.StrPart? && q.StrPart? {
      StrLessTotal(p.s, q.s);
    }
  }

  // ---- KeyLess is a strict total order ----

  lemma {:induction false} KeyLessIrreflexive(a: Key)
    ensures !KeyLess(a, a)
    decreases |a|
  {
    if |a| > 0 {
      KeyLessIrreflexive(a[1..]);
    }
  }

  lemma {:induction false} KeyLessTransitive(a: Key, b: Key, c: Key)
    requires KeyLess(a, b) && KeyLess(b, c)
    ensures KeyLess(a, c)
    decreases |a|
  {
    if |a| > 0 && |b| > 0 && |c| > 0 {
      if a[0] == b[0] && b[0] == c[0] {
        KeyLessTransitive(a[1..], b[1..], c[1..]);
      } else if a[0] != b[0] && b[0] != c[0] {
        PartLessTransitive(a[0], b[0], c[0]);
        if a[0] == c[0] {
          PartLessIrreflexive(a[0]);
          assert false;
        }
      }
    }
  }

  lemma {:induction false} KeyLessTotal(a: Key, b: Key)
    requires a != b
    ensures KeyLess(a, b) || KeyLess(b, a)
    decreases |a|
  {
    if |a| > 0 && |b| > 0 {
      if a[0] == b[0] {
        assert a == [a[0]] + a[1..] && b == [b[0]] + b[1..];
        KeyLessTotal(a[1..], b[1..]);
      } else {
        PartLessTotal(a[0], b[0]);
      }
    }
  }

  lemma KeyLessAsymmetric(a: Key, b: Key)
    requires KeyLess(a, b)
    ensures !KeyLess(b, a)
  {
    if KeyLess(b, a) {
      KeyLessTransitive(a, b, a);
      KeyLessIrreflexive(a);
    }
  }

  // ---- sorted sequences of keys ----

  lemma SortedIsDistinct(ks: seq<Key>)
    requires StrictlySorted(ks)
    ensures Distinct(ks)
  {
    forall i, j | 0 <= i < j < |ks|
      ensures ks[i] != ks[j]
    {
      KeyLessIrreflexive(ks[i]);
    }
  }

  /** A duplicate-free sequence has as many elements as its set of elements. */
  lemma {:induction false} DistinctCardinality(ks: seq<Key>)
    requires Distinct(ks)
    ensures |set k | k in ks| == |ks|
  {
    if |ks| > 0 {
      var rest := ks[1..];
      assert Distinct(rest) by {
        forall i, j | 0 <= i < j < |rest|
          ensures rest[i] != rest[j]
        {
          assert rest[i] == ks[i + 1] && rest[j] == ks[j + 1];
        }
      }
      DistinctCardinality(rest);
      assert ks[0] !in rest;
      assert (set k | k in ks) == {ks[0]} + (set k | k in rest);
    }
  }

  /** Putting a key smaller than the current first key in front keeps the order. */
  lemma PrependSorted(k: Key, ks: seq<Key>)
    requires StrictlySorted(ks)
    requires |ks| == 0 || KeyLess(k, ks[0])
    ensures StrictlySorted([k] + ks)
  {
    var r := [k] + ks;
    forall i, j | 0 <= i < j < |r|
      ensures KeyLess(r[i], r[j])
    {
      if i == 0 && j > 1 {
        KeyLessTransitive(k, ks[0], ks[j - 1]);
      }
    }
  }

  /** Inserts a key into a strictly ascending sequence, unless it is already there. */
  function Insert(k: Key, ks: seq<Key>): (r: seq<Key>)
    requires StrictlySorted(ks)
    ensures StrictlySorted(r)
    ensures forall x :: x in r <==> x == k || x in ks
    decreases |ks|
  {
    if |ks| == 0 then [k]
    else if k == ks[0] then ks
    else if KeyLess(k, ks[0]) then
      PrependSorted(k, ks);
      [k] + ks
    else
      KeyLessTotal(k, ks[0]);
      var tail := Insert(k, ks[1..]);
      assert forall x :: x in tail ==> KeyLess(ks[0], x);
      PrependSorted(ks[0], tail);
      [ks[0]] + tail
  }
}

/** Selection from a sequence, the shape of a SQL `WHERE` and of a Python comprehension with `if`. */
module Seqs {

  function Filter<T>(s: seq<T>, p: T -> bool): (r: seq<T>)
    ensures |r| <= |s|
    ensures forall x | x in r :: x in s && p(x)
    ensures forall x | x in s && p(x) :: x in r
  {
    if s == [] then []
    else
      assert s == s[..|s| - 1] + [s[|s| - 1]];
      Filter(s[..|s| - 1], p) + if p(s[|s| - 1]) then [s[|s| - 1]] else []
  }

  lemma {:induction false} FilterCongruent<T>(s: seq<T>, p: T -> bool, q: T -> bool)
    requires forall x :: x in s ==> p(x) == q(x)
    ensures Filter(s, p) == Filter(s, q)
  {
    if s != [] { FilterCongruent(s[..|s| - 1], p, q); }
  }

  lemma {:induction false} FilterNone<T>(s: seq<T>, p: T -> bool)
    requires forall x :: x in s ==> !p(x)
    ensures Filter(s, p) == []
  {
    if s != [] { FilterNone(s[..|s| - 1], p); }
  }

  lemma SplitLast<T>(s: seq<T>)
    requires s != []
    ensures s == s[..|s| - 1] + [s[|s| - 1]] && s[|s| - 1] in s
  {
  }

  lemma {:induction false} FilterAll<T>(s: seq<T>, p: T -> bool)
    requires forall x :: x in s ==> p(x)
    ensures Filter(s, p) == s
  {
    if s != [] {
      SplitLast(s);
      FilterAll(s[..|s| - 1], p);
    }
  }

  /** Selecting twice is selecting once by the conjunction. */
  lemma {:induction false} FilterTwice<T>(s: seq<T>, p: T -> bool, q: T -> bool, both: T -> bool)
    requires forall x :: x in s ==> both(x) == (p(x) && q(x))
    ensures Filter(Filter(s, p), q) == Filter(s, both)
  {
    if s != [] {
      var t, x := s[..|s| - 1], s[|s| - 1];
      FilterTwice(t, p, q, both);
      FilterAppend(Filter(t, p), if p(x) then [x] else [], q);
      assert x in s;
    }
  }

  lemma FilterSnoc<T>(s: seq<T>, x: T, p: T -> bool)
    ensures Filter(s + [x], p) == Filter(s, p) + if p(x) then [x] else []
    ensures !p(x) ==> Filter(s + [x], p) == Filter(s, p)
  {
    assert (s + [x])[..|s|] == s;
  }

  lemma Associative<T>(a: seq<T>, b: seq<T>, c: seq<T>)
    ensures (a + b) + c == a + (b + c)
  {
  }

  lemma PrefixGrows<T>(s: seq<T>, i: nat)
    requires i < |s|
    ensures s[..i + 1] == s[..i] + [s[i]]
  {
  }

  lemma CutAt<T>(s: seq<T>, i: nat, j: nat)
    requires i <= j <= |s|
    ensures s[i..] == s[i..j] + s[j..]
  {
  }

  lemma {:induction false} FilterAppend<T>(a: seq<T>, b: seq<T>, p: T -> bool)
    ensures Filter(a + b, p) == Filter(a, p) + Filter(b, p)
    decreases |b|, 1
  {
    if b == [] {
      assert a + b == a;
      assert Filter(b, p) == [];
    } else {
      FilterAppendSnoc(a, b[..|b| - 1], b[|b| - 1], p);
      assert b == b[..|b| - 1] + [b[|b| - 1]];
    }
  }

  lemma FilterAppendSnoc<T>(a: seq<T>, t: seq<T>, x: T, p: T -> bool)
    ensures Filter(a + (t + [x]), p) == Filter(a, p) + Filter(t + [x], p)
    decreases |t| + 1, 0
  {
    FilterAppend(a, t, p);
    Associative(a, t, [x]);
    FilterSnoc(a + t, x, p);
    FilterSnoc(t, x, p);
    Associative(Filter(a, p), Filter(t, p), if p(x) then [x] else []);
  }

  lemma FilterOfSecond<T>(a: seq<T>, b: seq<T>, p: T -> bool)
    requires forall x :: x in a ==> !p(x)
    ensures Filter(a + b, p) == Filter(b, p)
  {
    FilterNone(a, p);
    FilterAppend(a, b, p);
    assert [] + Filter(b, p) == Filter(b, p);
  }

  lemma FilterPrefix<T>(s: seq<T>, p: T -> bool, i: nat)
    requires i < |s|
    ensures Filter(s[..i + 1], p) == Filter(s[..i], p) + (if p(s[i]) then [s[i]] else [])
  {
    assert s[..i + 1][..i] == s[..i];
  }

  lemma FilterParts<T>(s: seq<T>, a: seq<T>, b: seq<T>, p: T -> bool)
    requires s == a + b
    ensures Filter(s, p) == Filter(a, p) + Filter(b, p)
  {
    FilterAppend(a, b, p);
  }

  lemma FilterSplit<T>(s: seq<T>, p: T -> bool, i: nat)
    requires i <= |s|
    ensures Filter(s, p) == Filter(s[..i], p) + Filter(s[i..], p)
  {
    var a, b := s[..i], s[i..];
    CutAt(s, 0, i);
    assert s[0..] == s && s[0..i] == a;
    FilterParts(s, a, b, p);
  }

  /** Selection keeps any pairwise property of the order, such as "ascending" or "distinct". */
  lemma {:induction false} FilterKeepsPairs<T>(s: seq<T>, p: T -> bool, rel: (T, T) -> bool)
    requires forall i, j :: 0 <= i < j < |s| ==> rel(s[i], s[j])
    ensures forall i, j :: 0 <= i < j < |Filter(s, p)| ==> rel(Filter(s, p)[i], Filter(s, p)[j])
  {
    if s != [] {
      var t, x := s[..|s| - 1], s[|s| - 1];
      FilterKeepsPairs(t, p, rel);
      forall y | y in Filter(t, p) ensures rel(y, x) {
        assert y in t;
      }
    }
  }

  // ----- counting

  function Elements<T>(s: seq<T>): set<T> {
    set x | x in s
  }

  lemma ElementsStep<T>(s: seq<T>, i: nat)
    requires i < |s|
    ensures Elements(s[..i + 1]) == Elements(s[..i]) + {s[i]}
  {
    assert s[..i + 1] == s[..i] + [s[i]];
  }

  ghost predicate Distinct<T>(s: seq<T>) {
    forall i, j :: 0 <= i < j < |s| ==> s[i] != s[j]
  }

  lemma DistinctIndex<T>(s: seq<T>, i: nat, j: nat)
    requires Distinct(s) && i < |s| && j < |s| && s[i] == s[j]
    ensures i == j
  {
  }

  lemma DistinctSnoc<T>(s: seq<T>, x: T)
    requires Distinct(s) && x !in s
    ensures Distinct(s + [x]) && forall y :: y in s + [x] <==> y in s || y == x
  {
  }

  lemma DistinctPrefix<T>(s: seq<T>, i: nat)
    requires Distinct(s) && i < |s|
    ensures s[i] in s && s[i] !in Elements(s[..i])
  {
  }

  lemma {:induction false} DistinctCount<T>(s: seq<T>)
    requires Distinct(s)
    ensures |Elements(s)| == |s|
  {
    if s != [] {
      var t, x := s[..|s| - 1], s[|s| - 1];
      DistinctCount(t);
      assert Elements(s) == Elements(t) + {x};
    }
  }

  lemma {:induction false} CountDistinct<T>(s: seq<T>)
    requires |Elements(s)| == |s|
    ensures Distinct(s)
  {
    if s != [] {
      var t, x := s[..|s| - 1], s[|s| - 1];
      assert Elements(s) == Elements(t) + {x};
      SetOfSeqCount(t);
      CountDistinct(t);
      assert x !in Elements(t);
    }
  }

  lemma {:induction false} SubsetCount<T>(a: set<T>, b: set<T>)
    requires a <= b
    ensures |a| <= |b|
  {
    assert b == a + (b - a);
  }

  /** Pigeonhole: a sequence longer than the set it draws from repeats an element. */
  lemma Pigeonhole<T>(s: seq<T>, pool: set<T>) returns (i: nat, j: nat)
    requires |s| > |pool| && forall x :: x in s ==> x in pool
    ensures i < j < |s| && s[i] == s[j]
  {
    if Distinct(s) {
      DistinctCount(s);
      SubsetCount(Elements(s), pool);
      assert false;
    }
    i, j :| 0 <= i < j < |s| && s[i] == s[j];
  }

  lemma {:induction false} SetOfSeqCount<T>(s: seq<T>)
    ensures |Elements(s)| <= |s|
  {
    if s != [] {
      var t, x := s[..|s| - 1], s[|s| - 1];
      SetOfSeqCount(t);
      assert Elements(s) == Elements(t) + {x};
    }
  }

  lemma {:induction false} FilterCount<T>(s: seq<T>, p: T -> bool, x: T)
    ensures multiset(Filter(s, p))[x] == if p(x) then multiset(s)[x] else 0
  {
    if s != [] {
      var t, y := s[..|s| - 1], s[|s| - 1];
      FilterCount(t, p, x);
      assert s == t + [y];
    }
  }

  // ----- counting a relation both ways

  function Row<A, B>(rel: (A, B) -> bool, a: A): B -> bool {
    (b: B) => rel(a, b)
  }

  function Column<A, B>(rel: (A, B) -> bool, b: B): A -> bool {
    (a: A) => rel(a, b)
  }

  /** How many pairs are related, added up over the first components. */
  function RowSum<A, B>(rows: seq<A>, columns: seq<B>, rel: (A, B) -> bool): nat {
    if rows == [] then 0 else RowSum(rows[..|rows| - 1], columns, rel) + |Filter(columns, Row(rel, rows[|rows| - 1]))|
  }

  /** The same, added up over the second components. */
  function ColumnSum<A, B>(rows: seq<A>, columns: seq<B>, rel: (A, B) -> bool): nat {
    if columns == [] then 0 else ColumnSum(rows, columns[..|columns| - 1], rel) + |Filter(rows, Column(rel, columns[|columns| - 1]))|
  }

  lemma {:induction false} DoubleCount<A, B>(rows: seq<A>, columns: seq<B>, rel: (A, B) -> bool)
    ensures RowSum(rows, columns, rel) == ColumnSum(rows, columns, rel)
  {
    if rows == [] {
      NoRows(columns, rel);
    } else {
      DoubleCount(rows[..|rows| - 1], columns, rel);
      AddRow(rows[..|rows| - 1], rows[|rows| - 1], columns, rel);
      SplitLast(rows);
    }
  }

  lemma {:induction false} NoRows<A, B>(columns: seq<B>, rel: (A, B) -> bool)
    ensures ColumnSum([], columns, rel) == 0
  {
    if columns != [] { NoRows(columns[..|columns| - 1], rel); }
  }

  lemma {:induction false} AddRow<A, B>(rows: seq<A>, a: A, columns: seq<B>, rel: (A, B) -> bool)
    ensures ColumnSum(rows + [a], columns, rel) == ColumnSum(rows, columns, rel) + |Filter(columns, Row(rel, a))|
  {
    if columns != [] {
      var b := columns[|columns| - 1];
      AddRow(rows, a, columns[..|columns| - 1], rel);
      FilterSnoc(rows, a, Column(rel, b));
    }
  }
}

/** The orders Python's `sorted` uses in the modelled code: strings by code point, and pairs of strings. */
module Ordering {
  import opened Seqs

  /** Python's `a < b` on strings. */
  predicate StrLess(a: string, b: string) {
    if a == [] then b != []
    else if b == [] then false
    else if a[0] == b[0] then StrLess(a[1..], b[1..])
    else a[0] < b[0]
  }

  lemma {:induction false} StrLessIrreflexive(a: string)
    ensures !StrLess(a, a)
  {
    if a != [] { StrLessIrreflexive(a[1..]); }
  }

  lemma {:induction false} StrLessTransitive(a: string, b: string, c: string)
    requires StrLess(a, b) && StrLess(b, c)
    ensures StrLess(a, c)
  {
    if a != [] && a[0] == b[0] && b[0] == c[0] { StrLessTransitive(a[1..], b[1..], c[1..]); }
  }

  lemma {:induction false} StrLessTotal(a: string, b: string)
    ensures StrLess(a, b) || a == b || StrLess(b, a)
  {
    if a != [] && b != [] && a[0] == b[0] {
      StrLessTotal(a[1..], b[1..]);
      if a[1..] == b[1..] {
        assert a == [a[0]] + a[1..] == b;
      }
    }
  }

  /** `lt` is a strict order: all that uniqueness of a sorted listing needs. */
  ghost predicate StrictOrder<T(!new)>(lt: (T, T) -> bool) {
    && (forall x :: !lt(x, x))
    && (forall x, y, z :: lt(x, y) && lt(y, z) ==> lt(x, z))
  }

  ghost predicate Ascending<T>(s: seq<T>, lt: (T, T) -> bool) {
    forall i, j :: 0 <= i < j < |s| ==> lt(s[i], s[j])
  }

  /** Two ascending listings of the same elements are the same listing. */
  lemma {:induction false} AscendingUnique<T(!new)>(a: seq<T>, b: seq<T>, lt: (T, T) -> bool)
    requires StrictOrder(lt) && Ascending(a, lt) && Ascending(b, lt)
    requires forall x :: x in a <==> x in b
    ensures a == b
  {
    assert a != [] ==> a[0] in a;
    assert b != [] ==> b[0] in b;
    if a != [] && b != [] {
      assert a[0] == b[0] by {
        assert !lt(a[0], a[0]);
      }
      forall x ensures x in a[1..] <==> x in b[1..] {
        assert x in a[1..] ==> x in a && lt(a[0], x);
        assert x in b[1..] ==> x in b && lt(b[0], x);
      }
      AscendingUnique(a[1..], b[1..], lt);
      assert a == [a[0]] + a[1..];
      assert b == [b[0]] + b[1..];
    }
  }

  lemma StrLessIsStrictOrder()
    ensures StrictOrder(StrLess)
  {
    forall x ensures !StrLess(x, x) { StrLessIrreflexive(x); }
    forall x, y, z | StrLess(x, y) && StrLess(y, z) ensures StrLess(x, z) { StrLessTransitive(x, y, z); }
  }

  /** Insertion into an ascending list; equal keys cannot occur in the uses below. */
  function Insert<T>(x: T, s: seq<T>, lt: (T, T) -> bool): (r: seq<T>)
    ensures multiset(r) == multiset(s) + multiset{x}
  {
    if s == [] then [x]
    else if lt(x, s[0]) then [x] + s
    else
      assert s == [s[0]] + s[1..];
      [s[0]] + Insert(x, s[1..], lt)
  }

  /** Python's `sorted(s)` for elements that `lt` tells apart. */
  function Sort<T>(s: seq<T>, lt: (T, T) -> bool): (r: seq<T>)
    ensures multiset(r) == multiset(s)
  {
    if s == [] then []
    else
      assert s == [s[0]] + s[1..];
      Insert(s[0], Sort(s[1..], lt), lt)
  }

  lemma MembersFollowMultiset<T>(a: seq<T>, b: seq<T>)
    requires multiset(a) == multiset(b)
    ensures forall x :: x in a <==> x in b
  {
    forall x ensures x in a <==> x in b {
      assert x in a <==> x in multiset(a);
      assert x in b <==> x in multiset(b);
    }
  }

  lemma {:induction false} InsertAscending<T(!new)>(x: T, s: seq<T>, lt: (T, T) -> bool)
    requires StrictOrder(lt) && Ascending(s, lt)
    requires forall y :: y in s ==> lt(x, y) || lt(y, x)
    ensures Ascending(Insert(x, s, lt), lt)
  {
    if s == [] || lt(x, s[0]) {
    } else {
      var t := Insert(x, s[1..], lt);
      InsertAscending(x, s[1..], lt);
      MembersFollowMultiset(t, s[1..] + [x]);
      forall y | y in t ensures lt(s[0], y) {
        assert y in s[1..] + [x];
      }
      assert Insert(x, s, lt) == [s[0]] + t;
    }
  }

  ghost predicate Comparable<T>(s: seq<T>, lt: (T, T) -> bool) {
    forall i, j :: 0 <= i < j < |s| ==> lt(s[i], s[j]) || lt(s[j], s[i])
  }

  lemma {:induction false} SortAscending<T(!new)>(s: seq<T>, lt: (T, T) -> bool)
    requires StrictOrder(lt) && Comparable(s, lt)
    ensures Ascending(Sort(s, lt), lt)
    ensures forall x :: x in Sort(s, lt) <==> x in s
  {
    MembersFollowMultiset(Sort(s, lt), s);
    if s != [] {
      SortAscending(s[1..], lt);
      InsertAscending(s[0], Sort(s[1..], lt), lt);
    }
  }

  ghost predicate IsLeast(x: string, names: set<string>) {
    x in names && forall y :: y in names ==> x == y || StrLess(x, y)
  }

  lemma {:induction false} LeastExists(names: set<string>)
    requires names != {}
    ensures exists x :: IsLeast(x, names)
  {
    var p :| p in names;
    if names == {p} {
      assert IsLeast(p, names);
    } else {
      LeastExists(names - {p});
      var q :| IsLeast(q, names - {p});
      StrLessTotal(p, q);
      if StrLess(p, q) {
        forall y | y in names ensures p == y || StrLess(p, y) {
          if y != p && y != q { StrLessTransitive(p, q, y); }
        }
        assert IsLeast(p, names);
      } else {
        assert IsLeast(q, names);
      }
    }
  }

  /** Python's `min` of a set of strings. */
  function Least(names: set<string>): (x: string)
    requires names != {}
    ensures IsLeast(x, names)
  {
    LeastExists(names);
    StrLessIsStrictOrder();
    var x :| x in names && forall y :: y in names ==> x == y || StrLess(x, y);
    x
  }

  /** Python's `sorted(names)` for a set of strings. */
  function SortedNames(names: set<string>): (r: seq<string>)
    ensures forall x :: x in r <==> x in names
    ensures |r| == |names|
  {
    if names == {} then []
    else
      var x := Least(names);
      [x] + SortedNames(names - {x})
  }

  lemma {:induction false} SortedNamesAscending(names: set<string>)
    ensures Ascending(SortedNames(names), StrLess)
    ensures Distinct(SortedNames(names))
  {
    StrLessIsStrictOrder();
    if names != {} {
      SortedNamesAscending(names - {Least(names)});
    }
  }

  /** `sorted(names)`, known by what it returns. */
  method Sorted(names: set<string>) returns (r: seq<string>)
    ensures Ascending(r, StrLess) && Distinct(r)
    ensures forall x :: x in r <==> x in names
  {
    r := SortedNames(names);
    SortedNamesAscending(names);
  }
}

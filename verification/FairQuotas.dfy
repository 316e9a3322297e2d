/** Fair quotas per rule, and a round-robin sample over parts whose loop ends only because of them. */
module FairQuotas {
  import opened Seqs
  import opened Ordering

  /** The sum of `m` over some of its keys. */
  ghost function Sum(m: map<string, nat>, names: set<string>): nat
    requires forall n :: n in names ==> n in m
  {
    if names == {} then 0
    else
      var n :| n in names;
      m[n] + Sum(m, names - {n})
  }

  /** The sum of a map's values. */
  ghost function Total(m: map<string, nat>): nat {
    Sum(m, m.Keys)
  }

  lemma {:induction false} SumSplit(m: map<string, nat>, names: set<string>, x: string)
    requires (forall n :: n in names ==> n in m) && x in names
    ensures Sum(m, names) == m[x] + Sum(m, names - {x})
  {
    var n :| n in names && Sum(m, names) == m[n] + Sum(m, names - {n});
    if n != x {
      SumSplit(m, names - {n}, x);
      SumSplit(m, names - {x}, n);
      assert names - {n} - {x} == names - {x} - {n};
    }
  }

  lemma {:induction false} SumBelow(m: map<string, nat>, n: map<string, nat>, names: set<string>)
    requires forall x :: x in names ==> x in m && x in n && m[x] <= n[x]
    ensures Sum(m, names) <= Sum(n, names)
    ensures (forall x :: x in names ==> m[x] == n[x]) ==> Sum(m, names) == Sum(n, names)
  {
    if names != {} {
      var x :| x in names;
      SumSplit(m, names, x);
      SumSplit(n, names, x);
      SumBelow(m, n, names - {x});
    }
  }

  lemma TotalUpdate(m: map<string, nat>, r: string, v: nat)
    requires r in m
    ensures Total(m[r := v]) == Total(m) - m[r] + v
  {
    var n := m[r := v];
    assert n.Keys == m.Keys;
    SumSplit(m, m.Keys, r);
    SumSplit(n, m.Keys, r);
    SumBelow(m, n, m.Keys - {r});
  }

  lemma {:induction false} SumZero(m: map<string, nat>, names: set<string>)
    requires forall x :: x in names ==> x in m && m[x] == 0
    ensures Sum(m, names) == 0
  {
    if names != {} {
      var x :| x in names;
      SumSplit(m, names, x);
      SumZero(m, names - {x});
    }
  }

  function Min(a: int, b: int): int { if a <= b then a else b }

  function Max(a: int, b: int): int { if a >= b then a else b }

  ghost predicate Within(quotas: map<string, nat>, sizes: map<string, nat>) {
    quotas.Keys == sizes.Keys && forall r :: r in quotas ==> quotas[r] <= sizes[r]
  }

  /** Max-min fairness: nobody is more than one ahead of a rule that could still take more. */
  ghost predicate Fair(quotas: map<string, nat>, sizes: map<string, nat>) {
    forall r, s :: r in quotas && s in quotas && s in sizes && quotas[s] < sizes[s] ==> quotas[r] <= quotas[s] + 1
  }

  /** Of two rules, the one later in name order has more only when the earlier one has all its rows. */
  ghost predicate EarlierFirst(quotas: map<string, nat>, sizes: map<string, nat>) {
    forall r, s :: r in quotas && s in quotas && r in sizes && StrLess(r, s) && quotas[r] < quotas[s] ==> quotas[r] == sizes[r]
  }

  /** All open rules stand at the same level and no closed rule stands above it. */
  ghost predicate Level(quotas: map<string, nat>, sizes: map<string, nat>, level: nat) {
    forall r :: r in quotas && r in sizes ==> quotas[r] == Min(sizes[r], level)
  }

  function Open(quotas: map<string, nat>, sizes: map<string, nat>): set<string>
    requires quotas.Keys == sizes.Keys
  {
    set r | r in sizes && quotas[r] < sizes[r]
  }

  /** `n` rules each taking `share`. */
  ghost function Due(n: nat, share: nat): nat {
    if n == 0 then 0 else share + Due(n - 1, share)
  }

  lemma {:induction false} DueIsProduct(n: nat, share: nat)
    ensures Due(n, share) == n * share
  {
    if n > 0 {
      DueIsProduct(n - 1, share);
      assert n * share == share + (n - 1) * share;
    }
  }

  lemma ShareFits(left: nat, n: nat)
    requires left >= n > 0
    ensures left / n >= 1 && Due(n, left / n) <= left
  {
    DueIsProduct(n, left / n);
  }

  /** `max(left // open, 1)`: rich when the whole pass can be served in full. */
  method Share(left: nat, open: nat) returns (share: nat)
    requires left > 0 && open > 0
    ensures share >= 1
    ensures left >= open ==> Due(open, share) <= left
    ensures left < open ==> share == 1
  {
    share := Max(left / open, 1);
    if left >= open { ShareFits(left, open); }
  }

  /** What one rule takes on its turn. */
  function Turn(sizes: map<string, nat>, quotas: map<string, nat>, left: nat, rule: string, share: nat): nat
    requires rule in quotas && rule in sizes && quotas[rule] <= sizes[rule]
  {
    Min(share, Min(sizes[rule] - quotas[rule], left))
  }

  /** The turns of a list of rules, one after the other. */
  ghost function Turns(sizes: map<string, nat>, quotas: map<string, nat>, left: nat, order: seq<string>, share: nat): (map<string, nat>, nat)
    requires Within(quotas, sizes) && forall r :: r in order ==> r in sizes
    decreases |order|
  {
    if order == [] then (quotas, left)
    else
      assert order[0] in order;
      var take := Turn(sizes, quotas, left, order[0], share);
      Turns(sizes, quotas[order[0] := quotas[order[0]] + take], left - take, order[1..], share)
  }

  /** Rules in `order` moved up from `level` by at most `share`, or by as much as they could; others did not move. */
  ghost predicate Moved(before: map<string, nat>, after: map<string, nat>, sizes: map<string, nat>, order: seq<string>,
                        level: nat, share: nat, full: bool)
  {
    && before.Keys == after.Keys == sizes.Keys
    && (forall r :: r in after && r !in order ==> after[r] == before[r])
    && (forall r :: r in after && r in order ==> level <= after[r] <= level + share)
    && (full ==> forall r :: r in after && r in order ==> after[r] == Min(sizes[r], level + share))
  }

  /** A pass moves every open rule up evenly, and in full when the budget allows. */
  lemma {:induction false} TurnsMove(sizes: map<string, nat>, quotas: map<string, nat>, left: nat, order: seq<string>, share: nat, level: nat)
    requires Within(quotas, sizes) && Distinct(order)
    requires forall r :: r in order ==> r in sizes && quotas[r] == level < sizes[r]
    ensures var after := Turns(sizes, quotas, left, order, share).0;
      Within(after, sizes) && Moved(quotas, after, sizes, order, level, share, left >= Due(|order|, share))
    decreases |order|
  {
    if order != [] {
      var rule := order[0];
      assert rule in order;
      var take := Turn(sizes, quotas, left, rule, share);
      var next := quotas[rule := quotas[rule] + take];
      var rest := order[1..];
      RestStays(quotas, rule, quotas[rule] + take, order);
      TurnsMove(sizes, next, left - take, rest, share, level);
      MovedMore(quotas, take, Turns(sizes, next, left - take, rest, share).0, sizes, order, level, share, left);
    }
  }

  lemma RestStays(quotas: map<string, nat>, rule: string, to: nat, order: seq<string>)
    requires order != [] && order[0] == rule && Distinct(order)
    ensures Distinct(order[1..])
    ensures forall r :: r in order <==> r == rule || r in order[1..]
    ensures forall r :: r in order[1..] ==> r != rule && r in order
  {
    assert order == [rule] + order[1..];
  }

  lemma MovedMore(quotas: map<string, nat>, take: nat, after: map<string, nat>, sizes: map<string, nat>, order: seq<string>,
                  level: nat, share: nat, left: nat)
    requires order != [] && Distinct(order) && order[0] in quotas && order[0] in sizes
    requires quotas[order[0]] == level < sizes[order[0]] && take == Min(share, Min(sizes[order[0]] - level, left))
    requires Moved(quotas[order[0] := level + take], after, sizes, order[1..], level, share, left - take >= Due(|order| - 1, share))
    ensures Moved(quotas, after, sizes, order, level, share, left >= Due(|order|, share))
  {
    RestStays(quotas, order[0], level + take, order);
  }

  lemma TurnsUnfold(sizes: map<string, nat>, quotas: map<string, nat>, left: nat, order: seq<string>, i: nat, share: nat)
    requires Within(quotas, sizes) && (forall r :: r in order ==> r in sizes) && i < |order|
    ensures var take := Turn(sizes, quotas, left, order[i], share);
      Turns(sizes, quotas, left, order[i..], share)
      == Turns(sizes, quotas[order[i] := quotas[order[i]] + take], left - take, order[i + 1..], share)
  {
    var tail := order[i..];
    assert tail == [order[i]] + order[i + 1..];
    TurnsStep(sizes, quotas, left, tail, order[i], order[i + 1..], share);
  }

  lemma TurnsStep(sizes: map<string, nat>, quotas: map<string, nat>, left: nat, order: seq<string>, rule: string,
                  rest: seq<string>, share: nat)
    requires order == [rule] + rest && Within(quotas, sizes) && forall r :: r in order ==> r in sizes
    ensures rule in sizes && forall r :: r in rest ==> r in sizes
    ensures var take := Turn(sizes, quotas, left, rule, share);
      Turns(sizes, quotas, left, order, share) == Turns(sizes, quotas[rule := quotas[rule] + take], left - take, rest, share)
  {
    assert rule in order && forall r :: r in rest ==> r in order;
    assert order[1..] == rest;
  }

  /** A pass conserves quotas plus budget. */
  lemma {:induction false} TurnsConserve(sizes: map<string, nat>, quotas: map<string, nat>, left: nat, order: seq<string>, share: nat)
    requires Within(quotas, sizes) && forall r :: r in order ==> r in sizes
    ensures var (after, rest) := Turns(sizes, quotas, left, order, share);
      Total(after) + rest == Total(quotas) + left
    decreases |order|
  {
    if order != [] {
      var rule := order[0];
      assert rule in order;
      var take := Turn(sizes, quotas, left, rule, share);
      TotalUpdate(quotas, rule, quotas[rule] + take);
      TurnsConserve(sizes, quotas[rule := quotas[rule] + take], left - take, order[1..], share);
    }
  }

  /** A pass spends something; one that hands out single rows spends as many as it can. */
  lemma {:induction false} TurnsSpend(sizes: map<string, nat>, quotas: map<string, nat>, left: nat, order: seq<string>, share: nat)
    requires Within(quotas, sizes) && Distinct(order) && share >= 1
    requires forall r :: r in order ==> r in sizes && quotas[r] < sizes[r]
    ensures var rest := Turns(sizes, quotas, left, order, share).1;
      && (if left > 0 && order != [] then rest < left else rest == left)
      && (share == 1 ==> rest == Max(left - |order|, 0))
    decreases |order|
  {
    if order != [] {
      var rule := order[0];
      assert rule in order;
      var take := Turn(sizes, quotas, left, rule, share);
      assert rule !in order[1..];
      TurnsSpend(sizes, quotas[rule := quotas[rule] + take], left - take, order[1..], share);
    }
  }

  /** After a pass that serves everyone in full, or by ones, the quotas are fair again. */
  lemma PassIsFair(before: map<string, nat>, after: map<string, nat>, sizes: map<string, nat>, order: seq<string>,
                   level: nat, share: nat, full: bool)
    requires before.Keys == sizes.Keys && Level(before, sizes, level) && Within(after, sizes)
    requires forall r :: r in order <==> r in Open(before, sizes)
    requires Moved(before, after, sizes, order, level, share, full)
    ensures full ==> Level(after, sizes, level + share)
    ensures full || share == 1 ==> Fair(after, sizes)
  {
  }

  /** The last pass by ones serves the first open rules in name order, as long as the budget lasts. */
  lemma {:induction false} TurnsByOne(sizes: map<string, nat>, quotas: map<string, nat>, left: nat, order: seq<string>, level: nat)
    requires Within(quotas, sizes) && Distinct(order)
    requires forall r :: r in order ==> r in sizes && quotas[r] == level < sizes[r]
    ensures var after := Turns(sizes, quotas, left, order, 1).0;
      && after.Keys == quotas.Keys
      && (forall r :: r in quotas && r !in order ==> after[r] == quotas[r])
      && (forall i :: 0 <= i < |order| ==> order[i] in after && after[order[i]] == level + Min(1, Max(left - i, 0)))
    decreases |order|
  {
    if order != [] {
      var rule := order[0];
      assert rule in order;
      var take := Turn(sizes, quotas, left, rule, 1);
      var rest := order[1..];
      assert forall i :: 0 < i < |order| ==> order[i] == rest[i - 1];
      RestStays(quotas, rule, quotas[rule] + take, order);
      TurnsByOne(sizes, quotas[rule := quotas[rule] + take], left - take, rest, level);
    }
  }

  lemma PlacesFollowNames(order: seq<string>, i: nat, j: nat)
    requires Ascending(order, StrLess) && i < |order| && j < |order| && StrLess(order[i], order[j])
    ensures i < j
  {
    StrLessIsStrictOrder();
    assert !StrLess(order[j], order[i]);
  }

  /** Such a pass leaves what the rules have in name order. */
  lemma ByOneEarlierFirst(before: map<string, nat>, after: map<string, nat>, sizes: map<string, nat>, left: nat,
                          order: seq<string>, level: nat)
    requires before.Keys == sizes.Keys == after.Keys && Level(before, sizes, level)
    requires Ascending(order, StrLess) && forall r :: r in order <==> r in Open(before, sizes)
    requires forall r :: r in before && r !in order ==> after[r] == before[r]
    requires forall i :: 0 <= i < |order| ==> order[i] in after && after[order[i]] == level + Min(1, Max(left - i, 0))
    ensures EarlierFirst(after, sizes)
  {
    forall r, s | r in after && s in after && StrLess(r, s) && after[r] < after[s] ensures after[r] == sizes[r] {
      if r in order && s in order {
        var i :| 0 <= i < |order| && order[i] == r;
        var j :| 0 <= j < |order| && order[j] == s;
        PlacesFollowNames(order, i, j);
      }
    }
  }

  /** The inner loop. */
  method TakeTurns(sizes: map<string, nat>, quotas0: map<string, nat>, left0: nat, order: seq<string>, share: nat)
    returns (quotas: map<string, nat>, left: nat)
    requires Within(quotas0, sizes) && forall r :: r in order ==> r in sizes
    ensures (quotas, left) == Turns(sizes, quotas0, left0, order, share)
  {
    quotas, left := quotas0, left0;
    for i := 0 to |order|
      invariant Within(quotas, sizes)
      invariant Turns(sizes, quotas, left, order[i..], share) == Turns(sizes, quotas0, left0, order, share)
    {
      var take := Turn(sizes, quotas, left, order[i], share);
      TurnsUnfold(sizes, quotas, left, order, i, share);
      quotas := quotas[order[i] := quotas[order[i]] + take];
      left := left - take;
    }
  }

  /**
   One pass over the open rules, each taking at most `share`. If everyone can be served in full the
   level rises by `share`; otherwise the share is one and the budget runs out during the pass.
   */
  method Pass(sizes: map<string, nat>, quotas0: map<string, nat>, left0: nat, ghost level: nat)
    returns (quotas: map<string, nat>, left: nat)
    requires Within(quotas0, sizes) && Level(quotas0, sizes, level)
    requires left0 > 0 && Open(quotas0, sizes) != {}
    ensures Within(quotas, sizes) && left < left0
    ensures Total(quotas) + left == Total(quotas0) + left0
    ensures left > 0 ==> exists l :: Level(quotas, sizes, l)
    ensures Fair(quotas, sizes) && EarlierFirst(quotas, sizes)
  {
    var order := Sorted(Open(quotas0, sizes));
    assert order != [] by {
      var r :| r in Open(quotas0, sizes);
      assert r in order;
    }
    var share := Share(left0, |order|);
    quotas, left := TakeTurns(sizes, quotas0, left0, order, share);
    TurnsMove(sizes, quotas0, left0, order, share, level);
    TurnsConserve(sizes, quotas0, left0, order, share);
    TurnsSpend(sizes, quotas0, left0, order, share);
    PassIsFair(quotas0, quotas, sizes, order, level, share, left0 >= Due(|order|, share));
    if share == 1 {
      TurnsByOne(sizes, quotas0, left0, order, level);
      ByOneEarlierFirst(quotas0, quotas, sizes, left0, order, level);
    }
  }

  lemma {:induction false} SumStrict(m: map<string, nat>, n: map<string, nat>, names: set<string>, x: string)
    requires forall y :: y in names ==> y in m && y in n && m[y] <= n[y]
    requires x in names && m[x] < n[x]
    ensures Sum(m, names) < Sum(n, names)
  {
    SumSplit(m, names, x);
    SumSplit(n, names, x);
    SumBelow(m, n, names - {x});
  }

  /** Quotas with one sum that exceed others somewhere fall short of them somewhere. */
  lemma MoreMeansLess(a: map<string, nat>, b: map<string, nat>, r: string)
    requires a.Keys == b.Keys && Total(a) == Total(b) && r in a && a[r] > b[r]
    ensures exists s :: s in a && a[s] < b[s]
  {
    if forall s :: s in a ==> b[s] <= a[s] { SumStrict(b, a, a.Keys, r); }
  }

  /** Quotas of one sum that are fair and give what is over to the earlier names are the same. */
  lemma QuotasDetermined(a: map<string, nat>, b: map<string, nat>, sizes: map<string, nat>)
    requires Within(a, sizes) && Fair(a, sizes) && EarlierFirst(a, sizes)
    requires Within(b, sizes) && Fair(b, sizes) && EarlierFirst(b, sizes)
    requires Total(a) == Total(b)
    ensures a == b
  {
    forall r | r in a ensures a[r] == b[r] {
      if a[r] > b[r] {
        MoreMeansLess(a, b, r);
        var s :| s in a && a[s] < b[s];
        StrLessTotal(r, s);
      } else if a[r] < b[r] {
        MoreMeansLess(b, a, r);
        var s :| s in b && b[s] < a[s];
        StrLessTotal(r, s);
      }
    }
  }

  /** Quotas per rule, filled evenly until the cap or every rule's rows are used up. */
  method ComputeFairQuotas(sizes: map<string, nat>, cap: int) returns (quotas: map<string, nat>)
    ensures Within(quotas, sizes)
    ensures Total(quotas) == Min(Max(cap, 0), Total(sizes))
    ensures Fair(quotas, sizes) && EarlierFirst(quotas, sizes)
  {
    quotas := map r | r in sizes :: 0;
    var left := cap;
    SumZero(quotas, quotas.Keys);
    assert Level(quotas, sizes, 0);
    while left > 0 && Open(quotas, sizes) != {}
      invariant Within(quotas, sizes) && Fair(quotas, sizes) && EarlierFirst(quotas, sizes)
      invariant cap >= 0 ==> left >= 0 && Total(quotas) + left == cap
      invariant cap < 0 ==> left == cap && Total(quotas) == 0
      invariant left > 0 ==> exists level :: Level(quotas, sizes, level)
      decreases left
    {
      ghost var level :| Level(quotas, sizes, level);
      quotas, left := Pass(sizes, quotas, left, level);
    }
    SumBelow(quotas, sizes, sizes.Keys);
    if left > 0 {
      forall r | r in sizes ensures quotas[r] == sizes[r] {
        assert r !in Open(quotas, sizes);
      }
    }
  }
}

/** The label sheet's sample: rows of each rule, taken in turn from the parts they come from. */
module Sampling {
  import opened Seqs
  import opened Ordering
  import opened FairQuotas

  datatype Row = Row(part: string, rule: string, text: string)

  function PartIs(part: string): Row -> bool {
    (r: Row) => r.part == part
  }

  function RuleIs(rule: string): Row -> bool {
    (r: Row) => r.rule == rule
  }

  type Groups = map<string, seq<Row>>

  /** `groups[k]` lists the rows with key `k`, and every row's key is a group. */
  ghost predicate Grouped(rows: seq<Row>, test: string -> (Row -> bool), groups: Groups) {
    && (forall k :: k in groups ==> groups[k] == Filter(rows, test(k)) && groups[k] != [])
    && (forall k :: Filter(rows, test(k)) != [] ==> k in groups)
  }

  function GroupOf(groups: Groups, k: string): seq<Row> {
    if k in groups then groups[k] else []
  }

  lemma GroupedNext(all: seq<Row>, rows: seq<Row>, row: Row, k: string, test: string -> (Row -> bool), groups: Groups)
    requires all == rows + [row] && Grouped(rows, test, groups) && forall j :: test(j)(row) == (j == k)
    ensures Grouped(all, test, groups[k := GroupOf(groups, k) + [row]])
  {
    var next := groups[k := GroupOf(groups, k) + [row]];
    forall j ensures Filter(all, test(j)) == GroupOf(next, j) && (j in next ==> next[j] != []) {
      OneGroupNext(rows, row, k, test, groups, j);
    }
  }

  lemma OneGroupNext(rows: seq<Row>, row: Row, k: string, test: string -> (Row -> bool), groups: Groups, j: string)
    requires Grouped(rows, test, groups) && test(j)(row) == (j == k)
    ensures var next := groups[k := GroupOf(groups, k) + [row]];
      Filter(rows + [row], test(j)) == GroupOf(next, j) && (j in next ==> next[j] != [])
  {
    assert Filter(rows, test(j)) == GroupOf(groups, j);
    FilterSnoc(rows, row, test(j));
  }

  /** Grouping into a `defaultdict(list)`, by part or by rule. */
  method GroupRows(rows: seq<Row>, key: Row -> string, test: string -> (Row -> bool)) returns (groups: Groups)
    requires forall k, r :: test(k)(r) == (key(r) == k)
    ensures Grouped(rows, test, groups)
  {
    groups := map[];
    for i := 0 to |rows|
      invariant Grouped(rows[..i], test, groups)
    {
      var k := key(rows[i]);
      PrefixGrows(rows, i);
      GroupedNext(rows[..i + 1], rows[..i], rows[i], k, test, groups);
      groups := groups[k := GroupOf(groups, k) + [rows[i]]];
    }
    assert rows[..|rows|] == rows;
  }

  // ----- one round over the parts

  /** `if by_part[part] and len(picked) < quota: picked.append(by_part[part].pop())`. */
  function Pick(rest: Groups, picked: seq<Row>, quota: int, part: string): (Groups, seq<Row>)
    requires part in rest
  {
    var rows := rest[part];
    if rows != [] && |picked| < quota
    then (rest[part := rows[..|rows| - 1]], picked + [rows[|rows| - 1]])
    else (rest, picked)
  }

  ghost function Picks(rest: Groups, picked: seq<Row>, quota: int, parts: seq<string>): (Groups, seq<Row>)
    requires forall p :: p in parts ==> p in rest
    decreases |parts|
  {
    if parts == [] then (rest, picked)
    else
      assert parts[0] in parts;
      var (rest', picked') := Pick(rest, picked, quota, parts[0]);
      Picks(rest', picked', quota, parts[1..])
  }

  function Taken(sizes: map<string, nat>, rest: Groups, part: string): int
    requires part in sizes && part in rest
  {
    sizes[part] - |rest[part]|
  }

  ghost predicate AtLevel(sizes: map<string, nat>, rest: Groups, parts: seq<string>, level: nat) {
    forall p :: p in parts && p in sizes && p in rest ==> Taken(sizes, rest, p) == Min(sizes[p], level)
  }

  /** Every part gave at most one row this round, and exactly one if it could and the quota was not met. */
  ghost predicate Rose(sizes: map<string, nat>, rest: Groups, parts: seq<string>, level: nat, done: bool) {
    && (forall p :: p in parts && p in sizes && p in rest ==>
          Min(sizes[p], level) <= Taken(sizes, rest, p) <= Min(sizes[p], level + 1))
    && (!done ==> AtLevel(sizes, rest, parts, level + 1))
  }

  lemma {:induction false} PicksRise(rest: Groups, picked: seq<Row>, quota: int, parts: seq<string>, sizes: map<string, nat>, level: nat)
    requires sizes.Keys == rest.Keys && (forall p :: p in parts ==> p in rest)
    requires Distinct(parts) && AtLevel(sizes, rest, parts, level) && |picked| <= quota
    ensures var (after, got) := Picks(rest, picked, quota, parts);
      && after.Keys == rest.Keys && |picked| <= |got| <= quota
      && Rose(sizes, after, parts, level, |got| == quota)
      && (forall p :: p in rest && p !in parts ==> after[p] == rest[p])
    decreases |parts|
  {
    if parts != [] {
      assert parts[0] in parts;
      assert parts[0] !in parts[1..];
      var (rest', picked') := Pick(rest, picked, quota, parts[0]);
      assert forall p :: p in parts <==> p == parts[0] || p in parts[1..];
      PicksRise(rest', picked', quota, parts[1..], sizes, level);
    }
  }

  /** A round with an unmet quota and a part that still has rows picks something. */
  lemma {:induction false} PicksProgress(rest: Groups, picked: seq<Row>, quota: int, parts: seq<string>, part: string)
    requires (forall p :: p in parts ==> p in rest) && part in parts && rest[part] != [] && |picked| < quota
    ensures |Picks(rest, picked, quota, parts).1| > |picked|
    decreases |parts|
  {
    assert parts[0] in parts;
    var (rest', picked') := Pick(rest, picked, quota, parts[0]);
    if rest[parts[0]] == [] {
      PicksProgress(rest, picked, quota, parts[1..], part);
    } else {
      PicksGrow(rest', picked', quota, parts[1..]);
    }
  }

  lemma {:induction false} PicksGrow(rest: Groups, picked: seq<Row>, quota: int, parts: seq<string>)
    requires forall p :: p in parts ==> p in rest
    ensures |Picks(rest, picked, quota, parts).1| >= |picked|
    decreases |parts|
  {
    if parts != [] {
      assert parts[0] in parts;
      var (rest', picked') := Pick(rest, picked, quota, parts[0]);
      PicksGrow(rest', picked', quota, parts[1..]);
    }
  }

  lemma {:induction false} PicksDone(rest: Groups, picked: seq<Row>, quota: int, parts: seq<string>)
    requires (forall p :: p in parts ==> p in rest) && |picked| >= quota
    ensures Picks(rest, picked, quota, parts) == (rest, picked)
    decreases |parts|
  {
    if parts != [] {
      assert parts[0] in parts;
      PicksDone(rest, picked, quota, parts[1..]);
    }
  }

  /** If a part reached the new level, the parts before it did, or have no rows left. */
  ghost predicate Served(sizes: map<string, nat>, rest: Groups, parts: seq<string>, level: nat) {
    forall i, j :: 0 <= i < j < |parts| && parts[i] in sizes && parts[j] in sizes && parts[i] in rest && parts[j] in rest ==>
      Taken(sizes, rest, parts[j]) <= level || Taken(sizes, rest, parts[i]) == Min(sizes[parts[i]], level + 1)
  }

  lemma ServedMore(sizes: map<string, nat>, rest: Groups, first: string, tail: seq<string>, level: nat)
    requires Served(sizes, rest, tail, level) && first in sizes && first in rest
    requires (exists q :: q in tail && q in sizes && q in rest && Taken(sizes, rest, q) > level) ==>
      Taken(sizes, rest, first) == Min(sizes[first], level + 1)
    ensures Served(sizes, rest, [first] + tail, level)
  {
    var parts := [first] + tail;
    assert forall j :: 0 < j < |parts| ==> parts[j] == tail[j - 1] && parts[j] in tail;
  }

  lemma PickServes(rest: Groups, picked: seq<Row>, quota: int, first: string, tail: seq<string>, sizes: map<string, nat>, level: nat)
    requires sizes.Keys == rest.Keys && first in rest && first !in tail && (forall p :: p in tail ==> p in rest)
    requires AtLevel(sizes, rest, [first], level) && AtLevel(sizes, rest, tail, level) && |picked| < quota
    ensures var (rest', picked') := Pick(rest, picked, quota, first);
      && rest'.Keys == rest.Keys && |picked'| <= quota && AtLevel(sizes, rest', tail, level)
      && Taken(sizes, rest', first) == Min(sizes[first], level + 1)
  {
    assert first in [first];
  }

  lemma {:induction false} PicksServe(rest: Groups, picked: seq<Row>, quota: int, parts: seq<string>, sizes: map<string, nat>, level: nat)
    requires sizes.Keys == rest.Keys && (forall p :: p in parts ==> p in rest)
    requires Distinct(parts) && AtLevel(sizes, rest, parts, level) && |picked| <= quota
    ensures Served(sizes, Picks(rest, picked, quota, parts).0, parts, level)
    decreases |parts|
  {
    if |picked| == quota {
      PicksDone(rest, picked, quota, parts);
      assert forall j :: 0 <= j < |parts| ==> parts[j] in parts;
    } else if parts != [] {
      var first, tail := parts[0], parts[1..];
      assert parts == [first] + tail;
      assert first in parts && first !in tail && Distinct(tail) && forall p :: p in tail ==> p in parts;
      PickServes(rest, picked, quota, first, tail, sizes, level);
      var (rest', picked') := Pick(rest, picked, quota, first);
      PicksServe(rest', picked', quota, tail, sizes, level);
      PicksRise(rest', picked', quota, tail, sizes, level);
      ServedMore(sizes, Picks(rest', picked', quota, tail).0, first, tail, level);
    }
  }

  // ----- no row is lost or reused

  /** What was picked and what is left of its part account for every row, and rows stay in their part. */
  ghost predicate Conserved(rows: seq<Row>, rest: Groups, picked: seq<Row>) {
    && (forall p, r :: p in rest && r in rest[p] ==> r.part == p)
    && (forall r :: r in picked ==> r.part in rest)
    && (forall r: Row :: r.part in rest ==> multiset(picked)[r] + multiset(rest[r.part])[r] == multiset(rows)[r])
  }

  lemma PickConserves(rows: seq<Row>, rest: Groups, picked: seq<Row>, quota: int, part: string)
    requires Conserved(rows, rest, picked) && part in rest
    ensures var (rest', picked') := Pick(rest, picked, quota, part);
      Conserved(rows, rest', picked') && rest'.Keys == rest.Keys
  {
    var left := rest[part];
    if left != [] {
      SplitLast(left);
      MoveConserves(rows, rest, picked, part, left[..|left| - 1], left[|left| - 1]);
    }
  }

  lemma MoveConserves(rows: seq<Row>, rest: Groups, picked: seq<Row>, part: string, left: seq<Row>, x: Row)
    requires Conserved(rows, rest, picked) && part in rest && rest[part] == left + [x]
    ensures Conserved(rows, rest[part := left], picked + [x])
  {
    assert x in rest[part];
    assert multiset(left + [x]) == multiset(left) + multiset{x};
    assert multiset(picked + [x]) == multiset(picked) + multiset{x};
  }

  lemma {:induction false} PicksConserve(rows: seq<Row>, rest: Groups, picked: seq<Row>, quota: int, parts: seq<string>)
    requires Conserved(rows, rest, picked) && forall p :: p in parts ==> p in rest
    ensures var (rest', picked') := Picks(rest, picked, quota, parts); Conserved(rows, rest', picked')
    decreases |parts|
  {
    if parts != [] {
      assert parts[0] in parts;
      PickConserves(rows, rest, picked, quota, parts[0]);
      var (rest', picked') := Pick(rest, picked, quota, parts[0]);
      PicksConserve(rows, rest', picked', quota, parts[1..]);
    }
  }

  lemma NoRowReused(rows: seq<Row>, rest: Groups, picked: seq<Row>)
    requires Conserved(rows, rest, picked)
    ensures multiset(picked) <= multiset(rows)
  {
    forall r: Row ensures multiset(picked)[r] <= multiset(rows)[r] {
      assert r in picked ==> r.part in rest;
    }
  }

  lemma NothingLeft(rows: seq<Row>, rest: Groups, picked: seq<Row>)
    requires Conserved(rows, rest, picked) && forall r :: r in rows ==> r.part in rest
    requires forall p :: p in rest ==> rest[p] == []
    ensures |picked| == |rows|
  {
    forall r: Row ensures multiset(picked)[r] == multiset(rows)[r] {
      assert r.part in rest ==> multiset(rest[r.part])[r] == 0;
      assert r in picked || r in rows ==> r.part in rest;
    }
    assert multiset(picked) == multiset(rows);
    assert |multiset(picked)| == |picked| && |multiset(rows)| == |rows|;
  }

  // ----- which rows are picked

  /** `mine` was taken off the end of `all`, one row after the other, and `left` is what remains. */
  predicate Popped(all: seq<Row>, left: seq<Row>, mine: seq<Row>) {
    && |left| + |mine| == |all| && left == all[..|left|]
    && forall k :: 0 <= k < |mine| ==> mine[k] == all[|all| - 1 - k]
  }

  ghost predicate AllPopped(start: Groups, rest: Groups, picked: seq<Row>) {
    && start.Keys == rest.Keys
    && (forall p, r :: p in rest && r in rest[p] ==> r.part == p)
    && forall p :: p in rest ==> Popped(start[p], rest[p], Filter(picked, PartIs(p)))
  }

  lemma PopOne(all: seq<Row>, left: seq<Row>, mine: seq<Row>)
    requires Popped(all, left, mine) && left != []
    ensures Popped(all, left[..|left| - 1], mine + [left[|left| - 1]])
  {
  }

  lemma OnePopped(start: Groups, rest: Groups, picked: seq<Row>, left: seq<Row>, x: Row, p: string)
    requires AllPopped(start, rest, picked) && x.part in rest && rest[x.part] == left + [x] && p in rest
    ensures Popped(start[p], rest[x.part := left][p], Filter(picked + [x], PartIs(p)))
  {
    FilterSnoc(picked, x, PartIs(p));
    if p == x.part { PopOne(start[p], rest[p], Filter(picked, PartIs(p))); }
  }

  lemma PickPops(start: Groups, rest: Groups, picked: seq<Row>, quota: int, part: string)
    requires AllPopped(start, rest, picked) && part in rest
    ensures var (rest', picked') := Pick(rest, picked, quota, part); AllPopped(start, rest', picked')
  {
    if rest[part] != [] && |picked| < quota {
      SplitLast(rest[part]);
      var left, x := rest[part][..|rest[part]| - 1], rest[part][|rest[part]| - 1];
      forall p | p in rest ensures Popped(start[p], rest[part := left][p], Filter(picked + [x], PartIs(p))) {
        OnePopped(start, rest, picked, left, x, p);
      }
    }
  }

  lemma {:induction false} PicksPop(start: Groups, rest: Groups, picked: seq<Row>, quota: int, parts: seq<string>)
    requires AllPopped(start, rest, picked) && forall p :: p in parts ==> p in rest
    ensures var (rest', picked') := Picks(rest, picked, quota, parts); AllPopped(start, rest', picked')
    decreases |parts|
  {
    if parts != [] {
      assert parts[0] in parts;
      PickPops(start, rest, picked, quota, parts[0]);
      var (rest', picked') := Pick(rest, picked, quota, parts[0]);
      PicksPop(start, rest', picked', quota, parts[1..]);
    }
  }

  // ----- sampling one rule

  /** Parts differ by at most one row, unless the one behind has no rows left. */
  ghost predicate Balanced(rows: seq<Row>, picked: seq<Row>) {
    forall p, q :: |Filter(picked, PartIs(q))| < |Filter(rows, PartIs(q))| ==>
      |Filter(picked, PartIs(p))| <= |Filter(picked, PartIs(q))| + 1
  }

  ghost function Sizes(rows: seq<Row>, parts: set<string>): map<string, nat> {
    map p | p in parts :: |Filter(rows, PartIs(p))|
  }

  lemma CountsFromRest(rows: seq<Row>, rest: Groups, picked: seq<Row>, p: string)
    requires Conserved(rows, rest, picked) && forall r :: r in rows ==> r.part in rest
    ensures p in rest ==> |Filter(picked, PartIs(p))| == Taken(Sizes(rows, rest.Keys), rest, p)
    ensures p !in rest ==> Filter(picked, PartIs(p)) == [] && Filter(rows, PartIs(p)) == []
  {
    if p in rest {
      var got, all := multiset(Filter(picked, PartIs(p))), multiset(Filter(rows, PartIs(p)));
      forall r: Row ensures got[r] + multiset(rest[p])[r] == all[r] {
        FilterCount(picked, PartIs(p), r);
        FilterCount(rows, PartIs(p), r);
        assert r.part != p ==> r !in rest[p];
      }
      assert got + multiset(rest[p]) == all;
      assert |got| + |multiset(rest[p])| == |all|;
    } else {
      FilterNone(picked, PartIs(p));
      FilterNone(rows, PartIs(p));
    }
  }

  lemma PairBalanced(rows: seq<Row>, rest: Groups, picked: seq<Row>, parts: seq<string>, level: nat, done: bool, p: string, q: string)
    requires Conserved(rows, rest, picked)
    requires forall p :: p in parts <==> p in rest
    requires forall r :: r in rows ==> r.part in rest
    requires Rose(Sizes(rows, rest.Keys), rest, parts, level, done)
    ensures |Filter(picked, PartIs(q))| < |Filter(rows, PartIs(q))| ==>
      |Filter(picked, PartIs(p))| <= |Filter(picked, PartIs(q))| + 1
  {
    CountsFromRest(rows, rest, picked, p);
    CountsFromRest(rows, rest, picked, q);
  }

  lemma RoseIsBalanced(rows: seq<Row>, rest: Groups, picked: seq<Row>, parts: seq<string>, level: nat, done: bool)
    requires Conserved(rows, rest, picked)
    requires forall p :: p in parts <==> p in rest
    requires forall r :: r in rows ==> r.part in rest
    requires Rose(Sizes(rows, rest.Keys), rest, parts, level, done)
    ensures Balanced(rows, picked)
  {
    forall p, q ensures |Filter(picked, PartIs(q))| < |Filter(rows, PartIs(q))| ==>
      |Filter(picked, PartIs(p))| <= |Filter(picked, PartIs(q))| + 1
    {
      PairBalanced(rows, rest, picked, parts, level, done, p, q);
    }
  }

  /** Of two parts, the one later in name order gave more only when the earlier one gave all its rows. */
  ghost predicate PartsInOrder(rows: seq<Row>, picked: seq<Row>) {
    forall p, q :: StrLess(p, q) && |Filter(picked, PartIs(p))| < |Filter(picked, PartIs(q))| ==>
      |Filter(picked, PartIs(p))| == |Filter(rows, PartIs(p))|
  }

  lemma BehindIsEmpty(sizes: map<string, nat>, rest: Groups, parts: seq<string>, level: nat, p: string, q: string)
    requires Ascending(parts, StrLess) && StrLess(p, q)
    requires p in parts && p in sizes && p in rest && q in parts && q in sizes && q in rest
    requires Served(sizes, rest, parts, level) && Rose(sizes, rest, parts, level, true)
    requires Taken(sizes, rest, p) < Taken(sizes, rest, q)
    ensures Taken(sizes, rest, p) == sizes[p]
  {
    var i :| 0 <= i < |parts| && parts[i] == p;
    var j :| 0 <= j < |parts| && parts[j] == q;
    PlacesFollowNames(parts, i, j);
  }

  lemma PairInOrder(rows: seq<Row>, rest: Groups, picked: seq<Row>, parts: seq<string>, level: nat, p: string, q: string)
    requires Conserved(rows, rest, picked) && Ascending(parts, StrLess)
    requires forall p :: p in parts <==> p in rest
    requires forall r :: r in rows ==> r.part in rest
    requires Served(Sizes(rows, rest.Keys), rest, parts, level)
    requires Rose(Sizes(rows, rest.Keys), rest, parts, level, true)
    requires StrLess(p, q) && |Filter(picked, PartIs(p))| < |Filter(picked, PartIs(q))|
    ensures |Filter(picked, PartIs(p))| == |Filter(rows, PartIs(p))|
  {
    CountsFromRest(rows, rest, picked, p);
    CountsFromRest(rows, rest, picked, q);
    if p in rest {
      BehindIsEmpty(Sizes(rows, rest.Keys), rest, parts, level, p, q);
    }
  }

  lemma RoundInOrder(rows: seq<Row>, rest: Groups, picked: seq<Row>, parts: seq<string>, quota: nat, level: nat)
    requires Sampled(rows, rest, picked, parts, quota, level) && |picked| < quota && Ascending(parts, StrLess)
    ensures PartsInOrder(rows, Picks(rest, picked, quota, parts).1)
  {
    var (rest', picked') := Picks(rest, picked, quota, parts);
    var sizes := Sizes(rows, rest.Keys);
    PicksConserve(rows, rest, picked, quota, parts);
    PicksRise(rest, picked, quota, parts, sizes, level);
    PicksServe(rest, picked, quota, parts, sizes, level);
    forall p, q | StrLess(p, q) && |Filter(picked', PartIs(p))| < |Filter(picked', PartIs(q))|
      ensures |Filter(picked', PartIs(p))| == |Filter(rows, PartIs(p))|
    {
      PairInOrder(rows, rest', picked', parts, level, p, q);
    }
  }

  /** The rows taken of every part are the last ones of that part as it was shuffled. */
  ghost predicate TakenFromEnd(rows: seq<Row>, picked: seq<Row>, shuffle: (string, seq<Row>) -> seq<Row>) {
    forall p ::
      var mine, all := Filter(picked, PartIs(p)), shuffle(p, Filter(rows, PartIs(p)));
      |mine| <= |all| && Popped(all, all[..|all| - |mine|], mine)
  }

  lemma PoppedFromEnd(rows: seq<Row>, groups: Groups, start: Groups, rest: Groups, picked: seq<Row>,
                      shuffle: (string, seq<Row>) -> seq<Row>)
    requires Grouped(rows, PartIs, groups) && start == (map p | p in groups :: shuffle(p, groups[p]))
    requires AllPopped(start, rest, picked) && (forall r :: r in picked ==> r.part in rest)
    ensures TakenFromEnd(rows, picked, shuffle)
  {
    forall p ensures var mine, all := Filter(picked, PartIs(p)), shuffle(p, Filter(rows, PartIs(p)));
      |mine| <= |all| && Popped(all, all[..|all| - |mine|], mine)
    {
      if p !in groups { FilterNone(picked, PartIs(p)); }
    }
  }

  /** One pass over the parts in name order. */
  method Round(rest0: Groups, picked0: seq<Row>, quota: int, parts: seq<string>)
    returns (rest: Groups, picked: seq<Row>)
    requires forall p :: p in parts ==> p in rest0
    ensures (rest, picked) == Picks(rest0, picked0, quota, parts)
  {
    rest, picked := rest0, picked0;
    for i := 0 to |parts|
      invariant forall p :: p in parts ==> p in rest
      invariant Picks(rest, picked, quota, parts[i..]) == Picks(rest0, picked0, quota, parts)
    {
      assert parts[i..][1..] == parts[i + 1..];
      rest, picked := Pick(rest, picked, quota, parts[i]).0, Pick(rest, picked, quota, parts[i]).1;
    }
  }

  /** `rng.shuffle` of every part's rows. */
  ghost predicate Shuffles(shuffle: (string, seq<Row>) -> seq<Row>) {
    forall p, s :: multiset(shuffle(p, s)) == multiset(s)
  }

  lemma StartConserved(rows: seq<Row>, groups: Groups, rest: Groups)
    requires Grouped(rows, PartIs, groups) && rest.Keys == groups.Keys
    requires forall p :: p in rest ==> multiset(rest[p]) == multiset(groups[p])
    ensures Conserved(rows, rest, [])
    ensures forall r :: r in rows ==> r.part in rest
    ensures forall p :: p in rest ==> |rest[p]| == |groups[p]|
  {
    forall r | r in rows ensures r.part in rest {
      assert r in Filter(rows, PartIs(r.part));
    }
    forall p | p in rest ensures |rest[p]| == |groups[p]| && forall r :: r in rest[p] ==> r.part == p {
      assert |multiset(rest[p])| == |multiset(groups[p])|;
      MembersFollowMultiset(rest[p], groups[p]);
    }
    forall r: Row | r.part in rest ensures multiset(rest[r.part])[r] == multiset(rows)[r] {
      FilterCount(rows, PartIs(r.part), r);
    }
  }

  lemma StartLevel(rows: seq<Row>, groups: Groups, rest: Groups, parts: seq<string>)
    requires Grouped(rows, PartIs, groups) && rest.Keys == groups.Keys
    requires forall p :: p in rest ==> |rest[p]| == |groups[p]|
    ensures AtLevel(Sizes(rows, rest.Keys), rest, parts, 0) && Balanced(rows, [])
  {
  }

  /** What holds between rounds. */
  ghost predicate Sampled(rows: seq<Row>, rest: Groups, picked: seq<Row>, parts: seq<string>, quota: nat, level: nat) {
    && Conserved(rows, rest, picked) && |picked| <= quota
    && (forall p :: p in parts <==> p in rest) && Distinct(parts)
    && (forall r :: r in rows ==> r.part in rest)
    && (|picked| < quota ==> AtLevel(Sizes(rows, rest.Keys), rest, parts, level))
  }

  lemma RoundPicks(rows: seq<Row>, rest: Groups, picked: seq<Row>, parts: seq<string>, quota: nat, level: nat)
    requires Sampled(rows, rest, picked, parts, quota, level) && |picked| < quota <= |rows|
    ensures |Picks(rest, picked, quota, parts).1| > |picked|
  {
    if forall p :: p in rest ==> rest[p] == [] { NothingLeft(rows, rest, picked); }
    var p :| p in rest && rest[p] != [];
    PicksProgress(rest, picked, quota, parts, p);
  }

  lemma RoundKeeps(rows: seq<Row>, rest: Groups, picked: seq<Row>, parts: seq<string>, quota: nat, level: nat)
    requires Sampled(rows, rest, picked, parts, quota, level) && |picked| < quota
    ensures var (rest', picked') := Picks(rest, picked, quota, parts);
      Sampled(rows, rest', picked', parts, quota, level + 1) && Balanced(rows, picked')
  {
    var (rest', picked') := Picks(rest, picked, quota, parts);
    PicksConserve(rows, rest, picked, quota, parts);
    PicksRise(rest, picked, quota, parts, Sizes(rows, rest.Keys), level);
    RoseIsBalanced(rows, rest', picked', parts, level, |picked'| == quota);
  }

  /** What the loop keeps. */
  ghost predicate Going(rows: seq<Row>, start: Groups, rest: Groups, picked: seq<Row>, parts: seq<string>, quota: nat, level: nat) {
    && Sampled(rows, rest, picked, parts, quota, level) && Ascending(parts, StrLess)
    && Balanced(rows, picked) && PartsInOrder(rows, picked) && AllPopped(start, rest, picked)
  }

  lemma NothingPicked(rows: seq<Row>, rest: Groups)
    requires forall p, r :: p in rest && r in rest[p] ==> r.part == p
    ensures PartsInOrder(rows, []) && AllPopped(rest, rest, [])
  {
    forall p ensures Filter([], PartIs(p)) == [] {
    }
  }

  lemma StartsGoing(rows: seq<Row>, groups: Groups, rest: Groups, parts: seq<string>, quota: nat)
    requires Grouped(rows, PartIs, groups) && rest.Keys == groups.Keys
    requires forall p :: p in rest ==> multiset(rest[p]) == multiset(groups[p])
    requires Ascending(parts, StrLess) && Distinct(parts) && forall p :: p in parts <==> p in groups
    ensures Going(rows, rest, rest, [], parts, quota, 0)
  {
    StartConserved(rows, groups, rest);
    StartLevel(rows, groups, rest, parts);
    NothingPicked(rows, rest);
  }

  lemma RoundGoesOn(rows: seq<Row>, start: Groups, rest: Groups, picked: seq<Row>, parts: seq<string>, quota: nat, level: nat)
    requires Going(rows, start, rest, picked, parts, quota, level) && |picked| < quota <= |rows|
    ensures var (rest', picked') := Picks(rest, picked, quota, parts);
      |picked'| > |picked| && Going(rows, start, rest', picked', parts, quota, level + 1)
  {
    RoundPicks(rows, rest, picked, parts, quota, level);
    RoundKeeps(rows, rest, picked, parts, quota, level);
    RoundInOrder(rows, rest, picked, parts, quota, level);
    PicksPop(start, rest, picked, quota, parts);
  }

  /** The rounds, until the quota is picked. */
  method Rounds(rows: seq<Row>, rest0: Groups, parts: seq<string>, quota: nat) returns (picked: seq<Row>, rest: Groups)
    requires Going(rows, rest0, rest0, [], parts, quota, 0) && quota <= |rows|
    ensures |picked| == quota && exists level :: Going(rows, rest0, rest, picked, parts, quota, level)
  {
    picked, rest := [], rest0;
    ghost var level := 0;
    while |picked| < quota
      invariant Going(rows, rest0, rest, picked, parts, quota, level)
      decreases quota - |picked|
    {
      RoundGoesOn(rows, rest0, rest, picked, parts, quota, level);
      rest, picked := Round(rest, picked, quota, parts);
      level := level + 1;
    }
  }

  /**
   Picks exactly the quota, reusing no row, with parts balanced within one unless exhausted and what is
   over given to the earlier names. The rounds end because the quota is at most the number of rows;
   beyond that the source never stops.
   */
  method SampleRule(rows: seq<Row>, quota: nat, shuffle: (string, seq<Row>) -> seq<Row>) returns (picked: seq<Row>)
    requires Shuffles(shuffle) && quota <= |rows|
    ensures |picked| == quota && multiset(picked) <= multiset(rows)
    ensures Balanced(rows, picked) && PartsInOrder(rows, picked)
    ensures TakenFromEnd(rows, picked, shuffle)
  {
    var byPart := GroupRows(rows, (r: Row) => r.part, PartIs);
    var start: Groups := map p | p in byPart :: shuffle(p, byPart[p]);
    var parts := Sorted(byPart.Keys);
    StartsGoing(rows, byPart, start, parts, quota);
    var rest;
    picked, rest := Rounds(rows, start, parts, quota);
    NoRowReused(rows, rest, picked);
    PoppedFromEnd(rows, byPart, start, rest, picked, shuffle);
  }

  // ----- the label sheet

  ghost predicate SampledFor(rows: seq<Row>, chosen: seq<Row>, rule: string, quota: nat) {
    var mine, all := Filter(chosen, RuleIs(rule)), Filter(rows, RuleIs(rule));
    |mine| == quota && multiset(mine) <= multiset(all) && Balanced(all, mine) && PartsInOrder(all, mine)
  }

  lemma {:induction false} RowsByRule(rows: seq<Row>, rules: set<string>, sizes: map<string, nat>)
    requires forall r :: r in rows ==> r.rule in rules
    requires sizes.Keys == rules && forall k :: k in rules ==> sizes[k] == |Filter(rows, RuleIs(k))|
    ensures Sum(sizes, rules) == |rows|
  {
    if rows == [] {
      SumZero(sizes, rules);
    } else {
      var t, x := rows[..|rows| - 1], rows[|rows| - 1];
      assert rows == t + [x];
      var before := sizes[x.rule := |Filter(t, RuleIs(x.rule))|];
      RowsByRule(t, rules, before);
      SumSplit(sizes, rules, x.rule);
      SumSplit(before, rules, x.rule);
      SumBelow(before, sizes, rules - {x.rule});
    }
  }

  lemma AddSample(chosen: seq<Row>, sample: seq<Row>, rule: string, other: string)
    requires forall r :: r in chosen ==> r.rule != rule
    requires forall r :: r in sample ==> r.rule == rule
    ensures Filter(chosen + sample, RuleIs(other)) == if other == rule then sample else Filter(chosen, RuleIs(other))
  {
    FilterAppend(chosen, sample, RuleIs(other));
    if other == rule {
      FilterNone(chosen, RuleIs(other));
      FilterAll(sample, RuleIs(other));
    } else {
      FilterNone(sample, RuleIs(other));
    }
  }

  ghost predicate Chosen(rows: seq<Row>, chosen: seq<Row>, quotas: map<string, nat>, done: set<string>) {
    && (forall k :: k in done ==> k in quotas && SampledFor(rows, chosen, k, quotas[k]))
    && (forall r :: r in chosen ==> r.rule in done)
    && |chosen| == Sum(quotas, set k | k in done && k in quotas)
  }

  lemma SampleIsOfRule(rows: seq<Row>, sample: seq<Row>, rule: string)
    requires multiset(sample) <= multiset(Filter(rows, RuleIs(rule)))
    ensures forall r :: r in sample ==> r.rule == rule
  {
    forall r | r in sample ensures r.rule == rule {
      assert r in multiset(sample);
      assert r in Filter(rows, RuleIs(rule));
    }
  }

  lemma SumOfOneMore(quotas: map<string, nat>, done: set<string>, rule: string)
    requires rule in quotas && rule !in done
    ensures Sum(quotas, set k | k in done + {rule} && k in quotas) == Sum(quotas, set k | k in done && k in quotas) + quotas[rule]
  {
    var names := set k | k in done + {rule} && k in quotas;
    SumSplit(quotas, names, rule);
    assert names - {rule} == set k | k in done && k in quotas;
  }

  lemma ChooseOne(rows: seq<Row>, chosen: seq<Row>, sample: seq<Row>, quotas: map<string, nat>, done: set<string>, rule: string)
    requires Chosen(rows, chosen, quotas, done) && rule in quotas && rule !in done
    requires |sample| == quotas[rule] && multiset(sample) <= multiset(Filter(rows, RuleIs(rule)))
    requires Balanced(Filter(rows, RuleIs(rule)), sample) && PartsInOrder(Filter(rows, RuleIs(rule)), sample)
    ensures Chosen(rows, chosen + sample, quotas, done + {rule})
  {
    SampleIsOfRule(rows, sample, rule);
    forall k | k in done + {rule} ensures k in quotas && SampledFor(rows, chosen + sample, k, quotas[k]) {
      AddSample(chosen, sample, rule, k);
      assert k != rule ==> SampledFor(rows, chosen, k, quotas[k]);
    }
    SumOfOneMore(quotas, done, rule);
  }

  lemma NoRowTwice(rows: seq<Row>, chosen: seq<Row>, quotas: map<string, nat>, done: set<string>)
    requires Chosen(rows, chosen, quotas, done)
    ensures multiset(chosen) <= multiset(rows)
  {
    forall r: Row ensures multiset(chosen)[r] <= multiset(rows)[r] {
      if r in chosen {
        assert SampledFor(rows, chosen, r.rule, quotas[r.rule]);
        FilterCount(chosen, RuleIs(r.rule), r);
        FilterCount(rows, RuleIs(r.rule), r);
      }
    }
  }

  method RuleSizes(rows: seq<Row>) returns (byRule: Groups, sizes: map<string, nat>)
    ensures Grouped(rows, RuleIs, byRule) && sizes.Keys == byRule.Keys
    ensures sizes == map k | k in byRule :: |Filter(rows, RuleIs(k))|
    ensures forall r :: r in rows ==> r.rule in byRule
    ensures Total(sizes) == |rows|
  {
    byRule := GroupRows(rows, (r: Row) => r.rule, RuleIs);
    sizes := map k | k in byRule :: |byRule[k]|;
    forall r | r in rows ensures r.rule in byRule {
      assert r in Filter(rows, RuleIs(r.rule));
    }
    RowsByRule(rows, sizes.Keys, sizes);
  }

  lemma NothingChosen(rows: seq<Row>, quotas: map<string, nat>)
    ensures Chosen(rows, [], quotas, {})
  {
    assert (set k | k in {} && k in quotas) == {};
  }

  method SampleOne(rows: seq<Row>, byRule: Groups, quotas: map<string, nat>, shuffle: (string, seq<Row>) -> seq<Row>,
                   chosen: seq<Row>, rule: string, ghost done: set<string>)
    returns (more: seq<Row>)
    requires Shuffles(shuffle) && Grouped(rows, RuleIs, byRule) && rule in byRule && rule in quotas && rule !in done
    requires quotas[rule] <= |byRule[rule]| && Chosen(rows, chosen, quotas, done)
    ensures Chosen(rows, more, quotas, done + {rule})
  {
    var sample := SampleRule(byRule[rule], quotas[rule], shuffle);
    ChooseOne(rows, chosen, sample, quotas, done, rule);
    more := chosen + sample;
  }

  method SampleRules(rows: seq<Row>, byRule: Groups, quotas: map<string, nat>, shuffle: (string, seq<Row>) -> seq<Row>,
                     rules: seq<string>)
    returns (chosen: seq<Row>)
    requires Shuffles(shuffle) && Grouped(rows, RuleIs, byRule) && quotas.Keys == byRule.Keys
    requires forall k :: k in quotas ==> quotas[k] <= |byRule[k]|
    requires Distinct(rules) && forall k :: k in rules ==> k in quotas
    ensures Chosen(rows, chosen, quotas, Elements(rules))
  {
    chosen := [];
    NothingChosen(rows, quotas);
    assert Elements(rules[..0]) == {};
    for i := 0 to |rules|
      invariant Chosen(rows, chosen, quotas, Elements(rules[..i]))
    {
      ElementsStep(rules, i);
      DistinctPrefix(rules, i);
      chosen := SampleOne(rows, byRule, quotas, shuffle, chosen, rules[i], Elements(rules[..i]));
    }
    assert rules[..|rules|] == rules;
  }

  /** `[r for rule in sorted(by_rule) for r in sample_rule(...)]`. */
  method SampleAll(rows: seq<Row>, byRule: Groups, quotas: map<string, nat>, shuffle: (string, seq<Row>) -> seq<Row>)
    returns (chosen: seq<Row>)
    requires Shuffles(shuffle) && Grouped(rows, RuleIs, byRule) && quotas.Keys == byRule.Keys
    requires forall k :: k in quotas ==> quotas[k] <= |byRule[k]|
    ensures Chosen(rows, chosen, quotas, quotas.Keys)
  {
    var rules := Sorted(byRule.Keys);
    assert Elements(rules) == quotas.Keys;
    chosen := SampleRules(rows, byRule, quotas, shuffle, rules);
  }

  /**
   The rows of the label sheet: as many as the cap or the rows allow, none twice, each rule's share
   max-min fair, and within a rule the parts balanced. Every call of `SampleRule` terminates.
   */
  method ChooseRows(rows: seq<Row>, cap: int, shuffle: (string, seq<Row>) -> seq<Row>)
    returns (chosen: seq<Row>, quotas: map<string, nat>)
    requires Shuffles(shuffle)
    ensures |chosen| == Min(Max(cap, 0), |rows|) && multiset(chosen) <= multiset(rows)
    ensures forall k :: k in quotas ==> SampledFor(rows, chosen, k, quotas[k])
    ensures forall r :: r in rows ==> r.rule in quotas
    ensures var sizes := map k | k in quotas :: |Filter(rows, RuleIs(k))|;
      Fair(quotas, sizes) && EarlierFirst(quotas, sizes)
  {
    var byRule, sizes := RuleSizes(rows);
    quotas := ComputeFairQuotas(sizes, cap);
    chosen := SampleAll(rows, byRule, quotas, shuffle);
    NoRowTwice(rows, chosen, quotas, quotas.Keys);
    assert (set k | k in quotas.Keys && k in quotas) == quotas.Keys;
    assert (map k | k in quotas :: |Filter(rows, RuleIs(k))|) == sizes;
  }
}

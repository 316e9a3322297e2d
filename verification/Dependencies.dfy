/**
 Hard dependencies of skills and modules: a depth-first search over `requires` with the current path
 and the set of finished names. Both commands run the same search and report failures differently.
 */
module Dependencies {
  import opened Basics
  import opened Seqs
  import opened Ordering

  /** Known names and what each one requires. */
  type Graph = map<string, seq<string>>

  ghost predicate Requires(g: Graph, a: string, b: string) {
    a in g && b in g[a]
  }

  ghost predicate StepAt(g: Graph, w: seq<string>, i: nat)
    requires i + 1 < |w|
  {
    Requires(g, w[i], w[i + 1])
  }

  ghost predicate Walk(g: Graph, w: seq<string>) {
    |w| > 0 && forall i: nat :: i + 1 < |w| ==> StepAt(g, w, i)
  }

  ghost predicate ClosedWalk(g: Graph, w: seq<string>) {
    Walk(g, w) && |w| >= 2 && w[0] == w[|w| - 1]
  }

  ghost predicate Reaches(g: Graph, a: string, b: string) {
    exists w :: Walk(g, w) && w[0] == a && w[|w| - 1] == b
  }

  lemma WalkSlice(g: Graph, w: seq<string>, i: nat, j: nat)
    requires Walk(g, w) && i < j <= |w|
    ensures Walk(g, w[i..j])
  {
    forall k: nat | k + 1 < |w[i..j]| ensures StepAt(g, w[i..j], k) {
      assert StepAt(g, w, i + k);
    }
  }

  lemma WalkExtend(g: Graph, w: seq<string>, b: string)
    requires Walk(g, w) && Requires(g, w[|w| - 1], b)
    ensures Walk(g, w + [b])
  {
    var v := w + [b];
    forall k: nat | k + 1 < |v| ensures StepAt(g, v, k) {
      assert k + 1 < |w| ==> StepAt(g, w, k);
    }
  }

  lemma ReachesSelf(g: Graph, a: string)
    ensures Reaches(g, a, a)
  {
    assert Walk(g, [a]);
  }

  lemma ReachesStep(g: Graph, a: string, b: string, c: string)
    requires Requires(g, a, b) && Reaches(g, b, c)
    ensures Reaches(g, a, c)
  {
    var w :| Walk(g, w) && w[0] == b && w[|w| - 1] == c;
    var v := [a] + w;
    forall k: nat | k + 1 < |v| ensures StepAt(g, v, k) {
      assert k > 0 ==> StepAt(g, w, k - 1);
    }
    assert Walk(g, v);
  }

  // ----- finished names

  /** Every finished name is known and requires only names finished before it. */
  ghost predicate Finished(g: Graph, done: seq<string>) {
    && Distinct(done)
    && forall i :: 0 <= i < |done| ==> done[i] in g && forall d :: d in g[done[i]] ==> d in done[..i]
  }

  /** A walk from a finished name only ever moves to names finished earlier. */
  lemma {:induction false} WalkGoesBack(g: Graph, done: seq<string>, w: seq<string>, at: nat)
    requires Finished(g, done) && Walk(g, w) && at < |done| && done[at] == w[0]
    ensures exists j :: 0 <= j <= at && done[j] == w[|w| - 1] && (|w| >= 2 ==> j < at)
    decreases |w|
  {
    if |w| >= 2 {
      assert StepAt(g, w, 0);
      var k :| 0 <= k < at && done[..at][k] == w[1];
      WalkSlice(g, w, 1, |w|);
      assert w[1..|w|] == w[1..];
      WalkGoesBack(g, done, w[1..], k);
    }
  }

  lemma FinishedIsClosed(g: Graph, done: seq<string>, a: string, b: string)
    requires Finished(g, done) && a in done && Reaches(g, a, b)
    ensures b in done
  {
    var w :| Walk(g, w) && w[0] == a && w[|w| - 1] == b;
    var at :| 0 <= at < |done| && done[at] == a;
    WalkGoesBack(g, done, w, at);
  }

  lemma FinishedIsAcyclic(g: Graph, done: seq<string>, w: seq<string>)
    requires Finished(g, done) && Walk(g, w) && w[0] in done
    ensures !ClosedWalk(g, w)
  {
    if ClosedWalk(g, w) {
      var at :| 0 <= at < |done| && done[at] == w[0];
      WalkGoesBack(g, done, w, at);
    }
  }

  lemma FinishedMore(g: Graph, done: seq<string>, name: string)
    requires Finished(g, done) && name in g && name !in done && forall d :: d in g[name] ==> d in done
    ensures Finished(g, done + [name]) && Elements(done + [name]) == Elements(done) + {name}
  {
    var more := done + [name];
    forall i | 0 <= i < |more| ensures more[i] in g && forall d :: d in g[more[i]] ==> d in more[..i] {
      assert more[..i] == done[..i];
    }
  }

  // ----- the search

  ghost function Unexplored(g: Graph, path: seq<string>): nat {
    |g.Keys - Elements(path)|
  }

  lemma UnexploredShrinks(g: Graph, path: seq<string>, name: string)
    requires name in g && name !in path
    ensures Unexplored(g, path + [name]) < Unexplored(g, path)
  {
    assert g.Keys - Elements(path) == (g.Keys - Elements(path + [name])) + {name};
  }

  datatype Failure = Unknown(name: string, parent: Option<string>) | Loop(path: seq<string>, name: string)

  /** The path is a walk over known, unfinished names, none of them twice. */
  ghost predicate PathFits(g: Graph, path: seq<string>, visited: set<string>) {
    Distinct(path) && (path != [] ==> Walk(g, path)) && forall n :: n in path ==> n in g && n !in visited
  }

  lemma PathGrows(g: Graph, path: seq<string>, visited: set<string>, name: string)
    requires PathFits(g, path, visited) && Walk(g, path + [name]) && name in g && name !in visited && name !in path
    ensures PathFits(g, path + [name], visited)
  {
    DistinctSnoc(path, name);
  }

  /** The search state shared by all recursive visits. */
  class Search {
    const g: Graph
    const sortRequired: bool
    var path: seq<string>
    var visited: set<string>
    ghost var done: seq<string>

    constructor (g: Graph, sortRequired: bool)
      ensures this.g == g && this.sortRequired == sortRequired
      ensures Valid() && path == [] && visited == {}
    {
      this.g, this.sortRequired := g, sortRequired;
      path, visited, done := [], {}, [];
    }

    ghost predicate Valid()
      reads this
    {
      PathFits(g, path, visited) && Finished(g, done) && visited == Elements(done)
    }

    /** The first name of the path the visit of `name` belongs to. */
    ghost function Root(name: string): string
      reads this
    {
      if path == [] then name else path[0]
    }

    /** `failure` is a true fault of the graph, found on a walk from `root`. */
    ghost predicate RealFault(failure: Failure, root: string) {
      match failure
      case Unknown(n, parent) => n !in g && Reaches(g, root, n) && (match parent case Some(p) => Requires(g, p, n) case None => n == root)
      case Loop(p, n) => n in p && p[0] == root && Distinct(p) && Walk(g, p + [n])
    }

    method Required(name: string) returns (names: seq<string>)
      requires name in g
      ensures forall d :: d in names <==> d in g[name]
    {
      if sortRequired {
        names := Sorted(Elements(g[name]));
      } else {
        names := g[name];
      }
    }

    method Visit(name: string, parent: Option<string>) returns (r: Result<(), Failure>)
      requires Valid()
      requires match parent case None => path == [] case Some(p) => path != [] && path[|path| - 1] == p && Requires(g, p, name)
      modifies this
      ensures r.Ok? ==> Valid() && path == old(path) && name in visited
      ensures r.Ok? ==> old(visited) <= visited && forall n :: n in visited ==> n in old(visited) || Reaches(g, name, n)
      ensures r.Err? ==> RealFault(r.error, old(Root(name)))
      decreases Unexplored(g, path), 1
    {
      WalkHere(name);
      ghost var root := Root(name);
      if name in path {
        assert RealFault(Loop(path, name), root);
        return Err(Loop(path, name));
      }
      if name in visited {
        return Ok(());
      }
      if name !in g {
        return Err(Unknown(name, parent));
      }
      r := VisitNew(name);
    }

    /** A known name that is neither on the path nor finished. */
    method VisitNew(name: string) returns (r: Result<(), Failure>)
      requires Valid() && (path != [] ==> Requires(g, path[|path| - 1], name))
      requires name in g && name !in path && name !in visited
      modifies this
      ensures r.Ok? ==> Valid() && path == old(path) && name in visited
      ensures r.Ok? ==> old(visited) <= visited && forall n :: n in visited ==> n in old(visited) || Reaches(g, name, n)
      ensures r.Err? ==> RealFault(r.error, old(Root(name)))
      decreases Unexplored(g, path), 0
    {
      Enter(name);
      r := VisitRequired(name);
      if r.Ok? {
        Leave(name);
        ReachesSelf(g, name);
      }
    }

    /** The path so far followed by the visited name is a walk. */
    lemma WalkHere(name: string)
      requires Valid() && (path != [] ==> Requires(g, path[|path| - 1], name))
      ensures Walk(g, path + [name]) && (path + [name])[0] == Root(name) && Reaches(g, Root(name), name)
    {
      if path != [] { WalkExtend(g, path, name); }
      assert (path + [name])[|path|] == name;
    }

    /** `path.append(name)`: the unexplored part of the graph shrinks. */
    method Enter(name: string)
      requires Valid() && (path != [] ==> Requires(g, path[|path| - 1], name))
      requires name in g && name !in path && name !in visited
      modifies this`path
      ensures Valid() && path == old(path) + [name]
      ensures Unexplored(g, path) < Unexplored(g, old(path))
    {
      WalkHere(name);
      UnexploredShrinks(g, path, name);
      PathGrows(g, path, visited, name);
      path := path + [name];
    }

    /** `path.pop()` and `visited.add(name)`. */
    method Leave(name: string)
      requires Valid() && path != [] && path[|path| - 1] == name
      requires forall d :: d in g[name] ==> d in visited
      modifies this
      ensures Valid() && path == old(path)[..|old(path)| - 1] && visited == old(visited) + {name}
    {
      assert name in path;
      FinishedMore(g, done, name);
      if |path| > 1 { WalkSlice(g, path, 0, |path| - 1); }
      assert path[..|path| - 1] == path[0..|path| - 1];
      path := path[..|path| - 1];
      visited := visited + {name};
      done := done + [name];
    }

    /** The loop over what the name on top of the path requires. */
    method VisitRequired(name: string) returns (r: Result<(), Failure>)
      requires Valid() && path != [] && path[|path| - 1] == name
      modifies this
      ensures r.Ok? ==> Valid() && path == old(path) && forall d :: d in g[name] ==> d in visited
      ensures r.Ok? ==> old(visited) <= visited && forall n :: n in visited ==> n in old(visited) || Reaches(g, name, n)
      ensures r.Err? ==> RealFault(r.error, old(path[0]))
      decreases Unexplored(g, path), 2
    {
      assert name in path;
      var required := Required(name);
      for i := 0 to |required|
        invariant Valid() && path == old(path)
        invariant forall k :: 0 <= k < i ==> required[k] in visited
        invariant old(visited) <= visited && forall n :: n in visited ==> n in old(visited) || Reaches(g, name, n)
      {
        assert required[i] in required;
        ghost var now := visited;
        r := Visit(required[i], Some(name));
        if r.Err? {
          return;
        }
        forall n | n in visited && n !in now ensures Reaches(g, name, n) {
          ReachesStep(g, name, required[i], n);
        }
      }
      r := Ok(());
    }
  }

  // ----- expanding skills

  datatype RelationError = UnknownSkill(name: string) | RequiresCycle(walk: seq<string>)

  ghost predicate SelectedReach(g: Graph, selected: seq<string>, n: string) {
    exists s :: s in selected && Reaches(g, s, n)
  }

  /** Every name the selection reaches is known, and no cycle is within its reach. */
  ghost predicate Expandable(g: Graph, selected: seq<string>) {
    && (forall n :: SelectedReach(g, selected, n) ==> n in g)
    && (forall w :: ClosedWalk(g, w) ==> !SelectedReach(g, selected, w[0]))
  }

  function FirstIndex(path: seq<string>, name: string): (i: nat)
    requires name in path
    ensures i < |path| && path[i] == name
  {
    if path[0] == name then 0 else 1 + FirstIndex(path[1..], name)
  }

  /** The reported cycle is a closed walk through the repeated name, reached from where the path began. */
  lemma LoopIsCycle(g: Graph, path: seq<string>, name: string)
    requires name in path && Walk(g, path + [name])
    ensures var cycle := path[FirstIndex(path, name)..] + [name];
      ClosedWalk(g, cycle) && Reaches(g, path[0], cycle[0])
  {
    var i, w := FirstIndex(path, name), path + [name];
    WalkSlice(g, w, i, |w|);
    assert w[i..|w|] == path[i..] + [name];
    WalkSlice(g, w, 0, i + 1);
    assert w[0..i + 1][i] == name;
  }

  /**
   `closure`: the sorted set of everything the selection reaches, exactly when all of it is known and
   free of cycles; otherwise an unknown name it reaches or a genuine closed walk it reaches.
   */
  method Closure(g: Graph, selected: seq<string>) returns (r: Result<seq<string>, RelationError>)
    ensures r.Ok? <==> Expandable(g, selected)
    ensures r.Ok? ==> Ascending(r.value, StrLess) && forall n :: n in r.value <==> SelectedReach(g, selected, n)
    ensures r.Err? ==> match r.error
      case UnknownSkill(n) => n !in g && SelectedReach(g, selected, n)
      case RequiresCycle(w) => ClosedWalk(g, w) && SelectedReach(g, selected, w[0])
  {
    var search := new Search(g, true);
    var seeds := Sorted(Elements(selected));
    for i := 0 to |seeds|
      invariant search.Valid() && search.path == [] && search.g == g
      invariant forall k :: 0 <= k < i ==> seeds[k] in search.visited
      invariant forall n :: n in search.visited ==> SelectedReach(g, selected, n)
    {
      assert seeds[i] in seeds && seeds[i] in selected;
      var visit := search.Visit(seeds[i], None);
      if visit.Err? {
        match visit.error {
          case Unknown(n, _) =>
            return Err(UnknownSkill(n));
          case Loop(path, name) =>
            LoopIsCycle(g, path, name);
            return Err(RequiresCycle(path[FirstIndex(path, name)..] + [name]));
        }
      }
    }
    assert forall s :: s in selected ==> s in Elements(selected) && s in seeds;
    SearchCovers(g, selected, search.done);
    var names := Sorted(search.visited);
    return Ok(names);
  }

  lemma SearchCovers(g: Graph, selected: seq<string>, done: seq<string>)
    requires Finished(g, done)
    requires forall s :: s in selected ==> s in done
    ensures Expandable(g, selected)
    ensures forall n :: SelectedReach(g, selected, n) ==> n in done
  {
    forall n | SelectedReach(g, selected, n) ensures n in done && n in g {
      var s :| s in selected && Reaches(g, s, n);
      FinishedIsClosed(g, done, s, n);
    }
    forall w | ClosedWalk(g, w) ensures !SelectedReach(g, selected, w[0]) {
      if w[0] in done { FinishedIsAcyclic(g, done, w); }
    }
  }

  // ----- installing modules

  datatype InstallError =
    | UnknownModule(name: string)
    | RequiresUnknown(parent: string, name: string)
    | DependencyCycle(chain: seq<string>)

  /** A chain the search can report from `name`: a walk whose last name is the first to come a second time. */
  ghost predicate Reportable(g: Graph, name: string, chain: seq<string>) {
    && |chain| >= 2 && Walk(g, chain) && chain[0] == name
    && Distinct(chain[..|chain| - 1]) && chain[|chain| - 1] in chain[..|chain| - 1]
  }

  /** The part of a chain from the first visit of its last name on. */
  function CycleIn(chain: seq<string>): seq<string>
    requires |chain| >= 2 && chain[|chain| - 1] in chain[..|chain| - 1]
  {
    chain[FirstIndex(chain[..|chain| - 1], chain[|chain| - 1])..]
  }

  lemma CycleInPath(path: seq<string>, last: string)
    requires last in path
    ensures (path + [last])[..|path + [last]| - 1] == path
    ensures CycleIn(path + [last]) == path[FirstIndex(path, last)..] + [last]
  {
    assert (path + [last])[..|path|] == path;
  }

  /**
   `install_closure`: the same search from one module. The chain reported for a cycle starts at the module
   being installed, visits no module twice before its last name, and from that name's first visit on it is a cycle.
   */
  method InstallClosure(name: string, manifests: Graph) returns (r: Result<seq<string>, InstallError>)
    ensures r.Ok? <==> Expandable(manifests, [name])
    ensures r.Ok? ==> Ascending(r.value, StrLess) && forall n :: n in r.value <==> Reaches(manifests, name, n)
    ensures r.Err? ==> match r.error
      case UnknownModule(n) => n == name && n !in manifests
      case RequiresUnknown(p, n) => n !in manifests && Requires(manifests, p, n) && Reaches(manifests, name, n)
      case DependencyCycle(chain) =>
        Reportable(manifests, name, chain) && ClosedWalk(manifests, CycleIn(chain))
  {
    ReachesSelf(manifests, name);
    assert [name][0] == name;
    if name !in manifests {
      assert SelectedReach(manifests, [name], name);
      return Err(UnknownModule(name));
    }
    var search := new Search(manifests, false);
    var visit := search.Visit(name, None);
    if visit.Err? {
      match visit.error {
        case Unknown(n, parent) =>
          assert SelectedReach(manifests, [name], n);
          return Err(if parent.Some? then RequiresUnknown(parent.value, n) else UnknownModule(n));
        case Loop(path, n) =>
          LoopIsCycle(manifests, path, n);
          assert SelectedReach(manifests, [name], (path[FirstIndex(path, n)..] + [n])[0]);
          CycleInPath(path, n);
          return Err(DependencyCycle(path + [n]));
      }
    }
    SearchCovers(manifests, [name], search.done);
    var names := Sorted(search.visited);
    assert forall n :: Reaches(manifests, name, n) ==> SelectedReach(manifests, [name], n);
    return Ok(names);
  }

  // ----- when the reported chain is a cycle

  lemma CycleOfChain(g: Graph, name: string, chain: seq<string>)
    requires Reportable(g, name, chain)
    ensures ClosedWalk(g, CycleIn(chain)) && Reaches(g, name, CycleIn(chain)[0])
  {
    var path, last := chain[..|chain| - 1], chain[|chain| - 1];
    assert path + [last] == chain;
    LoopIsCycle(g, path, last);
    CycleInPath(path, last);
  }

  /** A chain whose cycle passes through its root begins with that cycle. */
  lemma CycleThroughRootCloses(g: Graph, name: string, chain: seq<string>)
    requires Reportable(g, name, chain) && name in CycleIn(chain)
    ensures ClosedWalk(g, chain)
  {
    CycleOfChain(g, name, chain);
    var path, last := chain[..|chain| - 1], chain[|chain| - 1];
    var i := FirstIndex(path, last);
    var k :| 0 <= k < |CycleIn(chain)| && CycleIn(chain)[k] == name;
    var j := i + k;
    assert CycleIn(chain)[k] == chain[j] && path[0] == name;
    if j < |path| {
      assert path[j] == name;
      DistinctIndex(path, 0, j);
    } else {
      assert j == |path| && path[i] == name;
      DistinctIndex(path, 0, i);
    }
    assert CycleIn(chain) == chain[0..];
  }

  lemma WalkJoin(g: Graph, a: seq<string>, b: seq<string>)
    requires Walk(g, a) && Walk(g, b) && a[|a| - 1] == b[0]
    ensures Walk(g, a + b[1..])
  {
    var w := a + b[1..];
    forall k: nat | k + 1 < |w| ensures StepAt(g, w, k) {
      if k + 1 < |a| { assert StepAt(g, a, k); } else { assert StepAt(g, b, k + 1 - |a|); }
    }
  }

  /** The part of a walk from its last visit to its first name on. */
  lemma LastVisit(g: Graph, w: seq<string>) returns (v: seq<string>)
    requires Walk(g, w)
    ensures Walk(g, v) && v[0] == w[0] && v[|v| - 1] == w[|w| - 1] && w[0] !in v[1..]
    decreases |w|
  {
    if w[0] in w[1..] {
      var i :| 0 <= i < |w[1..]| && w[1..][i] == w[0];
      WalkSlice(g, w, i + 1, |w|);
      assert w[i + 1..|w|] == w[i + 1..];
      v := LastVisit(g, w[i + 1..]);
    } else {
      v := w;
    }
  }

  lemma FirstRepeat(w: seq<string>, k: nat, j: nat) returns (n: nat)
    requires k <= j < |w| && Distinct(w[..k]) && w[j] in w[..j]
    ensures k <= n <= j && Distinct(w[..n]) && w[n] in w[..n]
    decreases j - k
  {
    if w[k] in w[..k] {
      n := k;
    } else {
      assert w[..k + 1] == w[..k] + [w[k]];
      DistinctSnoc(w[..k], w[k]);
      n := FirstRepeat(w, k + 1, j);
    }
  }

  /** A cycle within reach that avoids the root gives a chain that can be reported and is no cycle. */
  lemma AvoidingCycleStaysOpen(g: Graph, name: string, loop: seq<string>) returns (chain: seq<string>)
    requires ClosedWalk(g, loop) && Reaches(g, name, loop[0]) && name !in loop
    ensures Reportable(g, name, chain) && !ClosedWalk(g, chain)
  {
    var out :| Walk(g, out) && out[0] == name && out[|out| - 1] == loop[0];
    var path := LastVisit(g, out);
    WalkJoin(g, path, loop);
    var w := path + loop[1..];
    assert path[|path| - 1] in w[..|w| - 1] && w[|w| - 1] == loop[0] by {
      assert w[..|w| - 1][|path| - 1] == path[|path| - 1];
    }
    var n := FirstRepeat(w, 0, |w| - 1);
    chain := w[..n + 1];
    WalkSlice(g, w, 0, n + 1);
    assert w[0..n + 1] == chain && chain[..n] == w[..n] && chain[n] == w[n];
    assert w[n] != name by {
      if n < |path| { assert n > 0 && path[1..][n - 1] == w[n]; } else { assert loop[n - |path| + 1] == w[n]; }
    }
  }

  /**
   Every chain that can be reported from a module is a cycle if and only if every cycle within its reach passes
   through the module itself.
   */
  lemma InstallChainsClose(g: Graph, name: string)
    ensures (forall chain :: Reportable(g, name, chain) ==> ClosedWalk(g, chain))
       <==> (forall loop :: ClosedWalk(g, loop) && Reaches(g, name, loop[0]) ==> name in loop)
  {
    if forall loop :: ClosedWalk(g, loop) && Reaches(g, name, loop[0]) ==> name in loop {
      forall chain | Reportable(g, name, chain) ensures ClosedWalk(g, chain) {
        CycleOfChain(g, name, chain);
        CycleThroughRootCloses(g, name, chain);
      }
    } else {
      var loop :| ClosedWalk(g, loop) && Reaches(g, name, loop[0]) && name !in loop;
      var chain := AvoidingCycleStaysOpen(g, name, loop);
    }
  }

  const LASSO: Graph := map["a" := ["b"], "b" := ["b"]]

  lemma {:induction false} LassoWalks(w: seq<string>, i: nat)
    requires Walk(LASSO, w) && 0 < i < |w|
    ensures w[i] == "b"
  {
    assert StepAt(LASSO, w, i - 1);
    if i > 1 { LassoWalks(w, i - 1); }
  }

  /** The condition can fail: here the search must fail, and no chain it could report is a cycle. */
  lemma InstallChainNeedNotClose(chain: seq<string>)
    requires |chain| >= 2 && Walk(LASSO, chain) && chain[0] == "a"
    ensures !Expandable(LASSO, ["a"]) && !ClosedWalk(LASSO, chain)
  {
    LassoWalks(chain, |chain| - 1);
    var loop, out := ["b", "b"], ["a", "b"];
    assert StepAt(LASSO, loop, 0) && StepAt(LASSO, out, 0);
    assert Walk(LASSO, loop) && ClosedWalk(LASSO, loop);
    assert Walk(LASSO, out) && Reaches(LASSO, "a", "b");
    assert SelectedReach(LASSO, ["a"], loop[0]);
  }
}

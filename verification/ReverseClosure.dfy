/**
 Reverse reference closure: an in-place sweep over ancestor bitsets, limited to as many rounds as
 there are files. A Python int used as a bitset is the set of positions of its one bits.
 */
module ReverseClosure {
  import opened Seqs

  /** `refs[p]` is the set of files that refer to `p`. */
  type References = map<string, set<string>>

  ghost predicate WellFormed(paths: seq<string>, refs: References) {
    forall p :: p in paths ==> p in refs && forall q :: q in refs[p] ==> q in paths
  }

  ghost predicate RefersToNext(refs: References, c: seq<string>, i: nat)
    requires i + 1 < |c|
  {
    c[i + 1] in refs && c[i] in refs[c[i + 1]]
  }

  /** A non-empty chain: each file refers to the next one. */
  ghost predicate Chain(refs: References, c: seq<string>) {
    |c| >= 2 && forall i: nat :: i + 1 < |c| ==> RefersToNext(refs, c, i)
  }

  ghost predicate ReachesWithin(refs: References, q: string, p: string, steps: nat) {
    exists c :: Chain(refs, c) && c[0] == q && c[|c| - 1] == p && |c| - 1 <= steps
  }

  ghost predicate Reaches(refs: References, q: string, p: string) {
    exists c :: Chain(refs, c) && c[0] == q && c[|c| - 1] == p
  }

  lemma ChainPrefix(refs: References, c: seq<string>)
    requires Chain(refs, c) && |c| > 2
    ensures Chain(refs, c[..|c| - 1])
  {
    var d := c[..|c| - 1];
    forall i: nat | i + 1 < |d| ensures RefersToNext(refs, d, i) {
      assert RefersToNext(refs, c, i);
    }
  }

  lemma ChainMembers(paths: seq<string>, refs: References, c: seq<string>)
    requires WellFormed(paths, refs) && Chain(refs, c) && c[|c| - 1] in paths
    ensures forall i :: 0 <= i < |c| ==> c[i] in paths
    decreases |c|
  {
    var n := |c|;
    assert RefersToNext(refs, c, n - 2);
    if n > 2 {
      ChainPrefix(refs, c);
      ChainMembers(paths, refs, c[..n - 1]);
      assert forall i :: 0 <= i < n - 1 ==> c[i] == c[..n - 1][i];
    }
  }

  /** Cutting a loop out of a chain leaves a chain with the same ends. */
  lemma CutLoop(refs: References, c: seq<string>, i: nat, j: nat)
    requires Chain(refs, c) && i < j < |c| - 1 && c[i] == c[j]
    ensures var d := c[..i] + c[j..];
      Chain(refs, d) && d[0] == c[0] && d[|d| - 1] == c[|c| - 1] && |d| < |c|
  {
    var d := c[..i] + c[j..];
    forall k: nat | k + 1 < |d| ensures RefersToNext(refs, d, k) {
      assert RefersToNext(refs, c, if k < i then k else k - i + j);
    }
  }

  /** Any chain can be cut down to at most as many steps as there are files, also when it is a cycle. */
  lemma {:induction false} ShortChain(paths: seq<string>, refs: References, c: seq<string>)
    requires WellFormed(paths, refs) && Chain(refs, c) && c[|c| - 1] in paths
    ensures ReachesWithin(refs, c[0], c[|c| - 1], |paths|)
    decreases |c|
  {
    if |c| - 1 > |paths| {
      ChainMembers(paths, refs, c);
      SetOfSeqCount(paths);
      var i, j := Pigeonhole(c[..|c| - 1], Elements(paths));
      CutLoop(refs, c, i, j);
      ShortChain(paths, refs, c[..i] + c[j..]);
    }
  }

  // ----- the sweep

  /** `{path: position for position, path in enumerate(paths)}`: a repeated path keeps its last position. */
  function Index(paths: seq<string>): (index: map<string, nat>)
    ensures forall p :: p in paths <==> p in index
    ensures forall p :: p in index ==> index[p] < |paths| && paths[index[p]] == p
  {
    if paths == [] then map[]
    else Index(paths[..|paths| - 1])[paths[|paths| - 1] := |paths| - 1]
  }

  type Ancestors = map<string, set<nat>>

  ghost predicate Covers(paths: seq<string>, a: Ancestors) {
    forall p :: p in paths <==> p in a
  }

  /** Every bit set for a file is the position of a file that reaches it. */
  ghost predicate Sound(paths: seq<string>, refs: References, a: Ancestors) {
    forall p, b :: p in a && b in a[p] ==> SoundBit(paths, refs, b, p)
  }

  ghost predicate CompleteAt(paths: seq<string>, refs: References, bits: set<nat>, p: string, steps: nat) {
    forall q :: q in paths && ReachesWithin(refs, q, p, steps) ==> Index(paths)[q] in bits
  }

  /** `bits` is what the inner loop computes for `p` from the ancestors `a`. */
  ghost predicate Merged(paths: seq<string>, refs: References, a: Ancestors, p: string, bits: set<nat>)
    requires WellFormed(paths, refs) && Covers(paths, a) && p in paths
  {
    forall b :: b in bits <==> b in a[p] || exists r :: r in refs[p] && (b == Index(paths)[r] || b in a[r])
  }

  lemma ReachesOne(refs: References, q: string, p: string)
    requires p in refs && q in refs[p]
    ensures Reaches(refs, q, p)
  {
    assert Chain(refs, [q, p]);
  }

  lemma ReachesOneMore(refs: References, q: string, r: string, p: string)
    requires Reaches(refs, q, r) && p in refs && r in refs[p]
    ensures Reaches(refs, q, p)
  {
    var c :| Chain(refs, c) && c[0] == q && c[|c| - 1] == r;
    var d := c + [p];
    forall i: nat | i + 1 < |d| ensures RefersToNext(refs, d, i) {
      assert i + 1 < |c| ==> RefersToNext(refs, c, i);
    }
    assert Chain(refs, d);
  }

  /** The last step of a chain comes from a direct referrer. */
  lemma LastStep(paths: seq<string>, refs: References, q: string, p: string, steps: nat)
    requires WellFormed(paths, refs) && p in paths && ReachesWithin(refs, q, p, steps + 1)
    ensures exists r :: r in refs[p] && (q == r || ReachesWithin(refs, q, r, steps))
  {
    var c :| Chain(refs, c) && c[0] == q && c[|c| - 1] == p && |c| - 1 <= steps + 1;
    var r := c[|c| - 2];
    assert RefersToNext(refs, c, |c| - 2);
    if |c| > 2 {
      ChainPrefix(refs, c);
      assert c[..|c| - 1][0] == q && c[..|c| - 1][|c| - 2] == r;
    }
  }

  ghost predicate SoundBit(paths: seq<string>, refs: References, b: nat, p: string) {
    b < |paths| && Index(paths)[paths[b]] == b && Reaches(refs, paths[b], p)
  }

  lemma MergedBitIsSound(paths: seq<string>, refs: References, a: Ancestors, p: string, r: string, b: nat)
    requires WellFormed(paths, refs) && Covers(paths, a) && p in paths && r in refs[p] && Sound(paths, refs, a)
    requires b == Index(paths)[r] || b in a[r]
    ensures SoundBit(paths, refs, b, p)
  {
    if b == Index(paths)[r] {
      ReachesOne(refs, r, p);
    } else {
      assert SoundBit(paths, refs, b, r);
      ReachesOneMore(refs, paths[b], r, p);
    }
  }

  /** Merging keeps soundness. */
  lemma MergeIsSound(paths: seq<string>, refs: References, a: Ancestors, p: string, bits: set<nat>)
    requires WellFormed(paths, refs) && Covers(paths, a) && p in paths && Sound(paths, refs, a)
    requires Merged(paths, refs, a, p, bits)
    ensures Sound(paths, refs, a[p := bits])
  {
    forall b | b in bits ensures SoundBit(paths, refs, b, p) {
      if b !in a[p] {
        var r :| r in refs[p] && (b == Index(paths)[r] || b in a[r]);
        MergedBitIsSound(paths, refs, a, p, r, b);
      }
    }
  }

  /** Merging looks one step further back than every referrer did. */
  lemma MergeLooksFurther(paths: seq<string>, refs: References, a: Ancestors, p: string, bits: set<nat>, steps: nat)
    requires WellFormed(paths, refs) && Covers(paths, a) && p in paths
    requires Merged(paths, refs, a, p, bits)
    requires forall r :: r in paths ==> CompleteAt(paths, refs, a[r], r, steps)
    ensures CompleteAt(paths, refs, bits, p, steps + 1)
  {
    forall q | q in paths && ReachesWithin(refs, q, p, steps + 1) ensures Index(paths)[q] in bits {
      LastStep(paths, refs, q, p, steps);
      var r :| r in refs[p] && (q == r || ReachesWithin(refs, q, r, steps));
      assert CompleteAt(paths, refs, a[r], r, steps);
    }
  }

  lemma {:induction false} FixpointIsComplete(paths: seq<string>, refs: References, a: Ancestors, steps: nat)
    requires WellFormed(paths, refs) && Covers(paths, a)
    requires forall p :: p in paths ==> Merged(paths, refs, a, p, a[p])
    ensures forall p :: p in paths ==> CompleteAt(paths, refs, a[p], p, steps)
  {
    if steps > 0 {
      FixpointIsComplete(paths, refs, a, steps - 1);
      forall p | p in paths ensures CompleteAt(paths, refs, a[p], p, steps) {
        MergeLooksFurther(paths, refs, a, p, a[p], steps - 1);
      }
    }
  }

  lemma {:induction false} IndexImage(paths: seq<string>, names: set<string>)
    requires forall p :: p in names ==> p in paths
    ensures |set p | p in names :: Index(paths)[p]| == |names|
  {
    if names != {} {
      var x :| x in names;
      IndexImage(paths, names - {x});
      var rest := set p | p in names - {x} :: Index(paths)[p];
      assert (set p | p in names :: Index(paths)[p]) == rest + {Index(paths)[x]};
      assert Index(paths)[x] !in rest;
    }
  }

  ghost function Reaching(paths: seq<string>, refs: References, p: string): set<string> {
    set q | q in paths && Reaches(refs, q, p)
  }

  lemma ReachingHasBit(paths: seq<string>, refs: References, bits: set<nat>, q: string, p: string)
    requires WellFormed(paths, refs) && p in paths && q in paths && Reaches(refs, q, p)
    requires CompleteAt(paths, refs, bits, p, |paths|)
    ensures Index(paths)[q] in bits
  {
    var c :| Chain(refs, c) && c[0] == q && c[|c| - 1] == p;
    ShortChain(paths, refs, c);
  }

  function Positions(paths: seq<string>, names: set<string>): set<nat>
    requires forall p :: p in names ==> p in paths
  {
    set p | p in names :: Index(paths)[p]
  }

  lemma BitHasPath(paths: seq<string>, refs: References, b: nat, p: string)
    requires SoundBit(paths, refs, b, p)
    ensures b in Positions(paths, Reaching(paths, refs, p))
  {
    assert paths[b] in Reaching(paths, refs, p);
  }

  /** Bits that are sound and complete count exactly the files that reach `p`. */
  lemma BitCount(paths: seq<string>, refs: References, a: Ancestors, p: string)
    requires WellFormed(paths, refs) && Covers(paths, a) && Sound(paths, refs, a) && p in paths
    requires CompleteAt(paths, refs, a[p], p, |paths|)
    ensures |a[p]| == |Reaching(paths, refs, p)|
  {
    var reaching := Reaching(paths, refs, p);
    forall b | b in a[p] ensures b in Positions(paths, reaching) {
      BitHasPath(paths, refs, b, p);
    }
    forall q | q in reaching ensures Index(paths)[q] in a[p] {
      ReachingHasBit(paths, refs, a[p], q, p);
    }
    assert a[p] == Positions(paths, reaching);
    IndexImage(paths, reaching);
  }

  /** `bits |= (1 << index[referrer]) | ancestors[referrer]` for every referrer, in any order. */
  method MergeReferrers(paths: seq<string>, refs: References, a: Ancestors, p: string) returns (bits: set<nat>)
    requires WellFormed(paths, refs) && Covers(paths, a) && p in paths
    ensures Merged(paths, refs, a, p, bits) && a[p] <= bits
  {
    var index := Index(paths);
    bits := a[p];
    var todo := refs[p];
    while todo != {}
      invariant todo <= refs[p]
      invariant forall b :: b in bits <==> b in a[p] || exists r :: r in refs[p] - todo && (b == index[r] || b in a[r])
      decreases todo
    {
      var r :| r in todo;
      ghost var before := bits;
      bits := bits + {index[r]} + a[r];
      todo := todo - {r};
      forall b ensures b in bits <==> b in a[p] || exists x :: x in refs[p] - todo && (b == index[x] || b in a[x]) {
        assert b in bits <==> b in before || b == index[r] || b in a[r];
      }
    }
  }

  ghost predicate Complete(paths: seq<string>, refs: References, a: Ancestors, files: seq<string>, steps: nat) {
    forall p :: p in files && p in a ==> CompleteAt(paths, refs, a[p], p, steps)
  }

  ghost predicate Fixed(paths: seq<string>, refs: References, a: Ancestors, files: seq<string>)
    requires WellFormed(paths, refs) && Covers(paths, a)
  {
    forall p :: p in files && p in paths ==> Merged(paths, refs, a, p, a[p])
  }

  /** Growing one file's bits keeps what all files have and adds a step for that file. */
  lemma UpdateOne(paths: seq<string>, refs: References, a: Ancestors, i: nat, bits: set<nat>, steps: nat)
    requires WellFormed(paths, refs) && Covers(paths, a) && i < |paths|
    requires Merged(paths, refs, a, paths[i], bits) && a[paths[i]] <= bits
    requires Complete(paths, refs, a, paths, steps) && Complete(paths, refs, a, paths[..i], steps + 1)
    ensures var b := a[paths[i] := bits];
      Complete(paths, refs, b, paths, steps) && Complete(paths, refs, b, paths[..i + 1], steps + 1)
  {
    var b := a[paths[i] := bits];
    MergeLooksFurther(paths, refs, a, paths[i], bits, steps);
    forall p | p in paths[..i + 1] && p in b ensures CompleteAt(paths, refs, b[p], p, steps + 1) {
      assert p in paths[..i] || p == paths[i];
    }
  }

  lemma FixedMore(paths: seq<string>, refs: References, a: Ancestors, i: nat)
    requires WellFormed(paths, refs) && Covers(paths, a) && i < |paths|
    requires Fixed(paths, refs, a, paths[..i]) && Merged(paths, refs, a, paths[i], a[paths[i]])
    ensures Fixed(paths, refs, a, paths[..i + 1])
  {
    assert paths[..i + 1] == paths[..i] + [paths[i]];
  }

  /** In the middle of a round: the files before `i` already look one step further. */
  ghost predicate MidSweep(paths: seq<string>, refs: References, a: Ancestors, i: nat, steps: nat) {
    && i <= |paths| && Covers(paths, a) && Sound(paths, refs, a)
    && Complete(paths, refs, a, paths, steps) && Complete(paths, refs, a, paths[..i], steps + 1)
  }

  lemma SweepOne(paths: seq<string>, refs: References, a: Ancestors, i: nat, bits: set<nat>, steps: nat)
    requires WellFormed(paths, refs) && MidSweep(paths, refs, a, i, steps) && i < |paths|
    requires Merged(paths, refs, a, paths[i], bits) && a[paths[i]] <= bits
    ensures MidSweep(paths, refs, a[paths[i] := bits], i + 1, steps)
  {
    MergeIsSound(paths, refs, a, paths[i], bits);
    UpdateOne(paths, refs, a, i, bits, steps);
  }

  /** One round over all candidates, updating the ancestors in place. */
  method Sweep(paths: seq<string>, refs: References, a0: Ancestors, ghost steps: nat)
    returns (a: Ancestors, changed: bool)
    requires WellFormed(paths, refs) && MidSweep(paths, refs, a0, 0, steps)
    ensures MidSweep(paths, refs, a, |paths|, steps)
    ensures !changed ==> Fixed(paths, refs, a, paths)
  {
    a, changed := a0, false;
    for i := 0 to |paths|
      invariant MidSweep(paths, refs, a, i, steps)
      invariant !changed ==> a == a0 && Fixed(paths, refs, a, paths[..i])
    {
      var candidate := paths[i];
      var bits := MergeReferrers(paths, refs, a, candidate);
      SweepOne(paths, refs, a, i, bits, steps);
      if bits != a[candidate] {
        a := a[candidate := bits];
        changed := true;
      } else {
        assert a[candidate := bits] == a;
        if !changed { FixedMore(paths, refs, a, i); }
      }
    }
    assert paths[..|paths|] == paths;
  }

  lemma StartSweep(paths: seq<string>, refs: References, a: Ancestors, steps: nat)
    requires Covers(paths, a) && Sound(paths, refs, a) && Complete(paths, refs, a, paths, steps)
    ensures MidSweep(paths, refs, a, 0, steps)
  {
  }

  lemma EndSweep(paths: seq<string>, refs: References, a: Ancestors, steps: nat)
    requires MidSweep(paths, refs, a, |paths|, steps)
    ensures Covers(paths, a) && Sound(paths, refs, a) && Complete(paths, refs, a, paths, steps + 1)
  {
    assert paths[..|paths|] == paths;
  }

  /**
   The bounded in-place sweep reaches the fixpoint: each count is the number of files with a
   non-empty reference chain to that file, the file itself included when it lies on a cycle.
   */
  method ReverseClosureSizes(paths: seq<string>, refs: References) returns (sizes: map<string, nat>)
    requires WellFormed(paths, refs)
    ensures forall p :: p in paths <==> p in sizes
    ensures forall p :: p in paths ==> sizes[p] == |Reaching(paths, refs, p)|
  {
    var ancestors: Ancestors := map p | p in paths :: {};
    var changed := true;
    for round := 0 to |paths|
      invariant Covers(paths, ancestors) && Sound(paths, refs, ancestors)
      invariant Complete(paths, refs, ancestors, paths, round)
    {
      StartSweep(paths, refs, ancestors, round);
      ancestors, changed := Sweep(paths, refs, ancestors, round);
      EndSweep(paths, refs, ancestors, round);
      if !changed {
        FixpointIsComplete(paths, refs, ancestors, |paths|);
        break;
      }
    }
    sizes := map p | p in paths :: |ancestors[p]|;
    forall p | p in paths ensures sizes[p] == |Reaching(paths, refs, p)| {
      BitCount(paths, refs, ancestors, p);
    }
  }
}

/**
 The queue store's mode lock. A thread is the stack of `with` blocks it has entered and not left;
 the machine below interleaves threads at every entry, mode read and exit. Class `ThreadLocals` keeps
 the thread-local depth maps of the source, and its `Valid` says that they are what the stack implies.
 */
module ModeLock {
  import opened Basics
  import opened Seqs

  datatype Mode = Markdown | Sqlite

  /** An entered block with the values its exit code uses. Outermost blocks go through three phases. */
  datatype Frame =
    | Locked(path: string)                           // shared file lock held, mode not read yet
    | Outer(path: string, mode: Mode)                // outermost operation
    | Releasing(path: string)                        // entry deleted, shared file lock still held
    | Nested(path: string, mode: Mode, depth: nat)   // reentrant operation
    | Inside(path: string, mode: Mode)               // operation inside an owned barrier
    | Excluding(path: string)                        // exclusive file lock held, barrier not marked yet
    | Barrier(path: string)                          // outermost barrier
    | Unbarring(path: string)                        // mark deleted, exclusive file lock still held
    | NestedBarrier(path: string, depth: nat)
    | Callback

  type Stack = seq<Frame>

  datatype State = State(stacks: map<nat, Stack>, stored: map<string, Mode>)

  datatype Step =
    | EnterOperation(t: nat, path: string)
    | ReadMode(t: nat)
    | EnterBarrier(t: nat, path: string)
    | StartBarrier(t: nat)
    | EnterCallback(t: nat)
    | Leave(t: nat)
    | Flip(t: nat, path: string, mode: Mode)

  // ----- what a stack implies

  /** The thread-local operations map. */
  function Operations(s: Stack): map<string, (Mode, nat)> {
    if s == [] then map[] else Opened(Operations(s[..|s| - 1]), s[|s| - 1])
  }

  /** The operations map once the frame has been entered. */
  function Opened(rest: map<string, (Mode, nat)>, f: Frame): map<string, (Mode, nat)> {
    match f
    case Outer(p, m) => rest[p := (m, 1)]
    case Nested(p, m, d) => rest[p := (m, d + 1)]
    case _ => rest
  }

  /** The thread-local barriers map. */
  function Barriers(s: Stack): map<string, nat> {
    if s == [] then map[] else Barred(Barriers(s[..|s| - 1]), s[|s| - 1])
  }

  /** The barriers map once the frame has been entered. */
  function Barred(rest: map<string, nat>, f: Frame): map<string, nat> {
    match f
    case Barrier(p) => rest[p := 1]
    case NestedBarrier(p, d) => rest[p := d + 1]
    case _ => rest
  }

  function Callbacks(s: Stack): nat {
    if s == [] then 0 else Callbacks(s[..|s| - 1]) + if s[|s| - 1].Callback? then 1 else 0
  }

  /** Paths whose file lock the thread holds in shared mode. */
  function SharedPaths(s: Stack): set<string> {
    if s == [] then {}
    else
      var f := s[|s| - 1];
      SharedPaths(s[..|s| - 1]) + if f.Locked? || f.Outer? || f.Releasing? then {f.path} else {}
  }

  /** Paths whose file lock the thread holds in exclusive mode. */
  function ExclusivePaths(s: Stack): set<string> {
    if s == [] then {}
    else
      var f := s[|s| - 1];
      ExclusivePaths(s[..|s| - 1]) + if f.Excluding? || f.Barrier? || f.Unbarring? then {f.path} else {}
  }

  /** The thread runs user code, not the entry or exit code of a block. */
  predicate Running(s: Stack) {
    s != [] ==> var f := s[|s| - 1]; !(f.Locked? || f.Releasing? || f.Excluding? || f.Unbarring?)
  }

  function StackOf(s: State, t: nat): Stack {
    if t in s.stacks then s.stacks[t] else []
  }

  /** `_read_mode`: a store without a recorded mode is markdown. */
  function StoredMode(s: State, p: string): Mode {
    if p in s.stored then s.stored[p] else Markdown
  }

  // ----- steps

  /** Nobody else holds the exclusive lock. */
  ghost predicate SharedFree(s: State, t: nat, p: string) {
    forall u :: u in s.stacks && u != t ==> p !in ExclusivePaths(s.stacks[u])
  }

  /** Nobody holds the lock at all. */
  ghost predicate ExclusiveFree(s: State, p: string) {
    forall u :: u in s.stacks ==> p !in ExclusivePaths(s.stacks[u]) && p !in SharedPaths(s.stacks[u])
  }

  /** A step can happen unless the code raises or waits there. */
  ghost predicate Enabled(s: State, step: Step) {
    var k := StackOf(s, step.t);
    match step
    case EnterOperation(t, p) =>
      Running(k) && Callbacks(k) == 0 && (p in Barriers(k) || p in Operations(k) || SharedFree(s, t, p))
    case ReadMode(_) => k != [] && k[|k| - 1].Locked?
    case EnterBarrier(t, p) =>
      Running(k) && Callbacks(k) == 0 && (p in Barriers(k) || (p !in Operations(k) && ExclusiveFree(s, p)))
    case StartBarrier(_) => k != [] && k[|k| - 1].Excluding?
    case EnterCallback(_) => Running(k)
    case Leave(_) => k != []
    case Flip(_, p, _) => Running(k) && p in Barriers(k)
  }

  /** The frame an entry pushes. */
  function EntryFrame(mode: Mode, k: Stack, p: string): Frame {
    if p in Barriers(k) then Inside(p, mode)
    else if p in Operations(k) then Nested(p, Operations(k)[p].0, Operations(k)[p].1)
    else Locked(p)
  }

  function BarrierFrame(k: Stack, p: string): Frame {
    if p in Barriers(k) then NestedBarrier(p, Barriers(k)[p]) else Excluding(p)
  }

  /** One exit step: outermost blocks first drop their entry, then their lock. */
  function Exit(k: Stack): Stack
    requires k != []
  {
    var rest := k[..|k| - 1];
    match k[|k| - 1]
    case Outer(p, _) => rest + [Releasing(p)]
    case Barrier(p) => rest + [Unbarring(p)]
    case _ => rest
  }

  function NewStack(s: State, step: Step): Stack
    requires step.ReadMode? || step.StartBarrier? || step.Leave? ==> StackOf(s, step.t) != []
  {
    var k := StackOf(s, step.t);
    match step
    case EnterOperation(_, p) => k + [EntryFrame(StoredMode(s, p), k, p)]
    case ReadMode(_) =>
      var top := k[|k| - 1];
      if top.Locked? then k[..|k| - 1] + [Outer(top.path, StoredMode(s, top.path))] else k
    case EnterBarrier(_, p) => k + [BarrierFrame(k, p)]
    case StartBarrier(_) =>
      var top := k[|k| - 1];
      if top.Excluding? then k[..|k| - 1] + [Barrier(top.path)] else k
    case EnterCallback(_) => k + [Callback]
    case Leave(_) => Exit(k)
    case Flip(_, _, _) => k
  }

  ghost function Apply(s: State, step: Step): State
    requires Enabled(s, step)
  {
    State(s.stacks[step.t := NewStack(s, step)], if step.Flip? then s.stored[step.path := step.mode] else s.stored)
  }

  ghost predicate Runs(s: State, steps: seq<Step>)
    decreases |steps|
  {
    steps == [] || (Enabled(s, steps[0]) && Runs(Apply(s, steps[0]), steps[1..]))
  }

  ghost function After(s: State, steps: seq<Step>): State
    requires Runs(s, steps)
    decreases |steps|
  {
    if steps == [] then s else After(Apply(s, steps[0]), steps[1..])
  }

  // ----- the invariant

  /** The captured values of a block are those of the blocks below it, and no lock is taken twice. */
  ghost predicate FrameFits(rest: Stack, f: Frame) {
    match f
    case Nested(p, m, d) => p in Operations(rest) && Operations(rest)[p] == (m, d)
    case Inside(p, _) => p in Barriers(rest)
    case NestedBarrier(p, d) => p in Barriers(rest) && Barriers(rest)[p] == d
    case Callback => true
    case _ => f.path !in SharedPaths(rest) && f.path !in ExclusivePaths(rest)
  }

  ghost predicate WellNested(s: Stack) {
    s == [] || (WellNested(s[..|s| - 1]) && Running(s[..|s| - 1]) && FrameFits(s[..|s| - 1], s[|s| - 1]))
  }

  /** Every mode the thread's operations yielded outside a barrier is the stored one. */
  ghost predicate ModesCurrent(s: State, k: Stack) {
    forall i :: 0 <= i < |k| ==> match k[i]
      case Outer(p, m) => m == StoredMode(s, p)
      case Nested(p, m, _) => m == StoredMode(s, p)
      case _ => true
  }

  ghost predicate Exclusion(s: State) {
    forall t, u, p :: t in s.stacks && u in s.stacks && t != u && p in ExclusivePaths(s.stacks[t]) ==>
      p !in ExclusivePaths(s.stacks[u]) && p !in SharedPaths(s.stacks[u])
  }

  ghost predicate Inv(s: State) {
    && (forall t :: t in s.stacks ==> WellNested(s.stacks[t]) && ModesCurrent(s, s.stacks[t]))
    && Exclusion(s)
  }

  // ----- one stack

  /** Depth entries exist exactly for the locks of outermost blocks that are neither starting nor ending. */
  lemma {:induction false} EntriesFollowLocks(k: Stack)
    requires WellNested(k)
    ensures Operations(k).Keys <= SharedPaths(k) && Barriers(k).Keys <= ExclusivePaths(k)
    ensures Running(k) ==> Operations(k).Keys == SharedPaths(k) && Barriers(k).Keys == ExclusivePaths(k)
    ensures SharedPaths(k) !! ExclusivePaths(k)
  {
    if k != [] { EntriesFollowLocks(k[..|k| - 1]); }
  }

  /** Operation frames on a path mean the shared lock on it. */
  lemma {:induction false} OperationHoldsLock(k: Stack, i: nat)
    requires WellNested(k) && i < |k|
    ensures k[i].Outer? || k[i].Nested? ==> k[i].path in SharedPaths(k)
    ensures k[i].Inside? || k[i].Barrier? || k[i].NestedBarrier? ==> k[i].path in ExclusivePaths(k)
  {
    var rest := k[..|k| - 1];
    EntriesFollowLocks(rest);
    if i < |rest| {
      OperationHoldsLock(rest, i);
    }
  }

  /** The mode in a depth entry is the mode some operation on the stack yielded. */
  lemma {:induction false} EntryModeYielded(s: State, k: Stack, p: string)
    requires WellNested(k) && ModesCurrent(s, k) && p in Operations(k)
    ensures Operations(k)[p].0 == StoredMode(s, p)
  {
    var rest, f := k[..|k| - 1], k[|k| - 1];
    assert forall i :: 0 <= i < |rest| ==> rest[i] == k[i];
    if (f.Outer? || f.Nested?) && f.path == p {
    } else {
      EntryModeYielded(s, rest, p);
    }
  }

  /** Pushing a frame that fits. */
  lemma PushFits(s: State, k: Stack, f: Frame)
    requires WellNested(k) && Running(k) && FrameFits(k, f) && ModesCurrent(s, k)
    requires (f.Outer? || f.Nested?) ==> f.mode == StoredMode(s, f.path)
    ensures WellNested(k + [f]) && ModesCurrent(s, k + [f])
    ensures SharedPaths(k + [f]) == SharedPaths(k) + if f.Locked? || f.Outer? || f.Releasing? then {f.path} else {}
    ensures ExclusivePaths(k + [f]) == ExclusivePaths(k) + if f.Excluding? || f.Barrier? || f.Unbarring? then {f.path} else {}
  {
    assert (k + [f])[..|k|] == k;
  }

  lemma PopFits(s: State, k: Stack)
    requires WellNested(k) && ModesCurrent(s, k) && k != []
    ensures WellNested(k[..|k| - 1]) && Running(k[..|k| - 1]) && ModesCurrent(s, k[..|k| - 1])
  {
    assert forall i :: 0 <= i < |k| - 1 ==> k[..|k| - 1][i] == k[i];
  }

  ghost predicate LocksWithin(n: Stack, k: Stack) {
    ExclusivePaths(n) <= ExclusivePaths(k) && SharedPaths(n) <= SharedPaths(k)
  }

  /** Entering an operation nests properly and takes at most the shared lock, if it is free. */
  lemma EnterOperationFits(s: State, t: nat, p: string)
    requires Inv(s) && Enabled(s, EnterOperation(t, p))
    ensures var k, n := StackOf(s, t), NewStack(s, EnterOperation(t, p));
      && WellNested(n) && ModesCurrent(s, n) && ExclusivePaths(n) == ExclusivePaths(k)
      && (SharedPaths(n) == SharedPaths(k) || (SharedFree(s, t, p) && SharedPaths(n) == SharedPaths(k) + {p}))
  {
    var k := StackOf(s, t);
    EntriesFollowLocks(k);
    if p !in Barriers(k) && p in Operations(k) { EntryModeYielded(s, k, p); }
    PushFits(s, k, EntryFrame(StoredMode(s, p), k, p));
  }

  lemma EnterBarrierFits(s: State, t: nat, p: string)
    requires Inv(s) && Enabled(s, EnterBarrier(t, p))
    ensures var k, n := StackOf(s, t), NewStack(s, EnterBarrier(t, p));
      && WellNested(n) && ModesCurrent(s, n) && SharedPaths(n) == SharedPaths(k)
      && (ExclusivePaths(n) == ExclusivePaths(k) || (ExclusiveFree(s, p) && ExclusivePaths(n) == ExclusivePaths(k) + {p}))
  {
    var k := StackOf(s, t);
    EntriesFollowLocks(k);
    PushFits(s, k, BarrierFrame(k, p));
  }

  predicate TakesShared(f: Frame) { f.Locked? || f.Outer? || f.Releasing? }

  predicate TakesExclusive(f: Frame) { f.Excluding? || f.Barrier? || f.Unbarring? }

  /** The block on top moves on to its next phase, holding the same lock. */
  lemma NextPhaseFits(s: State, k: Stack, f: Frame)
    requires WellNested(k) && ModesCurrent(s, k) && k != []
    requires var top := k[|k| - 1];
      ((TakesShared(top) && TakesShared(f)) || (TakesExclusive(top) && TakesExclusive(f))) && top.path == f.path
    requires f.Outer? ==> f.mode == StoredMode(s, f.path)
    ensures var n := k[..|k| - 1] + [f];
      WellNested(n) && ModesCurrent(s, n) && LocksWithin(n, k)
  {
    PopFits(s, k);
    PushFits(s, k[..|k| - 1], f);
  }

  /** Leaving a block, phase by phase, stays within the locks the thread has. */
  lemma LeaveFits(s: State, k: Stack)
    requires WellNested(k) && ModesCurrent(s, k) && k != []
    ensures WellNested(Exit(k)) && ModesCurrent(s, Exit(k)) && LocksWithin(Exit(k), k)
  {
    var top := k[|k| - 1];
    if top.Outer? {
      NextPhaseFits(s, k, Releasing(top.path));
    } else if top.Barrier? {
      NextPhaseFits(s, k, Unbarring(top.path));
    } else {
      PopFits(s, k);
    }
  }

  lemma ReadModeFits(s: State, k: Stack)
    requires WellNested(k) && ModesCurrent(s, k) && k != [] && k[|k| - 1].Locked?
    ensures var n := k[..|k| - 1] + [Outer(k[|k| - 1].path, StoredMode(s, k[|k| - 1].path))];
      WellNested(n) && ModesCurrent(s, n) && LocksWithin(n, k)
  {
    NextPhaseFits(s, k, Outer(k[|k| - 1].path, StoredMode(s, k[|k| - 1].path)));
  }

  lemma StartBarrierFits(s: State, k: Stack)
    requires WellNested(k) && ModesCurrent(s, k) && k != [] && k[|k| - 1].Excluding?
    ensures var n := k[..|k| - 1] + [Barrier(k[|k| - 1].path)];
      WellNested(n) && ModesCurrent(s, n) && LocksWithin(n, k)
  {
    NextPhaseFits(s, k, Barrier(k[|k| - 1].path));
  }

  lemma CallbackFits(s: State, k: Stack)
    requires WellNested(k) && ModesCurrent(s, k) && Running(k)
    ensures WellNested(k + [Callback]) && ModesCurrent(s, k + [Callback]) && LocksWithin(k + [Callback], k)
  {
    PushFits(s, k, Callback);
  }

  lemma StackFits(s: State, t: nat)
    requires Inv(s)
    ensures WellNested(StackOf(s, t)) && ModesCurrent(s, StackOf(s, t))
  {
  }

  /** Every other step stays within the locks the thread has. */
  lemma OtherStepFits(s: State, step: Step)
    requires Inv(s) && Enabled(s, step) && !step.EnterOperation? && !step.EnterBarrier?
    ensures var k, n := StackOf(s, step.t), NewStack(s, step);
      WellNested(n) && ModesCurrent(s, n) && LocksWithin(n, k)
  {
    StackFits(s, step.t);
    match step
    case EnterCallback(t) => CallbackFits(s, StackOf(s, t));
    case ReadMode(t) => ReadModeFits(s, StackOf(s, t));
    case StartBarrier(t) => StartBarrierFits(s, StackOf(s, t));
    case Leave(t) => LeaveFits(s, StackOf(s, t));
    case _ =>
  }

  /** A thread may keep or drop locks, or take one that is free. */
  lemma SwapKeepsExclusion(s: State, t: nat, n: Stack, p: string, stored: map<string, Mode>)
    requires Exclusion(s)
    requires var k := StackOf(s, t);
      || LocksWithin(n, k)
      || (SharedFree(s, t, p) && ExclusivePaths(n) == ExclusivePaths(k) && SharedPaths(n) == SharedPaths(k) + {p})
      || (ExclusiveFree(s, p) && SharedPaths(n) == SharedPaths(k) && ExclusivePaths(n) == ExclusivePaths(k) + {p})
    ensures Exclusion(State(s.stacks[t := n], stored))
  {
  }

  lemma ExclusionKept(s: State, step: Step)
    requires Inv(s) && Enabled(s, step)
    ensures Exclusion(Apply(s, step))
  {
    if step.EnterOperation? {
      EnterOperationFits(s, step.t, step.path);
      SwapKeepsExclusion(s, step.t, NewStack(s, step), step.path, s.stored);
    } else if step.EnterBarrier? {
      EnterBarrierFits(s, step.t, step.path);
      SwapKeepsExclusion(s, step.t, NewStack(s, step), step.path, s.stored);
    } else {
      OtherStepFits(s, step);
      SwapKeepsExclusion(s, step.t, NewStack(s, step), "", if step.Flip? then s.stored[step.path := step.mode] else s.stored);
    }
  }

  lemma NewStackFits(s: State, step: Step)
    requires Inv(s) && Enabled(s, step)
    ensures WellNested(NewStack(s, step)) && ModesCurrent(s, NewStack(s, step))
  {
    match step
    case EnterOperation(t, p) => EnterOperationFits(s, t, p);
    case EnterBarrier(t, p) => EnterBarrierFits(s, t, p);
    case _ => OtherStepFits(s, step);
  }

  /** A flip happens inside a barrier, where no operation outside it can have yielded the old mode. */
  lemma FlipDisturbsNobody(s: State, t: nat, p: string, mode: Mode, u: nat)
    requires Inv(s) && Enabled(s, Flip(t, p, mode)) && u in s.stacks
    ensures ModesCurrent(s.(stored := s.stored[p := mode]), s.stacks[u])
  {
    var k := StackOf(s, t);
    EntriesFollowLocks(k);
    EntriesFollowLocks(s.stacks[u]);
    forall i | 0 <= i < |s.stacks[u]| ensures s.stacks[u][i].Outer? || s.stacks[u][i].Nested? ==> s.stacks[u][i].path != p {
      OperationHoldsLock(s.stacks[u], i);
    }
  }

  lemma StepKeepsInv(s: State, step: Step)
    requires Inv(s) && Enabled(s, step)
    ensures Inv(Apply(s, step))
  {
    var r := Apply(s, step);
    NewStackFits(s, step);
    ExclusionKept(s, step);
    forall u | u in r.stacks ensures WellNested(r.stacks[u]) && ModesCurrent(r, r.stacks[u]) {
      StackKept(s, step, u);
    }
  }

  lemma StackKept(s: State, step: Step, u: nat)
    requires Inv(s) && Enabled(s, step) && u in Apply(s, step).stacks
    requires WellNested(NewStack(s, step)) && ModesCurrent(s, NewStack(s, step))
    ensures WellNested(Apply(s, step).stacks[u]) && ModesCurrent(Apply(s, step), Apply(s, step).stacks[u])
  {
    if step.Flip? {
      FlipKeepsStack(s, step.t, step.path, step.mode, u);
    } else {
      SameStored(s, Apply(s, step), if u == step.t then NewStack(s, step) else s.stacks[u]);
    }
  }

  lemma FlipKeepsStack(s: State, t: nat, p: string, mode: Mode, u: nat)
    requires Inv(s) && Enabled(s, Flip(t, p, mode)) && u in Apply(s, Flip(t, p, mode)).stacks
    ensures WellNested(Apply(s, Flip(t, p, mode)).stacks[u])
    ensures ModesCurrent(Apply(s, Flip(t, p, mode)), Apply(s, Flip(t, p, mode)).stacks[u])
  {
    var r := Apply(s, Flip(t, p, mode));
    if u in s.stacks {
      FlipDisturbsNobody(s, t, p, mode, u);
      SameStored(s.(stored := s.stored[p := mode]), r, s.stacks[u]);
    }
  }

  lemma SameStored(s: State, r: State, k: Stack)
    requires s.stored == r.stored && ModesCurrent(s, k)
    ensures ModesCurrent(r, k)
  {
  }

  const START := State(map[], map[])

  lemma {:induction false} RunsKeepInv(s: State, steps: seq<Step>)
    requires Inv(s) && Runs(s, steps)
    ensures Inv(After(s, steps))
    decreases |steps|
  {
    if steps != [] {
      StepKeepsInv(s, steps[0]);
      RunsKeepInv(Apply(s, steps[0]), steps[1..]);
    }
  }

  // ----- what every interleaving promises

  /** The thread is inside an operation on the path, reentrant and barrier-owned ones included. */
  ghost predicate InOperation(k: Stack, p: string) {
    exists i :: 0 <= i < |k| && (k[i].Outer? || k[i].Nested? || k[i].Inside?) && k[i].path == p
  }

  /** While one thread is in a barrier, no other thread is inside an operation or a barrier on that path. */
  lemma BarrierExcludesOthers(steps: seq<Step>, t: nat, u: nat, p: string)
    requires Runs(START, steps) && t != u
    requires p in Barriers(StackOf(After(START, steps), t))
    ensures var k := StackOf(After(START, steps), u);
      !InOperation(k, p) && p !in Operations(k) && p !in Barriers(k)
  {
    RunsKeepInv(START, steps);
    var s := After(START, steps);
    EntriesFollowLocks(StackOf(s, t));
    EntriesFollowLocks(StackOf(s, u));
    if InOperation(StackOf(s, u), p) {
      var k := StackOf(s, u);
      var i :| 0 <= i < |k| && (k[i].Outer? || k[i].Nested? || k[i].Inside?) && k[i].path == p;
      OperationHoldsLock(k, i);
    }
  }

  /** As long as an operation outside a barrier has not been left, the mode it yielded is the stored mode. */
  lemma YieldedModeStaysCurrent(steps: seq<Step>, t: nat, i: nat)
    requires Runs(START, steps) && i < |StackOf(After(START, steps), t)|
    ensures var s := After(START, steps);
      match StackOf(s, t)[i]
      case Outer(p, m) => m == StoredMode(s, p)
      case Nested(p, m, _) => m == StoredMode(s, p)
      case _ => true
  {
    RunsKeepInv(START, steps);
    assert ModesCurrent(After(START, steps), StackOf(After(START, steps), t));
  }

  /**
   Whatever happened before, an operation that reaches its `yield`, outermost, reentrant or inside an owned barrier,
   yields the mode stored at that moment for its path.
   */
  lemma EntryYieldsStored(before: seq<Step>, step: Step)
    requires Runs(START, before) && Enabled(After(START, before), step) && (step.EnterOperation? || step.ReadMode?)
    ensures var s := After(START, before);
      var k, n := StackOf(s, step.t), StackOf(Apply(s, step), step.t);
      n != [] && var f := n[|n| - 1];
      && (f.Outer? || f.Nested? || f.Inside? ==> f.mode == StoredMode(s, f.path))
      && (step.EnterOperation? ==> n == k + [f] && (f.Locked? || f.Nested? || f.Inside?) && f.path == step.path)
      && (step.EnterOperation? && step.path in Barriers(k) ==> f == Inside(step.path, StoredMode(s, step.path)))
      && (step.ReadMode? ==> n == k[..|k| - 1] + [f] && f.Outer? && f.path == k[|k| - 1].path)
  {
    RunsKeepInv(START, before);
    var s := After(START, before);
    StackFits(s, step.t);
    if step.EnterOperation? && step.path !in Barriers(StackOf(s, step.t)) && step.path in Operations(StackOf(s, step.t)) {
      EntryModeYielded(s, StackOf(s, step.t), step.path);
    }
  }

  /** A run that does not flip the path leaves its stored mode alone. */
  lemma {:induction false} StoredKept(s: State, steps: seq<Step>, p: string)
    requires Runs(s, steps) && forall i :: 0 <= i < |steps| ==> !(steps[i].Flip? && steps[i].path == p)
    ensures StoredMode(After(s, steps), p) == StoredMode(s, p)
    decreases |steps|
  {
    if steps != [] {
      assert forall i :: 0 <= i < |steps| - 1 ==> steps[1..][i] == steps[i + 1];
      StoredKept(Apply(s, steps[0]), steps[1..], p);
    }
  }

  /**
   Whatever happened before a flip and whatever happens after it, until the next flip of the path every operation
   outside a barrier, on any thread, has the mode that was set.
   */
  lemma FlipIsSeen(before: seq<Step>, t: nat, p: string, mode: Mode, after: seq<Step>, u: nat, i: nat)
    requires Runs(START, before) && Enabled(After(START, before), Flip(t, p, mode))
    requires Runs(Apply(After(START, before), Flip(t, p, mode)), after)
    requires forall j :: 0 <= j < |after| ==> !(after[j].Flip? && after[j].path == p)
    requires i < |StackOf(After(Apply(After(START, before), Flip(t, p, mode)), after), u)|
    ensures var f := StackOf(After(Apply(After(START, before), Flip(t, p, mode)), after), u)[i];
      (f.Outer? || f.Nested?) && f.path == p ==> f.mode == mode
  {
    RunsKeepInv(START, before);
    var s := After(START, before);
    StepKeepsInv(s, Flip(t, p, mode));
    var flipped := Apply(s, Flip(t, p, mode));
    RunsKeepInv(flipped, after);
    StoredKept(flipped, after, p);
    assert ModesCurrent(After(flipped, after), StackOf(After(flipped, after), u));
  }

  /** After any run a thread holds the lock of a path exactly while it is inside some block on it. */
  lemma HeldExactlyInside(steps: seq<Step>, t: nat, p: string)
    requires Runs(START, steps)
    ensures var k := StackOf(After(START, steps), t);
      p in SharedPaths(k) || p in ExclusivePaths(k) <==> exists i :: 0 <= i < |k| && !k[i].Callback? && k[i].path == p
  {
    RunsKeepInv(START, steps);
    StackFits(After(START, steps), t);
    InsideHolds(StackOf(After(START, steps), t), p);
  }

  lemma {:induction false} InsideHolds(k: Stack, p: string)
    requires WellNested(k)
    ensures p in SharedPaths(k) || p in ExclusivePaths(k) <==> exists i :: 0 <= i < |k| && !k[i].Callback? && k[i].path == p
  {
    if k != [] {
      var rest, f := k[..|k| - 1], k[|k| - 1];
      InsideHolds(rest, p);
      EntriesFollowLocks(rest);
      assert forall i :: 0 <= i < |rest| ==> rest[i] == k[i];
      if !f.Callback? && f.path == p { assert k[|k| - 1].path == p; }
    }
  }

  // ----- depths and callbacks

  function OperationOn(p: string): Frame -> bool {
    (f: Frame) => (f.Outer? || f.Nested?) && f.path == p
  }

  function BarrierOn(p: string): Frame -> bool {
    (f: Frame) => (f.Barrier? || f.NestedBarrier?) && f.path == p
  }

  /** The operation entry of a path counts the operations the thread is inside, and is there when it is inside one. */
  lemma {:induction false} OperationDepth(k: Stack, p: string)
    requires WellNested(k)
    ensures |Filter(k, OperationOn(p))| == if p in Operations(k) then Operations(k)[p].1 else 0
    ensures p in Operations(k) ==> Operations(k)[p].1 > 0
  {
    if k != [] {
      OperationDepth(k[..|k| - 1], p);
      EntriesFollowLocks(k[..|k| - 1]);
    }
  }

  /** And so does the barrier entry. */
  lemma {:induction false} BarrierDepth(k: Stack, p: string)
    requires WellNested(k)
    ensures |Filter(k, BarrierOn(p))| == if p in Barriers(k) then Barriers(k)[p] else 0
    ensures p in Barriers(k) ==> Barriers(k)[p] > 0
  {
    if k != [] {
      BarrierDepth(k[..|k| - 1], p);
      EntriesFollowLocks(k[..|k| - 1]);
    }
  }

  /** Over every interleaving a thread's depth entries count its blocks. */
  lemma EntriesCountBlocks(steps: seq<Step>, t: nat, p: string)
    requires Runs(START, steps)
    ensures var k := StackOf(After(START, steps), t);
      && (p in Operations(k) ==> Operations(k)[p].1 == |Filter(k, OperationOn(p))|)
      && (p in Barriers(k) ==> Barriers(k)[p] == |Filter(k, BarrierOn(p))|)
  {
    RunsKeepInv(START, steps);
    StackFits(After(START, steps), t);
    OperationDepth(StackOf(After(START, steps), t), p);
    BarrierDepth(StackOf(After(START, steps), t), p);
  }

  /** Above a callback there are only callbacks. */
  ghost predicate CallbacksOnTop(k: Stack) {
    forall i, j :: 0 <= i < j < |k| && k[i].Callback? ==> k[j].Callback?
  }

  lemma {:induction false} NoCallbacks(k: Stack)
    ensures Callbacks(k) == 0 <==> forall i :: 0 <= i < |k| ==> !k[i].Callback?
  {
    if k != [] { NoCallbacks(k[..|k| - 1]); }
  }

  lemma StepKeepsCallbacks(s: State, step: Step)
    requires Enabled(s, step) && CallbacksOnTop(StackOf(s, step.t))
    ensures CallbacksOnTop(NewStack(s, step))
  {
    NoCallbacks(StackOf(s, step.t));
  }

  /** Over every interleaving nothing but further callbacks is entered inside a callback. */
  lemma {:induction false} NothingEnteredInCallbacks(s: State, steps: seq<Step>, t: nat)
    requires Runs(s, steps) && forall u :: u in s.stacks ==> CallbacksOnTop(s.stacks[u])
    ensures CallbacksOnTop(StackOf(After(s, steps), t))
    decreases |steps|
  {
    if steps != [] {
      StepKeepsCallbacks(s, steps[0]);
      NothingEnteredInCallbacks(Apply(s, steps[0]), steps[1..], t);
    }
  }

  // ----- every block can be left, and every path barred

  /** How many exit steps the thread still has to take. */
  function ExitSteps(k: Stack): nat {
    if k == [] then 0 else ExitSteps(k[..|k| - 1]) + if k[|k| - 1].Outer? || k[|k| - 1].Barrier? then 2 else 1
  }

  lemma ExitIsNearer(k: Stack)
    requires k != []
    ensures ExitSteps(Exit(k)) < ExitSteps(k)
  {
    var rest := k[..|k| - 1];
    match k[|k| - 1]
    case Outer(p, _) => assert (rest + [Releasing(p)])[..|rest|] == rest;
    case Barrier(p) => assert (rest + [Unbarring(p)])[..|rest|] == rest;
    case _ =>
  }

  lemma RunsThen(s: State, step: Step, rest: seq<Step>)
    requires Enabled(s, step) && Runs(Apply(s, step), rest)
    ensures Runs(s, [step] + rest) && After(s, [step] + rest) == After(Apply(s, step), rest)
  {
    assert ([step] + rest)[1..] == rest;
  }

  lemma ConsAppend<T>(a: seq<T>, b: seq<T>)
    requires a != []
    ensures a + b == [a[0]] + (a[1..] + b)
  {
  }

  lemma {:induction false} RunsOn(s: State, a: seq<Step>, b: seq<Step>)
    requires Runs(s, a) && Runs(After(s, a), b)
    ensures Runs(s, a + b) && After(s, a + b) == After(After(s, a), b)
    decreases |a|
  {
    if a == [] {
      assert a + b == b;
    } else {
      RunsOn(Apply(s, a[0]), a[1..], b);
      ConsAppend(a, b);
      RunsThen(s, a[0], a[1..] + b);
    }
  }

  lemma LeaveAll(s: State, t: nat) returns (steps: seq<Step>)
    ensures Runs(s, steps) && StackOf(After(s, steps), t) == [] && After(s, steps).stored == s.stored
    ensures forall u :: u != t ==> StackOf(After(s, steps), u) == StackOf(s, u)
    decreases ExitSteps(StackOf(s, t))
  {
    if StackOf(s, t) == [] {
      steps := [];
    } else {
      ExitIsNearer(StackOf(s, t));
      var rest := LeaveAll(Apply(s, Leave(t)), t);
      RunsThen(s, Leave(t), rest);
      steps := [Leave(t)] + rest;
    }
  }

  /** The threads that are inside some block. */
  ghost function Busy(s: State): set<nat> {
    set t | t in s.stacks && s.stacks[t] != []
  }

  lemma Drain(s: State) returns (steps: seq<Step>)
    ensures Runs(s, steps) && Busy(After(s, steps)) == {} && After(s, steps).stored == s.stored
    decreases Busy(s)
  {
    if Busy(s) == {} {
      steps := [];
    } else {
      var t :| t in Busy(s);
      var leave := LeaveAll(s, t);
      var r := After(s, leave);
      forall u | u in Busy(r) ensures u in Busy(s) && u != t {
        assert StackOf(r, u) != [];
      }
      assert Busy(r) <= Busy(s) - {t};
      var rest := Drain(r);
      RunsOn(s, leave, rest);
      steps := leave + rest;
    }
  }

  lemma EnterFree(s: State, t: nat, p: string)
    requires Busy(s) == {}
    ensures Enabled(s, EnterBarrier(t, p)) && StackOf(Apply(s, EnterBarrier(t, p)), t) == [Excluding(p)]
  {
    forall u | u in s.stacks ensures s.stacks[u] == [] {
      assert u !in Busy(s);
    }
  }

  lemma StartFree(s: State, t: nat, p: string)
    requires StackOf(s, t) == [Excluding(p)]
    ensures Enabled(s, StartBarrier(t)) && StackOf(Apply(s, StartBarrier(t)), t) == [Barrier(p)]
  {
    assert [Excluding(p)][..0] == [];
  }

  lemma FlipFree(s: State, t: nat, p: string, mode: Mode)
    requires StackOf(s, t) == [Barrier(p)]
    ensures Enabled(s, Flip(t, p, mode))
    ensures var r := Apply(s, Flip(t, p, mode));
      StackOf(r, t) == [Barrier(p)] && p in Barriers(StackOf(r, t)) && StoredMode(r, p) == mode
  {
    assert [Barrier(p)][..0] == [];
  }

  lemma BarAndFlip(s: State, t: nat, p: string, mode: Mode) returns (steps: seq<Step>)
    requires Busy(s) == {}
    ensures Runs(s, steps) && p in Barriers(StackOf(After(s, steps), t)) && StoredMode(After(s, steps), p) == mode
  {
    EnterFree(s, t, p);
    var s1 := Apply(s, EnterBarrier(t, p));
    StartFree(s1, t, p);
    var s2 := Apply(s1, StartBarrier(t));
    FlipFree(s2, t, p, mode);
    RunsThen(s2, Flip(t, p, mode), []);
    steps := [Flip(t, p, mode)] + [];
    RunsThen(s1, StartBarrier(t), steps);
    steps := [StartBarrier(t)] + steps;
    RunsThen(s, EnterBarrier(t, p), steps);
    steps := [EnterBarrier(t, p)] + steps;
  }

  /**
   No interleaving locks a path for good: from every reachable state some run gets every thread out of its
   blocks with the stored modes unchanged, and then any thread can bar any path and set its mode.
   */
  lemma EveryPathCanBeFlipped(before: seq<Step>, t: nat, p: string, mode: Mode)
    requires Runs(START, before)
    ensures exists leave, flip :: var s := After(START, before);
      Runs(s, leave) && After(s, leave).stored == s.stored && Runs(After(s, leave), flip)
      && p in Barriers(StackOf(After(After(s, leave), flip), t)) && StoredMode(After(After(s, leave), flip), p) == mode
  {
    var s := After(START, before);
    var leave := Drain(s);
    var flip := BarAndFlip(After(s, leave), t, p, mode);
  }

  // ----- one thread's depth maps

  datatype Error = Invalid | LockTimeout

  /**
   One thread's `threading.local`: operations and barriers with their depth, and the callback depth.
   `stack` holds the suspended blocks with their captured variables. The stored mode and whether the
   file lock could be had within the timeout come from outside.
   */
  class ThreadLocals {
    var operations: map<string, (Mode, nat)>
    var barriers: map<string, nat>
    var callbackDepth: nat
    var stack: Stack

    /** The maps are what the entered blocks imply. */
    ghost predicate Valid()
      reads this
    {
      && WellNested(stack)
      && operations == Operations(stack) && barriers == Barriers(stack) && callbackDepth == Callbacks(stack)
    }

    constructor ()
      ensures Valid() && stack == []
    {
      operations, barriers, callbackDepth, stack := map[], map[], 0, [];
    }

    /** `operation` up to its `yield`, or up to holding the shared lock when it is an outermost one. */
    method EnterOperationBlock(p: string, mode: Mode, lockFree: bool) returns (r: Result<(), Error>)
      requires Valid() && Running(stack)
      modifies this
      ensures Valid()
      ensures r.Ok? <==> Callbacks(old(stack)) == 0 && (p in Barriers(old(stack)) || p in Operations(old(stack)) || lockFree)
      ensures stack == if r.Ok? then old(stack) + [EntryFrame(mode, old(stack), p)] else old(stack)
    {
      EntriesFollowLocks(stack);
      if callbackDepth != 0 {
        return Err(Invalid);
      }
      if p in barriers {
        Push(Inside(p, mode));
        return Ok(());
      }
      if p in operations {
        var (yielded, depth) := operations[p];
        operations := operations[p := (yielded, depth + 1)];
        Push(Nested(p, yielded, depth));
        return Ok(());
      }
      if !lockFree {
        return Err(LockTimeout);
      }
      Push(Locked(p));
      r := Ok(());
    }

    /** The maps have been updated for `f`; the block is now suspended at its `yield`. */
    method Push(f: Frame)
      requires WellNested(stack) && Running(stack) && FrameFits(stack, f)
      requires operations == Opened(Operations(stack), f) && barriers == Barred(Barriers(stack), f)
      requires callbackDepth == Callbacks(stack) + if f.Callback? then 1 else 0
      modifies this`stack
      ensures Valid() && stack == old(stack) + [f]
    {
      assert (stack + [f])[..|stack|] == stack;
      stack := stack + [f];
    }

    /** The outermost operation reads the mode and registers itself. */
    method RegisterMode(mode: Mode)
      requires Valid() && stack != [] && stack[|stack| - 1].Locked?
      modifies this
      ensures Valid() && stack == old(stack)[..|old(stack)| - 1] + [Outer(old(stack)[|old(stack)| - 1].path, mode)]
    {
      var rest, p := stack[..|stack| - 1], stack[|stack| - 1].path;
      operations := operations[p := (mode, 1)];
      stack := rest;
      Push(Outer(p, mode));
    }

    method EnterBarrierBlock(p: string, lockFree: bool) returns (r: Result<(), Error>)
      requires Valid() && Running(stack)
      modifies this
      ensures Valid()
      ensures r.Ok? <==>
        Callbacks(old(stack)) == 0 && (p in Barriers(old(stack)) || (p !in Operations(old(stack)) && lockFree))
      ensures stack == if r.Ok? then old(stack) + [BarrierFrame(old(stack), p)] else old(stack)
    {
      EntriesFollowLocks(stack);
      if callbackDepth != 0 {
        return Err(Invalid);
      }
      if p in barriers {
        var depth := barriers[p];
        barriers := barriers[p := depth + 1];
        Push(NestedBarrier(p, depth));
        return Ok(());
      }
      if p in operations {
        return Err(Invalid);
      }
      if !lockFree {
        return Err(LockTimeout);
      }
      Push(Excluding(p));
      r := Ok(());
    }

    method RegisterBarrier()
      requires Valid() && stack != [] && stack[|stack| - 1].Excluding?
      modifies this
      ensures Valid() && stack == old(stack)[..|old(stack)| - 1] + [Barrier(old(stack)[|old(stack)| - 1].path)]
    {
      var rest, p := stack[..|stack| - 1], stack[|stack| - 1].path;
      barriers := barriers[p := 1];
      stack := rest;
      Push(Barrier(p));
    }

    method EnterCallbackScope()
      requires Valid() && Running(stack)
      modifies this
      ensures Valid() && stack == old(stack) + [Callback]
    {
      callbackDepth := callbackDepth + 1;
      Push(Callback);
    }

    /** The `finally` code of the innermost block, with the variables it captured on entry. */
    method LeaveBlock()
      requires Valid() && stack != []
      modifies this
      ensures Valid() && stack == Exit(old(stack))
    {
      var rest, f := stack[..|stack| - 1], stack[|stack| - 1];
      EntriesFollowLocks(rest);
      stack := rest;
      match f {
        case Outer(p, _) =>
          operations := operations - {p};
          Push(Releasing(p));
        case Nested(p, mode, depth) =>
          operations := operations[p := (mode, depth)];
        case Barrier(p) =>
          barriers := barriers - {p};
          Push(Unbarring(p));
        case NestedBarrier(p, depth) =>
          barriers := barriers[p := depth];
        case Callback =>
          callbackDepth := callbackDepth - 1;
        case _ =>
      }
    }

    /** A running thread has a depth entry for a path exactly while it is inside some block on it, so none when it has left all. */
    lemma EntriesExactlyInside(p: string)
      requires Valid() && Running(stack)
      ensures p in operations || p in barriers <==> exists i :: 0 <= i < |stack| && !stack[i].Callback? && stack[i].path == p
      ensures stack == [] ==> operations == map[] && barriers == map[] && callbackDepth == 0
    {
      EntriesFollowLocks(stack);
      InsideHolds(stack, p);
    }
  }
}

/**
 The version-checked cache. A history of timed writes says what each tracked file holds and how it
 stats at any time; the cache sees only versions, loaded values and clock readings. Times are in
 nanoseconds of one monotone clock that also stamps the files, at some granularity.
 */
module CachedData {
  import opened Basics

  // ----- files over time

  /** `content` is `None` for a removal; `attrs` stands for size, inode and change time. */
  datatype Write = Write(time: int, path: string, content: Option<string>, attrs: string)

  datatype Stat = Stat(mtime: int, attrs: string)

  /** A version token: the stat of every tracked path, or `None` where there is no file. */
  type Version = map<string, Option<Stat>>

  const RACY_WINDOW := 2_000_000_000

  datatype World = World(writes: seq<Write>, stamp: int -> int, granularity: int, paths: set<string>)

  ghost predicate Clocked(w: World) {
    && w.granularity > 0
    && (forall i, j :: 0 <= i < j < |w.writes| ==> w.writes[i].time <= w.writes[j].time)
    && (forall t :: t - w.granularity < w.stamp(t) <= t)
  }

  /** How many of the writes have happened by time `t` up to and including the last one to `path`. */
  function LastTouch(writes: seq<Write>, path: string, t: int): nat {
    if writes == [] then 0
    else
      var last := writes[|writes| - 1];
      if last.path == path && last.time <= t then |writes| else LastTouch(writes[..|writes| - 1], path, t)
  }

  lemma {:induction false} LastTouchIsLast(writes: seq<Write>, path: string, t: int)
    ensures var n := LastTouch(writes, path, t);
      n <= |writes|
      && (n > 0 ==> writes[n - 1].path == path && writes[n - 1].time <= t)
      && (forall i :: n <= i < |writes| ==> !(writes[i].path == path && writes[i].time <= t))
  {
    if writes != [] { LastTouchIsLast(writes[..|writes| - 1], path, t); }
  }

  function ContentAt(w: World, path: string, t: int): Option<string> {
    var n := LastTouch(w.writes, path, t);
    LastTouchIsLast(w.writes, path, t);
    if n == 0 then None else w.writes[n - 1].content
  }

  function StatAt(w: World, path: string, t: int): Option<Stat> {
    var n := LastTouch(w.writes, path, t);
    LastTouchIsLast(w.writes, path, t);
    if n == 0 || w.writes[n - 1].content.None? then None
    else Some(Stat(w.stamp(w.writes[n - 1].time), w.writes[n - 1].attrs))
  }

  /** When each path is looked at; a version or a load looks at one path after the other. */
  type Times = map<string, int>

  ghost predicate VersionOf(w: World, v: Version, at: Times) {
    v.Keys == at.Keys == w.paths && forall p :: p in w.paths ==> v[p] == StatAt(w, p, at[p])
  }

  type Contents = map<string, Option<string>>

  function ContentsAt(w: World, at: Times): Contents {
    map p | p in at :: ContentAt(w, p, at[p])
  }

  /** `is_racy_at`: some file was modified within two seconds of the load. */
  predicate RacyAt(v: Version, timestamp: int) {
    exists p :: p in v && v[p].Some? && -RACY_WINDOW <= v[p].value.mtime - timestamp <= RACY_WINDOW
  }

  // ----- the cache

  datatype Cache<T> = Cache(version: Option<Version>, value: Option<T>, loadedAt: int)

  /** One turn of the retry loop as the cache sees it; `loaded` is `None` when the load raises. */
  datatype Attempt<T> = Attempt(before: Version, loaded: Option<T>, loadedAt: int, after: Version)

  datatype Error = LoadFailed | Unstable

  predicate Hit<T>(c: Cache<T>, current: Version) {
    c.value.Some? && c.version == Some(current) && !RacyAt(current, c.loadedAt)
  }

  /** What `get` does with the attempts left: the new cache and what it returns. */
  function Load<T>(c: Cache<T>, attempts: seq<Attempt<T>>): (Cache<T>, Result<T, Error>)
    decreases |attempts|
  {
    if attempts == [] then (c, if c.value.Some? then Ok(c.value.value) else Err(Unstable))
    else
      var a := attempts[0];
      if a.loaded.None? then (c, if c.value.Some? then Ok(c.value.value) else Err(LoadFailed))
      else if a.before == a.after then (Cache(Some(a.before), a.loaded, a.loadedAt), Ok(a.loaded.value))
      else Load(c, attempts[1..])
  }

  function Get<T>(c: Cache<T>, current: Version, attempts: seq<Attempt<T>>): (Cache<T>, Result<T, Error>) {
    if Hit(c, current) then (c, Ok(c.value.value)) else Load(c, attempts)
  }

  class CachedReader<T> {
    var cachedVersion: Option<Version>
    var cached: Option<T>
    var loadedAt: int

    ghost function Fields(): Cache<T>
      reads this
    {
      Cache(cachedVersion, cached, loadedAt)
    }

    constructor ()
      ensures Fields() == Cache(None, None, 0)
    {
      cachedVersion, cached, loadedAt := None, None, 0;
    }

    /** At most three attempts; `attempts` is what the version, load and clock calls would return. */
    method Read(current: Version, attempts: seq<Attempt<T>>) returns (r: Result<T, Error>)
      requires |attempts| == 3
      modifies this
      ensures (Fields(), r) == Get(old(Fields()), current, attempts)
    {
      if cached.Some? && cachedVersion.Some? && current == cachedVersion.value && !RacyAt(cachedVersion.value, loadedAt) {
        return Ok(cached.value);
      }
      for i := 0 to 3
        invariant Fields() == old(Fields()) && !Hit(Fields(), current)
        invariant Load(Fields(), attempts[i..]) == Load(old(Fields()), attempts)
      {
        var a := attempts[i];
        assert attempts[i..][1..] == attempts[i + 1..];
        if a.loaded.None? {
          return if cached.Some? then Ok(cached.value) else Err(LoadFailed);
        }
        if a.before == a.after {
          cachedVersion, cached, loadedAt := Some(a.before), a.loaded, a.loadedAt;
          return Ok(a.loaded.value);
        }
      }
      r := if cached.Some? then Ok(cached.value) else Err(Unstable);
    }
  }

  // ----- what a call returns

  /** An attempt that changes nothing and ends nothing: its load came through between two different versions. */
  predicate Restless<T>(a: Attempt<T>) {
    a.loaded.Some? && a.before != a.after
  }

  /**
   Whatever a call does, it returns the value the cache holds afterwards. If it holds none, the call raises the
   load's error when some load failed, and otherwise reports that the data never held still.
   */
  lemma {:induction false} LoadReturnsCached<T>(c: Cache<T>, attempts: seq<Attempt<T>>)
    ensures var (after, r) := Load(c, attempts);
      && (after.value.Some? ==> r == Ok(after.value.value))
      && (after.value.None? ==> c == after && r == Err(if exists a :: a in attempts && a.loaded.None? then LoadFailed else Unstable))
    decreases |attempts|
  {
    if attempts != [] {
      assert attempts == [attempts[0]] + attempts[1..];
      if Restless(attempts[0]) { LoadReturnsCached(c, attempts[1..]); }
    }
  }

  lemma ReturnsCached<T>(c: Cache<T>, current: Version, attempts: seq<Attempt<T>>)
    ensures var (after, r) := Get(c, current, attempts);
      && (after.value.Some? ==> r == Ok(after.value.value))
      && (after.value.None? ==> c == after && r == Err(if exists a :: a in attempts && a.loaded.None? then LoadFailed else Unstable))
  {
    if !Hit(c, current) { LoadReturnsCached(c, attempts); }
  }

  /** The first attempt that is not restless decides: if its load came through it is cached and returned, else nothing changes. */
  lemma {:induction false} FirstSettledDecides<T>(c: Cache<T>, attempts: seq<Attempt<T>>, i: nat)
    requires i <= |attempts| && forall j :: 0 <= j < i ==> Restless(attempts[j])
    requires i < |attempts| ==> !Restless(attempts[i])
    ensures var (after, r) := Load(c, attempts);
      if i < |attempts| && attempts[i].loaded.Some?
      then after == Cache(Some(attempts[i].before), attempts[i].loaded, attempts[i].loadedAt) && r == Ok(attempts[i].loaded.value)
      else after == c
    decreases |attempts|
  {
    if attempts != [] && i > 0 {
      FirstSettledDecides(c, attempts[1..], i - 1);
    }
  }

  /** While the version is the cached one and no file was modified near the load, nothing is loaded again. */
  lemma UnchangedIsHit<T>(c: Cache<T>, current: Version, attempts: seq<Attempt<T>>)
    requires c.value.Some? && c.version == Some(current)
    requires forall p :: p in current && current[p].Some? ==>
      current[p].value.mtime < c.loadedAt - 2_000_000_000 || current[p].value.mtime > c.loadedAt + 2_000_000_000
    ensures Get(c, current, attempts) == (c, Ok(c.value.value))
  {
  }

  // ----- freshness

  /** Some write to `p` happened after `from` and no later than `to`. */
  ghost predicate Touched(w: World, p: string, from: int, to: int) {
    exists i :: 0 <= i < |w.writes| && w.writes[i].path == p && from < w.writes[i].time <= to
  }

  /** A load as it happens: the version's stats, then the reads, then the clock, all within `duration`. */
  ghost predicate RealLoad<T(!new)>(w: World, load: Contents -> T, duration: int, version: Version, value: T, loadedAt: int,
                                    statAt: Times, readAt: Times)
  {
    && VersionOf(w, version, statAt) && readAt.Keys == w.paths
    && value == load(ContentsAt(w, readAt))
    && (forall p :: p in w.paths ==> statAt[p] <= readAt[p] <= loadedAt <= statAt[p] + duration)
  }

  /** No path without a file at its stat has one by the time it is read. */
  ghost predicate AbsentStayAbsent(w: World, version: Version, readAt: Times)
    requires version.Keys == readAt.Keys
  {
    forall p :: p in version && version[p].None? ==> ContentAt(w, p, readAt[p]).None?
  }

  lemma UntouchedSame(w: World, p: string, from: int, to: int)
    requires from <= to && !Touched(w, p, from, to)
    ensures LastTouch(w.writes, p, from) == LastTouch(w.writes, p, to)
  {
    LastTouchIsLast(w.writes, p, from);
    LastTouchIsLast(w.writes, p, to);
  }

  /** A file whose stat is unchanged and not racy has not been written since before it was read. */
  lemma StatUnchangedMeansUntouched(w: World, p: string, from: int, to: int, loadedAt: int, duration: int)
    requires Clocked(w) && w.granularity + duration <= RACY_WINDOW
    requires from <= loadedAt <= from + duration && from <= to
    requires StatAt(w, p, from).Some? && StatAt(w, p, from) == StatAt(w, p, to)
    requires !(-RACY_WINDOW <= StatAt(w, p, from).value.mtime - loadedAt <= RACY_WINDOW)
    ensures !Touched(w, p, from, to)
  {
    LastTouchIsLast(w.writes, p, from);
    LastTouchIsLast(w.writes, p, to);
    var m, n := LastTouch(w.writes, p, from), LastTouch(w.writes, p, to);
    assert w.stamp(w.writes[n - 1].time) == w.stamp(w.writes[m - 1].time);
    assert w.writes[n - 1].time <= from;
    forall i | 0 <= i < |w.writes| && w.writes[i].path == p && w.writes[i].time <= to ensures w.writes[i].time <= from {
      assert i <= n - 1 && w.writes[i].time <= w.writes[n - 1].time;
    }
  }

  /** One path of a hit: present files are as they were read, absent ones exactly if absent when read. */
  lemma HitPath(w: World, p: string, duration: int, statAt: int, readAt: int, loadedAt: int, hitAt: int)
    requires Clocked(w) && w.granularity + duration <= RACY_WINDOW
    requires statAt <= readAt <= loadedAt <= statAt + duration && loadedAt <= hitAt
    requires StatAt(w, p, statAt) == StatAt(w, p, hitAt)
    requires StatAt(w, p, statAt).Some? ==>
               !(-RACY_WINDOW <= StatAt(w, p, statAt).value.mtime - loadedAt <= RACY_WINDOW)
    ensures ContentAt(w, p, readAt) == ContentAt(w, p, hitAt) <==> (StatAt(w, p, statAt).None? ==> ContentAt(w, p, readAt).None?)
  {
    if StatAt(w, p, statAt).Some? {
      StatUnchangedMeansUntouched(w, p, statAt, hitAt, loadedAt, duration);
      UntouchedSame(w, p, readAt, hitAt);
    }
  }

  /**
   What a hit returns is what a fresh load at that moment would, on exactly one condition: every tracked
   path that had no file at its stat had none when it was read. Present files need no condition.
   */
  lemma HitIsFresh<T(!new)>(w: World, load: Contents -> T, duration: int, c: Cache<T>, statAt: Times, readAt: Times,
                            current: Version, hitAt: Times)
    requires Clocked(w) && w.granularity + duration <= RACY_WINDOW
    requires c.version.Some? && c.value.Some?
    requires RealLoad(w, load, duration, c.version.value, c.value.value, c.loadedAt, statAt, readAt)
    requires VersionOf(w, current, hitAt) && forall p :: p in w.paths ==> c.loadedAt <= hitAt[p]
    requires Hit(c, current)
    ensures ContentsAt(w, readAt) == ContentsAt(w, hitAt) <==> AbsentStayAbsent(w, current, readAt)
    ensures AbsentStayAbsent(w, current, readAt) ==> c.value.value == load(ContentsAt(w, hitAt))
  {
    forall p | p in w.paths
      ensures ContentAt(w, p, readAt[p]) == ContentAt(w, p, hitAt[p]) <==> (current[p].None? ==> ContentAt(w, p, readAt[p]).None?)
    {
      assert current[p] == StatAt(w, p, statAt[p]) == StatAt(w, p, hitAt[p]);
      HitPath(w, p, duration, statAt[p], readAt[p], c.loadedAt, hitAt[p]);
    }
    SameContents(w, readAt, hitAt);
  }

  lemma SameContents(w: World, a: Times, b: Times)
    requires a.Keys == b.Keys
    ensures ContentsAt(w, a) == ContentsAt(w, b) <==> forall p :: p in a ==> ContentAt(w, p, a[p]) == ContentAt(w, p, b[p])
  {
    if ContentsAt(w, a) == ContentsAt(w, b) {
      forall p | p in a ensures ContentAt(w, p, a[p]) == ContentAt(w, p, b[p]) {
        assert ContentsAt(w, a)[p] == ContentsAt(w, b)[p];
      }
    } else if forall p :: p in a ==> ContentAt(w, p, a[p]) == ContentAt(w, p, b[p]) {
      assert ContentsAt(w, a).Keys == ContentsAt(w, b).Keys;
    }
  }

  // ----- runs

  /** One turn of the retry loop with the times at which its stats, its reads and its second stats were taken. */
  datatype Turn<T> = Turn(attempt: Attempt<T>, statAt: Times, readAt: Times, afterAt: Times)

  function Attempts<T>(turns: seq<Turn<T>>): (r: seq<Attempt<T>>)
    ensures |r| == |turns| && forall i :: 0 <= i < |r| ==> r[i] == turns[i].attempt
  {
    seq(|turns|, i requires 0 <= i < |turns| => turns[i].attempt)
  }

  /** A turn as it happens, whatever is written meanwhile: stats, reads, clock, and the stats again. */
  ghost predicate RealTurn<T(!new)>(w: World, load: Contents -> T, duration: int, turn: Turn<T>) {
    turn.attempt.loaded.Some? ==>
      && RealLoad(w, load, duration, turn.attempt.before, turn.attempt.loaded.value, turn.attempt.loadedAt, turn.statAt, turn.readAt)
      && VersionOf(w, turn.attempt.after, turn.afterAt)
      && forall p :: p in w.paths ==> turn.attempt.loadedAt <= turn.afterAt[p]
  }

  /** A file that is there only while it is read: absent at both stats and present in between. */
  ghost predicate Brief<T>(w: World, turn: Turn<T>, p: string)
    requires p in turn.statAt && p in turn.readAt && p in turn.afterAt
  {
    StatAt(w, p, turn.statAt[p]).None? && StatAt(w, p, turn.afterAt[p]).None? && ContentAt(w, p, turn.readAt[p]).Some?
  }

  ghost predicate NothingBrief<T>(w: World, turn: Turn<T>) {
    forall p :: p in turn.statAt && p in turn.readAt && p in turn.afterAt ==> !Brief(w, turn, p)
  }

  /** The turn whose value the loop caches, or `from` if it caches none. */
  function Source<T>(from: Option<Turn<T>>, turns: seq<Turn<T>>): Option<Turn<T>>
    decreases |turns|
  {
    if turns == [] || turns[0].attempt.loaded.None? then from
    else if turns[0].attempt.before == turns[0].attempt.after then Some(turns[0])
    else Source(from, turns[1..])
  }

  /** The cache holds what the turn `from` loaded, between two equal versions. */
  ghost predicate CameFrom<T(!new)>(w: World, load: Contents -> T, duration: int, c: Cache<T>, from: Option<Turn<T>>) {
    match from
    case None => c.value.None?
    case Some(turn) =>
      && turn.attempt.loaded.Some? && turn.attempt.before == turn.attempt.after && RealTurn(w, load, duration, turn)
      && c == Cache(Some(turn.attempt.before), turn.attempt.loaded, turn.attempt.loadedAt)
  }

  /** A newly cached value is bracketed by two equal versions, and comes from the load between them. */
  lemma {:induction false} LoadKeepsSource<T(!new)>(w: World, load: Contents -> T, duration: int, c: Cache<T>, from: Option<Turn<T>>,
                                                    turns: seq<Turn<T>>)
    requires CameFrom(w, load, duration, c, from) && forall turn :: turn in turns ==> RealTurn(w, load, duration, turn)
    ensures var next := Load(c, Attempts(turns)).0;
      && CameFrom(w, load, duration, next, Source(from, turns))
      && (next != c ==> exists turn :: turn in turns && turn.attempt.before == turn.attempt.after
                          && next == Cache(Some(turn.attempt.before), turn.attempt.loaded, turn.attempt.loadedAt))
    decreases |turns|
  {
    if turns != [] {
      assert turns[0] in turns;
      assert Attempts(turns)[1..] == Attempts(turns[1..]);
      if turns[0].attempt.loaded.Some? && turns[0].attempt.before != turns[0].attempt.after {
        assert forall turn :: turn in turns[1..] ==> turn in turns;
        LoadKeepsSource(w, load, duration, c, from, turns[1..]);
      }
    }
  }

  /** A reload returns what its source read, and without one the old value if there is any. */
  lemma {:induction false} LoadReturnsSource<T(!new)>(w: World, load: Contents -> T, duration: int, c: Cache<T>, turns: seq<Turn<T>>)
    requires forall turn :: turn in turns ==> RealTurn(w, load, duration, turn)
    ensures var (after, r) := Load(c, Attempts(turns));
      match Source(None, turns)
      case Some(turn) => turn in turns && turn.attempt.before == turn.attempt.after && r == Ok(load(ContentsAt(w, turn.readAt)))
      case None => after == c && (c.value.Some? ==> r == Ok(c.value.value))
    decreases |turns|
  {
    if turns != [] {
      assert turns[0] in turns;
      assert Attempts(turns)[1..] == Attempts(turns[1..]);
      if Restless(turns[0].attempt) {
        assert forall turn :: turn in turns[1..] ==> turn in turns;
        LoadReturnsSource(w, load, duration, c, turns[1..]);
      }
    }
  }

  /** A call of `get`: when it looked at the version, and the turns of its loop. */
  datatype Call<T> = Call(current: Version, at: Times, turns: seq<Turn<T>>)

  function After<T>(c: Cache<T>, call: Call<T>): Cache<T> {
    Get(c, call.current, Attempts(call.turns)).0
  }

  function SourceAfter<T>(c: Cache<T>, from: Option<Turn<T>>, call: Call<T>): Option<Turn<T>> {
    if Hit(c, call.current) then from else Source(from, call.turns)
  }

  ghost predicate RealCalls<T(!new)>(w: World, load: Contents -> T, duration: int, c: Cache<T>, calls: seq<Call<T>>)
    decreases |calls|
  {
    calls == [] ||
      (VersionOf(w, calls[0].current, calls[0].at)
       && (c.value.Some? ==> forall p :: p in w.paths ==> c.loadedAt <= calls[0].at[p])
       && (forall turn :: turn in calls[0].turns ==> RealTurn(w, load, duration, turn))
       && RealCalls(w, load, duration, After(c, calls[0]), calls[1..]))
  }

  /** A hit is fresh exactly if nothing was brief during the load it goes back to, and then it returns a fresh load. */
  ghost predicate HitExact<T(!new)>(w: World, load: Contents -> T, c: Cache<T>, from: Option<Turn<T>>, call: Call<T>) {
    Hit(c, call.current) && from.Some? ==>
      && (ContentsAt(w, from.value.readAt) == ContentsAt(w, call.at) <==> NothingBrief(w, from.value))
      && (NothingBrief(w, from.value) ==> Get(c, call.current, Attempts(call.turns)).1 == Ok(load(ContentsAt(w, call.at))))
  }

  ghost predicate HitsExact<T(!new)>(w: World, load: Contents -> T, c: Cache<T>, from: Option<Turn<T>>, calls: seq<Call<T>>)
    decreases |calls|
  {
    calls == [] ||
      (HitExact(w, load, c, from, calls[0]) && HitsExact(w, load, After(c, calls[0]), SourceAfter(c, from, calls[0]), calls[1..]))
  }

  lemma BriefIff<T(!new)>(w: World, load: Contents -> T, duration: int, turn: Turn<T>)
    requires turn.attempt.loaded.Some? && turn.attempt.before == turn.attempt.after && RealTurn(w, load, duration, turn)
    ensures NothingBrief(w, turn) <==> AbsentStayAbsent(w, turn.attempt.before, turn.readAt)
  {
    forall p | p in w.paths
      ensures Brief(w, turn, p) <==> turn.attempt.before[p].None? && ContentAt(w, p, turn.readAt[p]).Some?
    {
      assert turn.attempt.before[p] == StatAt(w, p, turn.statAt[p]) && turn.attempt.after[p] == StatAt(w, p, turn.afterAt[p]);
    }
  }

  lemma OneHitExact<T(!new)>(w: World, load: Contents -> T, duration: int, c: Cache<T>, from: Option<Turn<T>>, call: Call<T>)
    requires Clocked(w) && w.granularity + duration <= RACY_WINDOW && CameFrom(w, load, duration, c, from)
    requires VersionOf(w, call.current, call.at) && (c.value.Some? ==> forall p :: p in w.paths ==> c.loadedAt <= call.at[p])
    ensures HitExact(w, load, c, from, call)
  {
    if Hit(c, call.current) && from.Some? {
      HitIsFresh(w, load, duration, c, from.value.statAt, from.value.readAt, call.current, call.at);
      BriefIff(w, load, duration, from.value);
    }
  }

  /**
   Over any run of calls against any history of writes, files appearing and vanishing at any time included, a hit
   returns what a fresh load would exactly if no tracked file was there only while the cached value was read.
   */
  lemma {:induction false} EveryHitExact<T(!new)>(w: World, load: Contents -> T, duration: int, c: Cache<T>, from: Option<Turn<T>>,
                                                  calls: seq<Call<T>>)
    requires Clocked(w) && w.granularity + duration <= RACY_WINDOW
    requires CameFrom(w, load, duration, c, from) && RealCalls(w, load, duration, c, calls)
    ensures HitsExact(w, load, c, from, calls)
    decreases |calls|
  {
    if calls != [] {
      var call := calls[0];
      OneHitExact(w, load, duration, c, from, call);
      if !Hit(c, call.current) { LoadKeepsSource(w, load, duration, c, from, call.turns); }
      EveryHitExact(w, load, duration, After(c, call), SourceAfter(c, from, call), calls[1..]);
    }
  }

  const CREATED := Write(1, "f", Some("x"), "a")
  const REMOVED := Write(3, "f", None, "a")
  const BRIEFLY := World([CREATED, REMOVED], t => t, 1, {"f"})

  lemma BriefTouches()
    ensures ContentAt(BRIEFLY, "f", 0) == ContentAt(BRIEFLY, "f", 4) == None
    ensures StatAt(BRIEFLY, "f", 0) == StatAt(BRIEFLY, "f", 4) == None
    ensures ContentAt(BRIEFLY, "f", 2) == Some("x")
  {
    var writes := BRIEFLY.writes;
    assert writes[..1] == [CREATED] && [CREATED][..0] == [];
    assert LastTouch([CREATED], "f", 0) == 0 && LastTouch([CREATED], "f", 2) == 1;
    assert LastTouch(writes, "f", 0) == 0 && LastTouch(writes, "f", 2) == 1 && LastTouch(writes, "f", 4) == 2;
  }

  const AT_STAT: Times := map["f" := 0]
  const AT_READ: Times := map["f" := 2]
  const AT_HIT: Times := map["f" := 4]
  const NO_FILE: Version := map["f" := None]

  lemma BriefVersions()
    ensures Clocked(BRIEFLY)
    ensures VersionOf(BRIEFLY, NO_FILE, AT_STAT) && VersionOf(BRIEFLY, NO_FILE, AT_HIT)
  {
    BriefTouches();
  }

  lemma BriefContents()
    ensures ContentsAt(BRIEFLY, AT_READ) == map["f" := Some("x")] && ContentsAt(BRIEFLY, AT_HIT) == map["f" := None]
  {
    BriefTouches();
  }

  const FOUND: Contents := map["f" := Some("x")]
  const BRIEF_TURN := Turn(Attempt(NO_FILE, Some(FOUND), 2, NO_FILE), AT_STAT, AT_READ, AT_HIT)

  /**
   A file can be that brief: created after its stat at time 0, read at time 2 and gone at time 4, it leaves two
   equal versions and no timestamp to look racy, so its content is cached, and a call at time 4 hits and returns
   content that is no longer there.
   */
  lemma AbsentFileGoesStale(load: Contents -> Contents)
    requires forall c :: load(c) == c
    ensures BRIEFLY.granularity + 2 <= RACY_WINDOW && Clocked(BRIEFLY) && RealTurn(BRIEFLY, load, 2, BRIEF_TURN)
    ensures var cached := Load(Cache(None, None, 0), Attempts([BRIEF_TURN])).0;
      && VersionOf(BRIEFLY, NO_FILE, AT_HIT) && Hit(cached, NO_FILE)
      && Get(cached, NO_FILE, []).1 == Ok(FOUND) && load(ContentsAt(BRIEFLY, AT_HIT)) == map["f" := None]
  {
    BriefVersions();
    BriefContents();
    assert Attempts([BRIEF_TURN])[0] == BRIEF_TURN.attempt;
  }
}

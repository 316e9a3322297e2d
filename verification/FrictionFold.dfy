/**
 The friction event log's read model. `FoldOf` says what the state of a log is; `Fold` computes it
 with the dictionary, pending lists and in-place item updates of the source.
 */
module FrictionFold {
  import opened Basics
  import opened Ordering
  import opened PyText
  import opened Seqs

  datatype Body =
    | ItemAdded(title: string, source: string, repoRoot: Option<string>, target: Option<string>, initial: Option<seq<string>>)
    | ItemTagsChanged(item: string, tags: seq<string>)
    | OccurrenceAppended(item: string, at: string, cwd: string, evidence: string, repoRoot: Option<string>,
                         headSha: Option<string>, cost: Option<string>, provenance: Option<map<string, string>>)
    | StatusChanged(item: string, at: string, from: string, to: string, reason: string)
    | AdoptionRecorded(at: string, summary: string, files: seq<string>, items: seq<string>,
                       commitSha: Option<string>, evalBefore: Option<string>, evalAfter: Option<string>)

  datatype Event = Event(id: string, ts: string, body: Body, repo: Option<string>)

  /** An occurrence, status change or adoption as the read model keeps it. */
  datatype Entry = Entry(eventId: string, body: Body)

  datatype LogItem = LogItem(eventId: string, slug: string, title: string, source: string, repoRoot: Option<string>,
                             target: Option<string>, status: string, createdAt: string, tags: seq<string>)

  datatype LogState = LogState(items: seq<LogItem>, occurrences: seq<Entry>, statusChanges: seq<Entry>,
                               adoptions: seq<Entry>, orphaned: nat)

  // ----- ordering the log

  /** `{event.id: event for event in events}`: a repeated id keeps its place and takes the last event. */
  function Upsert(s: seq<Event>, e: Event): seq<Event> {
    if s == [] then [e]
    else if s[0].id == e.id then [e] + s[1..]
    else [s[0]] + Upsert(s[1..], e)
  }

  function ById(events: seq<Event>): seq<Event> {
    if events == [] then [] else Upsert(ById(events[..|events| - 1]), events[|events| - 1])
  }

  /** `(event.ts, event.id)` in tuple order. */
  predicate EventLess(a: Event, b: Event) {
    StrLess(a.ts, b.ts) || (a.ts == b.ts && StrLess(a.id, b.id))
  }

  function Ordered(events: seq<Event>): seq<Event> {
    Sort(ById(events), EventLess)
  }

  /** Equal ids mean equal events. */
  ghost predicate Consistent(events: seq<Event>) {
    forall a, b :: a in events && b in events && a.id == b.id ==> a == b
  }

  ghost predicate DistinctIds(s: seq<Event>) {
    forall i, j :: 0 <= i < j < |s| ==> s[i].id != s[j].id
  }

  function Ids(s: seq<Event>): set<string> {
    set e | e in s :: e.id
  }

  lemma {:induction false} UpsertFacts(s: seq<Event>, e: Event)
    requires DistinctIds(s)
    ensures DistinctIds(Upsert(s, e))
    ensures forall x :: x in Upsert(s, e) <==> x == e || (x in s && x.id != e.id)
  {
    if s != [] && s[0].id != e.id {
      UpsertFacts(s[1..], e);
      assert s == [s[0]] + s[1..];
    }
  }

  lemma {:induction false} ByIdFacts(events: seq<Event>)
    ensures DistinctIds(ById(events))
    ensures forall e :: e in ById(events) ==> e in events
    ensures Ids(ById(events)) == Ids(events)
    ensures Consistent(events) ==> forall e :: e in events ==> e in ById(events)
  {
    if events != [] {
      var t, e := events[..|events| - 1], events[|events| - 1];
      ByIdFacts(t);
      UpsertFacts(ById(t), e);
      assert events == t + [e];
      forall id ensures id in Ids(ById(events)) <==> id in Ids(events) {
        assert id in Ids(ById(t)) <==> id in Ids(t);
        if id in Ids(t) && id != e.id {
          var x :| x in ById(t) && x.id == id;
          assert x in ById(events);
        }
      }
    }
  }

  lemma EventLessIsStrictOrder()
    ensures StrictOrder(EventLess)
  {
    StrLessIsStrictOrder();
  }

  lemma OrderedFacts(events: seq<Event>)
    ensures Ascending(Ordered(events), EventLess)
    ensures forall e :: e in Ordered(events) <==> e in ById(events)
    ensures |Ordered(events)| == |ById(events)|
  {
    ByIdFacts(events);
    EventLessIsStrictOrder();
    var s := ById(events);
    forall i, j | 0 <= i < j < |s| ensures EventLess(s[i], s[j]) || EventLess(s[j], s[i]) {
      StrLessTotal(s[i].ts, s[j].ts);
      StrLessTotal(s[i].id, s[j].id);
    }
    SortAscending(s, EventLess);
    assert |multiset(Ordered(events))| == |multiset(s)|;
  }

  /**
   Convergence: two logs holding the same events, in any order and with any repetition, are ordered
   the same way, as long as equal ids mean equal events.
   */
  lemma OrderConverges(a: seq<Event>, b: seq<Event>)
    requires Consistent(a) && forall e :: e in a <==> e in b
    ensures Ordered(a) == Ordered(b)
  {
    OrderedFacts(a);
    OrderedFacts(b);
    ByIdFacts(a);
    ByIdFacts(b);
    EventLessIsStrictOrder();
    AscendingUnique(Ordered(a), Ordered(b), EventLess);
  }

  lemma ByIdSnoc(t: seq<Event>, x: Event, e: Event)
    ensures e in ById(t + [x]) <==> e == x || (e in ById(t) && e.id != x.id)
  {
    assert (t + [x])[..|t|] == t;
    ByIdFacts(t);
    UpsertFacts(ById(t), x);
  }

  lemma IdsSnoc(t: seq<Event>, x: Event)
    ensures Ids(t + [x]) == Ids(t) + {x.id}
  {
    assert x in t + [x];
    forall id ensures id in Ids(t + [x]) <==> id in Ids(t) + {x.id} {
      if id in Ids(t) {
        var e :| e in t && e.id == id;
        assert e in t + [x];
      }
    }
  }

  /** What `b` adds to a log takes the place of every event it shares an id with, and leaves the rest. */
  lemma {:induction false} ByIdJoin(a: seq<Event>, b: seq<Event>, e: Event)
    ensures e in ById(a + b) <==> e in ById(b) || (e in ById(a) && e.id !in Ids(b))
  {
    if b == [] {
      assert a + b == a;
    } else {
      var t, x := b[..|b| - 1], b[|b| - 1];
      ByIdJoin(a, t, e);
      assert b == t + [x] && a + b == (a + t) + [x];
      ByIdSnoc(a + t, x, e);
      ByIdSnoc(t, x, e);
      IdsSnoc(t, x);
    }
  }

  lemma SameOrder(a: seq<Event>, b: seq<Event>)
    requires forall e :: e in ById(a) <==> e in ById(b)
    ensures Ordered(a) == Ordered(b)
  {
    OrderedFacts(a);
    OrderedFacts(b);
    EventLessIsStrictOrder();
    AscendingUnique(Ordered(a), Ordered(b), EventLess);
  }

  /** One event of the log for each of its ids. */
  ghost predicate IsPick(c: seq<Event>, a: seq<Event>) {
    DistinctIds(c) && Ids(c) == Ids(a) && forall e :: e in c ==> e in a
  }

  lemma {:induction false} TakeOut(a: seq<Event>, c: seq<Event>) returns (rest: seq<Event>)
    requires DistinctIds(c) && forall e :: e in c ==> e in a
    ensures multiset(rest + c) == multiset(a)
  {
    if c == [] {
      rest := a;
      assert rest + c == a;
    } else {
      var t, x := c[..|c| - 1], c[|c| - 1];
      var before := TakeOut(a, t);
      assert c == t + [x];
      assert x in c && x in a && x in multiset(a);
      assert x in before + t && x !in t;
      var i :| 0 <= i < |before| && before[i] == x;
      rest := before[..i] + before[i + 1..];
      assert before == before[..i] + [x] + before[i + 1..];
    }
  }

  /** Every pick is what some order of the lines leaves: the one that ends with it. */
  lemma PickIsLast(a: seq<Event>, c: seq<Event>) returns (b: seq<Event>)
    requires IsPick(c, a)
    ensures multiset(b) == multiset(a) && Ordered(b) == Ordered(c)
  {
    var rest := TakeOut(a, c);
    b := rest + c;
    MembersFollowMultiset(a, b);
    forall e ensures e in ById(b) <==> e in ById(c) {
      ByIdJoin(rest, c, e);
      ByIdFacts(rest);
      if e in rest { assert e in b && e.id in Ids(a); }
    }
    SameOrder(b, c);
  }

  /** Every order of the lines leaves a pick. */
  lemma ByIdIsPick(a: seq<Event>, b: seq<Event>)
    requires multiset(a) == multiset(b)
    ensures IsPick(ById(b), a) && Ordered(ById(b)) == Ordered(b)
  {
    MembersFollowMultiset(a, b);
    ByIdFacts(b);
    ByIdFacts(ById(b));
    SameOrder(ById(b), b);
  }

  lemma {:induction false} PickWith(a: seq<Event>, x: Event) returns (c: seq<Event>)
    requires x in a
    ensures IsPick(c, a) && x in c
  {
    var b := a + [x];
    c := ById(b);
    ByIdFacts(b);
    assert b[..|b| - 1] == a;
    ByIdFacts(a);
    UpsertFacts(ById(a), x);
    assert Ids(b) == Ids(a);
  }

  /** The order of the lines does not matter to the ordered log if and only if no two events share an id. */
  lemma OrderConvergesIff(a: seq<Event>)
    ensures (forall b :: multiset(b) == multiset(a) ==> Ordered(b) == Ordered(a)) <==> Consistent(a)
  {
    if Consistent(a) {
      forall b | multiset(b) == multiset(a) ensures Ordered(b) == Ordered(a) {
        MembersFollowMultiset(a, b);
        OrderConverges(a, b);
      }
    } else {
      var x, y :| x in a && y in a && x.id == y.id && x != y;
      var c := PickWith(a, x);
      var d := PickWith(a, y);
      var b := PickIsLast(a, c);
      var e := PickIsLast(a, d);
      PicksDiffer(c, d, x, y);
      assert Ordered(b) != Ordered(a) || Ordered(e) != Ordered(a);
    }
  }

  lemma PicksDiffer(c: seq<Event>, d: seq<Event>, x: Event, y: Event)
    requires DistinctIds(c) && DistinctIds(d) && x in c && y in d && x.id == y.id && x != y
    ensures Ordered(c) != Ordered(d)
  {
    OrderedFacts(c);
    OrderedFacts(d);
    ByIdFacts(c);
    ByIdFacts(d);
    assert x in Ordered(c) && x !in Ordered(d);
  }

  /** Every event of `b` has an id the log does not hold, and sorts after everything in it. */
  ghost predicate NewAndLater(a: seq<Event>, b: seq<Event>) {
    forall x, y :: x in a && y in b ==> x.id != y.id && EventLess(x, y)
  }

  lemma IdIsNew(a: seq<Event>, b: seq<Event>, e: Event)
    requires NewAndLater(a, b) && e in a
    ensures e.id !in Ids(b)
  {
  }

  lemma LaterMember(a: seq<Event>, b: seq<Event>, e: Event)
    requires NewAndLater(a, b)
    ensures e in ById(a + b) <==> e in ById(a) || e in ById(b)
  {
    ByIdJoin(a, b, e);
    if e in ById(a) {
      ByIdFacts(a);
      IdIsNew(a, b, e);
    }
  }

  lemma LaterAscending(a: seq<Event>, b: seq<Event>)
    requires NewAndLater(a, b)
    ensures Ascending(Ordered(a) + Ordered(b), EventLess)
  {
    OrderedFacts(a);
    OrderedFacts(b);
    ByIdFacts(a);
    ByIdFacts(b);
    var x, y := Ordered(a), Ordered(b);
    forall i, j | 0 <= i < j < |x + y| ensures EventLess((x + y)[i], (x + y)[j]) {
      if i < |x| <= j { assert x[i] in a && y[j - |x|] in b; }
    }
  }

  /**
   Events under new ids that sort after everything in the log extend the ordered log at its end, whatever
   clashes the log itself or the new events hold.
   */
  lemma LaterEventsAppend(a: seq<Event>, b: seq<Event>)
    requires NewAndLater(a, b)
    ensures Ordered(a + b) == Ordered(a) + Ordered(b)
  {
    OrderedFacts(a);
    OrderedFacts(b);
    OrderedFacts(a + b);
    forall e ensures e in ById(a + b) <==> e in ById(a) || e in ById(b) {
      LaterMember(a, b, e);
    }
    LaterAscending(a, b);
    EventLessIsStrictOrder();
    AscendingUnique(Ordered(a + b), Ordered(a) + Ordered(b), EventLess);
  }

  // ----- slugs

  function Numbered(base: string, n: nat): string {
    base + "-" + Decimal(n)
  }

  ghost function StillTaken(taken: set<string>, base: string, n: nat): set<string> {
    set s | s in taken && exists k: nat :: n <= k && s == Numbered(base, k)
  }

  lemma NumberedInjective(base: string, m: nat, n: nat)
    requires Numbered(base, m) == Numbered(base, n)
    ensures m == n
  {
    assert Numbered(base, m)[|base| + 1..] == Decimal(m);
    assert Numbered(base, n)[|base| + 1..] == Decimal(n);
    DecimalInjective(m, n);
  }

  /** Each taken number leaves fewer taken ones to come: the search for a free suffix ends. */
  lemma StillTakenShrinks(taken: set<string>, base: string, n: nat)
    requires Numbered(base, n) in taken
    ensures |StillTaken(taken, base, n + 1)| < |StillTaken(taken, base, n)|
  {
    var now, next := StillTaken(taken, base, n), StillTaken(taken, base, n + 1);
    assert Numbered(base, n) in now;
    if Numbered(base, n) in next {
      var k: nat :| n + 1 <= k && Numbered(base, n) == Numbered(base, k);
      NumberedInjective(base, n, k);
    }
    assert next <= now - {Numbered(base, n)};
    SubsetCount(next, now - {Numbered(base, n)});
  }

  function FirstFree(taken: set<string>, base: string, n: nat): (k: nat)
    ensures k >= n && Numbered(base, k) !in taken
    ensures forall j :: n <= j < k ==> Numbered(base, j) in taken
    decreases |StillTaken(taken, base, n)|
  {
    if Numbered(base, n) in taken then
      StillTakenShrinks(taken, base, n);
      FirstFree(taken, base, n + 1)
    else n
  }

  /** `unique_slug`: the base itself, or the base with the least free number from two on. */
  function UniqueSlug(taken: set<string>, base: string): (slug: string)
    ensures slug !in taken
  {
    if base !in taken then base else Numbered(base, FirstFree(taken, base, 2))
  }

  method FindUniqueSlug(taken: set<string>, base: string) returns (slug: string)
    ensures slug == UniqueSlug(taken, base)
    ensures if base !in taken then slug == base
            else exists n: nat :: n >= 2 && slug == Numbered(base, n) && slug !in taken
                                  && forall k: nat :: 2 <= k < n ==> Numbered(base, k) in taken
  {
    if base !in taken {
      return base;
    }
    var suffix := 2;
    while Numbered(base, suffix) in taken
      invariant suffix >= 2 && FirstFree(taken, base, suffix) == FirstFree(taken, base, 2)
      invariant forall k: nat :: 2 <= k < suffix ==> Numbered(base, k) in taken
      decreases |StillTaken(taken, base, suffix)|
    {
      StillTakenShrinks(taken, base, suffix);
      suffix := suffix + 1;
    }
    slug := Numbered(base, suffix);
  }

  predicate IsDigit(c: char) { '0' <= c <= '9' }

  predicate IsAlnum(c: char) { IsDigit(c) || 'a' <= c <= 'z' || 'A' <= c <= 'Z' }

  function Lower(c: char): char {
    if 'A' <= c <= 'Z' then c - 'A' + 'a' else c
  }

  /** The loop of `safe_slug` from some point of the title on. */
  function SlugFrom(title: string, slug: string, separator: bool): string
    decreases |title|
  {
    if title == [] then slug
    else
      var c := title[0];
      var next := if IsAlnum(c) then slug + (if separator && slug != [] then "-" else "") + [Lower(c)] else slug;
      if |next| >= 80 then next else SlugFrom(title[1..], next, !IsAlnum(c))
  }

  function RStripDashes(s: string): string {
    if s != [] && s[|s| - 1] == '-' then RStripDashes(s[..|s| - 1]) else s
  }

  function SafeSlug(title: string): string {
    var slug := RStripDashes(SlugFrom(title, "", false));
    if slug == [] then "friction"
    else if forall i :: 0 <= i < |slug| ==> IsDigit(slug[i]) then "friction-" + slug
    else slug
  }

  method ComputeSafeSlug(title: string) returns (slug: string)
    ensures slug == SafeSlug(title)
  {
    slug := "";
    var separator, i := false, 0;
    while i < |title|
      invariant 0 <= i <= |title|
      invariant SlugFrom(title[i..], slug, separator) == SlugFrom(title, "", false)
    {
      var c := title[i];
      assert title[i..][1..] == title[i + 1..] && slug + "" == slug;
      if IsAlnum(c) {
        if separator && slug != [] {
          slug := slug + "-";
        }
        slug := slug + [Lower(c)];
        separator := false;
      } else {
        separator := true;
      }
      i := i + 1;
      if |slug| >= 80 {
        break;
      }
    }
    while slug != [] && slug[|slug| - 1] == '-'
      invariant RStripDashes(slug) == RStripDashes(SlugFrom(title, "", false))
    {
      slug := slug[..|slug| - 1];
    }
    if slug == [] {
      slug := "friction";
    } else if forall k :: 0 <= k < |slug| ==> IsDigit(slug[k]) {
      slug := "friction-" + slug;
    }
  }

  predicate SlugChar(c: char) { IsDigit(c) || 'a' <= c <= 'z' || c == '-' }

  /** Lower-case letters, digits and single inner dashes, at most 81 characters. */
  ghost predicate SlugShaped(s: string) {
    && |s| <= 81 && (forall i :: 0 <= i < |s| ==> SlugChar(s[i]))
    && (s != [] ==> s[0] != '-' && s[|s| - 1] != '-')
    && forall i :: 0 < i < |s| ==> s[i - 1] != '-' || s[i] != '-'
  }

  lemma {:induction false} SlugFromShape(title: string, slug: string, separator: bool)
    requires SlugShaped(slug) && |slug| < 80
    ensures SlugShaped(SlugFrom(title, slug, separator))
    decreases |title|
  {
    if title != [] {
      var c := title[0];
      var next := if IsAlnum(c) then slug + (if separator && slug != [] then "-" else "") + [Lower(c)] else slug;
      assert SlugShaped(next);
      if |next| < 80 { SlugFromShape(title[1..], next, !IsAlnum(c)); }
    }
  }

  /** A safe slug is well shaped, never empty and never a bare number; the final strip has nothing to do. */
  lemma SafeSlugShape(title: string)
    ensures var s := SafeSlug(title);
      && s != [] && (exists i :: 0 <= i < |s| && !IsDigit(s[i]))
      && (SlugShaped(s) || (|s| > 9 && s[..9] == "friction-" && SlugShaped(s[9..])))
  {
    SlugFromShape(title, "", false);
    var slug := SlugFrom(title, "", false);
    assert RStripDashes(slug) == slug;
    var s := SafeSlug(title);
    if slug == [] || s != slug {
      assert !IsDigit(s[0]);
      assert slug != [] ==> s[9..] == slug;
    }
  }

  // ----- the folded state

  function NewItem(e: Event, slug: string): LogItem
    requires e.body.ItemAdded?
  {
    LogItem(e.id, slug, e.body.title, e.body.source, e.body.repoRoot, e.body.target, "open", e.ts,
            match e.body.initial case Some(tags) => tags case None => [])
  }

  function Slugs(items: seq<LogItem>): set<string> {
    set i | 0 <= i < |items| :: items[i].slug
  }

  /** The items in log order, each with the slug that was free when its turn came. */
  function BaseItems(s: seq<Event>): seq<LogItem> {
    if s == [] then []
    else
      var items := BaseItems(s[..|s| - 1]);
      var e := s[|s| - 1];
      if e.body.ItemAdded? then items + [NewItem(e, UniqueSlug(Slugs(items), SafeSlug(e.body.title)))] else items
  }

  function Entries(s: seq<Event>): seq<Entry> {
    seq(|s|, i requires 0 <= i < |s| => Entry(s[i].id, s[i].body))
  }

  /** The status left by the last change in the list that names `id`. */
  function StatusAfter(changes: seq<Entry>, id: string): string {
    if changes == [] then "open"
    else
      var last := changes[|changes| - 1].body;
      if last.StatusChanged? && last.item == id then last.to else StatusAfter(changes[..|changes| - 1], id)
  }

  /** The tags after every change that names `id`: untouched without one, and sorted and merged with one. */
  function TagsAfter(changes: seq<Entry>, id: string, start: seq<string>): seq<string> {
    if changes == [] then start
    else
      var before := TagsAfter(changes[..|changes| - 1], id, start);
      var last := changes[|changes| - 1].body;
      if last.ItemTagsChanged? && last.item == id then SortedNames(Elements(before) + Elements(last.tags)) else before
  }

  function Known(items: seq<LogItem>): set<string> {
    set i | 0 <= i < |items| :: items[i].eventId
  }

  /** The entry names only items the log has. */
  predicate Attached(known: set<string>, e: Entry) {
    match e.body
    case ItemAdded(_, _, _, _, _) => true
    case AdoptionRecorded(_, _, _, items, _, _, _) => forall i :: i in items ==> i in known
    case _ => e.body.item in known
  }

  function AttachedTo(known: set<string>): Entry -> bool { e => Attached(known, e) }

  function IsStatus(e: Entry): bool { e.body.StatusChanged? }

  function IsTags(e: Entry): bool { e.body.ItemTagsChanged? }

  function IsOccurrence(e: Entry): bool { e.body.OccurrenceAppended? }

  function IsAdoption(e: Entry): bool { e.body.AdoptionRecorded? }

  function IsItem(e: Entry): bool { e.body.ItemAdded? }

  function Finish(item: LogItem, status: seq<Entry>, tags: seq<Entry>): LogItem {
    item.(status := StatusAfter(status, item.eventId), tags := TagsAfter(tags, item.eventId, item.tags))
  }

  function FinishAll(items: seq<LogItem>, status: seq<Entry>, tags: seq<Entry>): seq<LogItem> {
    seq(|items|, i requires 0 <= i < |items| => Finish(items[i], status, tags))
  }

  function FoldOrdered(ordered: seq<Event>): LogState {
    var base, entries := BaseItems(ordered), Entries(ordered);
    var known := AttachedTo(Known(base));
    var status, tags := Filter(entries, IsStatus), Filter(entries, IsTags);
    var occurrences, adoptions := Filter(entries, IsOccurrence), Filter(entries, IsAdoption);
    LogState(FinishAll(base, entries, entries), Filter(occurrences, known), Filter(status, known), Filter(adoptions, known),
             |status| - |Filter(status, known)| + |occurrences| - |Filter(occurrences, known)|
             + |tags| - |Filter(tags, known)| + |adoptions| - |Filter(adoptions, known)|)
  }

  /** The state of a log. */
  function FoldOf(events: seq<Event>): LogState {
    FoldOrdered(Ordered(events))
  }

  // ----- what the state promises

  /** Fold is convergent: logs with the same events give the identical state, however lines are ordered or repeated. */
  lemma FoldConverges(a: seq<Event>, b: seq<Event>)
    requires Consistent(a) && forall e :: e in a <==> e in b
    ensures FoldOf(a) == FoldOf(b)
  {
    OrderConverges(a, b);
  }

  /** In particular a union merge folds to the same state in either merge order. */
  lemma UnionMergeCommutes(ours: seq<Event>, theirs: seq<Event>)
    requires Consistent(ours + theirs)
    ensures FoldOf(ours + theirs) == FoldOf(theirs + ours)
  {
    FoldConverges(ours + theirs, theirs + ours);
  }

  /**
   The order of the lines does not matter to the folded state if and only if it does not matter which of the
   events that share an id is kept.
   */
  lemma FoldConvergesIff(a: seq<Event>)
    ensures (forall b :: multiset(b) == multiset(a) ==> FoldOf(b) == FoldOf(a))
       <==> (forall c, d :: IsPick(c, a) && IsPick(d, a) ==> FoldOf(c) == FoldOf(d))
  {
    if forall c, d :: IsPick(c, a) && IsPick(d, a) ==> FoldOf(c) == FoldOf(d) {
      forall b | multiset(b) == multiset(a) ensures FoldOf(b) == FoldOf(a) {
        ByIdIsPick(a, b);
        ByIdIsPick(a, a);
        assert FoldOf(ById(b)) == FoldOf(ById(a));
      }
    } else {
      var c, d :| IsPick(c, a) && IsPick(d, a) && FoldOf(c) != FoldOf(d);
      var b := PickIsLast(a, c);
      var e := PickIsLast(a, d);
      assert FoldOf(b) != FoldOf(a) || FoldOf(e) != FoldOf(a);
    }
  }

  lemma OneIsLast(a: Event, b: Event)
    requires a.id == b.id
    ensures Ordered([a, b]) == [b]
  {
    assert b in [b] && b.id in Ids([b]) && [a] + [b] == [a, b];
    forall e ensures e in ById([a, b]) <==> e in ById([b]) {
      ByIdJoin([a], [b], e);
      ByIdFacts([a]);
    }
    SameOrder([a, b], [b]);
    assert [b][..0] == [] && ById([b]) == Upsert([], b) == [b];
    assert [b][1..] == [] && Sort([b], EventLess) == Insert(b, [], EventLess);
  }

  lemma FoldOne(e: Event)
    requires e.body.ItemAdded?
    ensures FoldOrdered([e]) == LogState([NewItem(e, SafeSlug(e.body.title))], [], [], [], 0)
  {
    var item, entries := NewItem(e, SafeSlug(e.body.title)), [Entry(e.id, e.body)];
    assert [e][..0] == [] && Slugs([]) == {};
    assert BaseItems([e]) == [item];
    assert |Entries([e])| == 1 && Entries([e])[0] == entries[0];
    assert [] + [entries[0]] == entries;
    StatusSnoc([], entries[0], e.id);
    TagsSnoc([], entries[0], e.id, item.tags);
    assert Finish(item, entries, entries) == item;
    assert FinishAll([item], entries, entries) == [item];
    FilterNone(entries, IsStatus);
    FilterNone(entries, IsTags);
    FilterNone(entries, IsOccurrence);
    FilterNone(entries, IsAdoption);
  }

  /** Two additions of one item: which line is last decides exactly when their titles or other folded fields differ. */
  lemma ClashDiverges(a: Event, b: Event)
    requires a.id == b.id && a.body.ItemAdded? && b.body.ItemAdded?
    ensures FoldOf([a, b]) == FoldOf([b, a]) <==> NewItem(a, "") == NewItem(b, "")
  {
    OneIsLast(a, b);
    OneIsLast(b, a);
    FoldOne(a);
    FoldOne(b);
    var x, y := NewItem(a, SafeSlug(a.body.title)), NewItem(b, SafeSlug(b.body.title));
    assert x == y <==> [x][0] == [y][0];
  }

  lemma {:induction false} BaseSlugsDistinct(s: seq<Event>)
    ensures forall i, j :: 0 <= i < j < |BaseItems(s)| ==> BaseItems(s)[i].slug != BaseItems(s)[j].slug
  {
    if s != [] {
      BaseSlugsDistinct(s[..|s| - 1]);
      var items := BaseItems(s[..|s| - 1]);
      assert forall i :: 0 <= i < |items| ==> items[i].slug in Slugs(items);
    }
  }

  /** Folded slugs are pairwise distinct, for any log at all. */
  lemma SlugsDistinct(events: seq<Event>)
    ensures var items := FoldOf(events).items;
      forall i, j :: 0 <= i < j < |items| ==> items[i].slug != items[j].slug
  {
    BaseSlugsDistinct(Ordered(events));
  }

  lemma {:induction false} StatusIsLast(changes: seq<Entry>, id: string, k: nat)
    requires forall j :: k <= j < |changes| ==> !(changes[j].body.StatusChanged? && changes[j].body.item == id)
    ensures k == 0 ==> StatusAfter(changes, id) == "open"
    ensures 0 < k <= |changes| && changes[k - 1].body.StatusChanged? && changes[k - 1].body.item == id
      ==> StatusAfter(changes, id) == changes[k - 1].body.to
  {
    if changes != [] && k < |changes| {
      StatusIsLast(changes[..|changes| - 1], id, k);
    }
  }

  predicate ChangesStatus(e: Event, id: string) {
    e.body.StatusChanged? && e.body.item == id
  }

  lemma EntriesKeepBodies(s: seq<Event>, id: string, k: nat)
    requires forall j :: k <= j < |s| ==> !ChangesStatus(s[j], id)
    ensures forall j :: k <= j < |Entries(s)| ==> !(Entries(s)[j].body.StatusChanged? && Entries(s)[j].body.item == id)
  {
  }

  /** An item is open unless a status change names it, and then has the status of the last one in log order. */
  lemma {:induction false} ItemStatus(events: seq<Event>, item: LogItem, k: nat)
    requires item in FoldOf(events).items
    requires forall j :: k <= j < |Ordered(events)| ==> !ChangesStatus(Ordered(events)[j], item.eventId)
    ensures k == 0 ==> item.status == "open"
    ensures 0 < k <= |Ordered(events)| && ChangesStatus(Ordered(events)[k - 1], item.eventId) ==>
      item.status == Ordered(events)[k - 1].body.to
  {
    StatusInOrder(Ordered(events), item, k);
  }

  lemma {:induction false} StatusInOrder(s: seq<Event>, item: LogItem, k: nat)
    requires item in FinishAll(BaseItems(s), Entries(s), Entries(s))
    requires forall j :: k <= j < |s| ==> !ChangesStatus(s[j], item.eventId)
    ensures k == 0 ==> item.status == "open"
    ensures 0 < k <= |s| && ChangesStatus(s[k - 1], item.eventId) ==> item.status == s[k - 1].body.to
  {
    EntriesKeepBodies(s, item.eventId, k);
    StatusIsLast(Entries(s), item.eventId, k);
    FinishedStatus(BaseItems(s), Entries(s), item);
  }

  lemma {:induction false} FinishedStatus(base: seq<LogItem>, entries: seq<Entry>, item: LogItem)
    requires item in FinishAll(base, entries, entries)
    ensures item.status == StatusAfter(entries, item.eventId)
  {
    var i :| 0 <= i < |base| && item == FinishAll(base, entries, entries)[i];
    assert item == Finish(base[i], entries, entries);
  }

  ghost predicate Tagged(changes: seq<Entry>, id: string, tag: string) {
    exists j :: 0 <= j < |changes| && TagsItem(changes[j], id, tag)
  }

  predicate TagsItem(e: Entry, id: string, tag: string) {
    e.body.ItemTagsChanged? && e.body.item == id && tag in e.body.tags
  }

  lemma TaggedBefore(changes: seq<Entry>, id: string, tag: string)
    requires changes != []
    ensures Tagged(changes, id, tag) <==>
      Tagged(changes[..|changes| - 1], id, tag) || TagsItem(changes[|changes| - 1], id, tag)
  {
    var t := changes[..|changes| - 1];
    if Tagged(t, id, tag) {
      var j :| 0 <= j < |t| && TagsItem(t[j], id, tag);
      assert TagsItem(changes[j], id, tag);
    }
    if Tagged(changes, id, tag) {
      var j :| 0 <= j < |changes| && TagsItem(changes[j], id, tag);
      assert j < |t| ==> TagsItem(t[j], id, tag);
    }
  }

  lemma {:induction false} TagsAreUnion(changes: seq<Entry>, id: string, start: seq<string>, tag: string)
    ensures tag in TagsAfter(changes, id, start) <==> tag in start || Tagged(changes, id, tag)
  {
    if changes != [] {
      TagsAreUnion(changes[..|changes| - 1], id, start, tag);
      TaggedBefore(changes, id, tag);
    }
  }

  lemma {:induction false} BaseItemsComeFrom(s: seq<Event>, i: nat)
    requires i < |BaseItems(s)|
    ensures exists e :: e in s && e.body.ItemAdded? && BaseItems(s)[i] == NewItem(e, BaseItems(s)[i].slug)
  {
    var t, e := s[..|s| - 1], s[|s| - 1];
    if i < |BaseItems(t)| {
      BaseItemsComeFrom(t, i);
    }
  }

  /** An item's tags are the ones it was added with and all the tags any change naming it carries. */
  lemma {:induction false} ItemTags(events: seq<Event>, i: nat, tag: string)
    requires i < |FoldOf(events).items|
    ensures var item := FoldOf(events).items[i];
      exists e :: e in events && e.id == item.eventId && e.body.ItemAdded?
        && (tag in item.tags <==> (e.body.initial.Some? && tag in e.body.initial.value) || Tagged(Entries(Ordered(events)), item.eventId, tag))
  {
    var s := Ordered(events);
    BaseItemsComeFrom(s, i);
    var e :| e in s && e.body.ItemAdded? && BaseItems(s)[i] == NewItem(e, BaseItems(s)[i].slug);
    OrderedFacts(events);
    ByIdFacts(events);
    TagsAreUnion(Entries(s), e.id, BaseItems(s)[i].tags, tag);
  }

  lemma {:induction false} BaseItemsPrefix(a: seq<Event>, b: seq<Event>)
    ensures BaseItems(a) <= BaseItems(a + b)
  {
    if b == [] {
      assert a + b == a;
    } else {
      BaseItemsPrefix(a, b[..|b| - 1]);
      assert (a + b)[..|a + b| - 1] == a + b[..|b| - 1];
    }
  }

  /** Adding events under new ids that sort later keeps every earlier item in place with its slug, for any log. */
  lemma LaterEventsKeepSlugs(a: seq<Event>, b: seq<Event>)
    requires NewAndLater(a, b)
    ensures var before, after := FoldOf(a).items, FoldOf(a + b).items;
      |before| <= |after|
      && forall i :: 0 <= i < |before| ==> after[i].eventId == before[i].eventId && after[i].slug == before[i].slug
  {
    LaterEventsAppend(a, b);
    BaseItemsPrefix(Ordered(a), Ordered(b));
  }

  // ----- every event is accounted for

  lemma {:induction false} KindsPartition(s: seq<Entry>)
    ensures |s| == |Filter(s, IsItem)| + |Filter(s, IsStatus)| + |Filter(s, IsTags)| + |Filter(s, IsOccurrence)| + |Filter(s, IsAdoption)|
  {
    if s != [] { KindsPartition(s[..|s| - 1]); }
  }

  lemma {:induction false} ItemsCount(s: seq<Event>)
    ensures |BaseItems(s)| == |Filter(Entries(s), IsItem)|
  {
    if s != [] {
      ItemsCount(s[..|s| - 1]);
      assert Entries(s)[..|s| - 1] == Entries(s[..|s| - 1]);
    }
  }

  lemma {:induction false} IdsCount(s: seq<Event>)
    requires DistinctIds(s)
    ensures |Ids(s)| == |s|
  {
    if s != [] {
      var t, e := s[..|s| - 1], s[|s| - 1];
      IdsCount(t);
      assert s == t + [e];
      assert Ids(s) == Ids(t) + {e.id};
    }
  }

  /** Tag changes that reached an item. */
  function AppliedTags(events: seq<Event>): nat {
    var s := Ordered(events);
    |Filter(Filter(Entries(s), IsTags), AttachedTo(Known(BaseItems(s))))|
  }

  /**
   Conservation: every distinct id is exactly one item, occurrence, status change, adoption, applied
   tag change or orphan.
   */
  lemma EveryEventAccountedFor(events: seq<Event>)
    ensures var state := FoldOf(events);
      |Ids(events)| == |state.items| + |state.occurrences| + |state.statusChanges| + |state.adoptions|
                       + AppliedTags(events) + state.orphaned
  {
    OrderedFacts(events);
    ByIdFacts(events);
    IdsCount(ById(events));
    KindsPartition(Entries(Ordered(events)));
    ItemsCount(Ordered(events));
  }

  // ----- the computation

  lemma StatusSnoc(es: seq<Entry>, x: Entry, id: string)
    ensures StatusAfter(es + [x], id) == if x.body.StatusChanged? && x.body.item == id then x.body.to else StatusAfter(es, id)
  {
    assert (es + [x])[..|es|] == es;
  }

  lemma TagsSnoc(es: seq<Entry>, x: Entry, id: string, start: seq<string>)
    ensures TagsAfter(es + [x], id, start) ==
      if x.body.ItemTagsChanged? && x.body.item == id then SortedNames(Elements(TagsAfter(es, id, start)) + Elements(x.body.tags))
      else TagsAfter(es, id, start)
  {
    assert (es + [x])[..|es|] == es;
  }

  /** Only the pending changes matter to an item's status. */
  lemma {:induction false} StatusFromPending(es: seq<Entry>, id: string)
    ensures StatusAfter(Filter(es, IsStatus), id) == StatusAfter(es, id)
  {
    if es != [] {
      var t, x := es[..|es| - 1], es[|es| - 1];
      assert es == t + [x];
      StatusFromPending(t, id);
      FilterSnoc(t, x, IsStatus);
      StatusSnoc(t, x, id);
      StatusSnoc(Filter(t, IsStatus), x, id);
    }
  }

  lemma {:induction false} TagsFromPending(es: seq<Entry>, id: string, start: seq<string>)
    ensures TagsAfter(Filter(es, IsTags), id, start) == TagsAfter(es, id, start)
  {
    if es != [] {
      var t, x := es[..|es| - 1], es[|es| - 1];
      assert es == t + [x];
      TagsFromPending(t, id, start);
      FilterSnoc(t, x, IsTags);
      TagsSnoc(t, x, id, start);
      TagsSnoc(Filter(t, IsTags), x, id, start);
    }
  }

  ghost predicate DistinctItems(items: seq<LogItem>) {
    forall i, j :: 0 <= i < j < |items| ==> items[i].eventId != items[j].eventId
  }

  lemma {:induction false} BaseItemsDistinct(s: seq<Event>)
    requires DistinctIds(s)
    ensures DistinctItems(BaseItems(s)) && forall i :: 0 <= i < |BaseItems(s)| ==> BaseItems(s)[i].status == "open"
  {
    if s != [] {
      var t := s[..|s| - 1];
      BaseItemsDistinct(t);
      forall i | 0 <= i < |BaseItems(t)| ensures BaseItems(t)[i].eventId != s[|s| - 1].id {
        BaseItemsComeFrom(t, i);
        var e :| e in t && e.body.ItemAdded? && BaseItems(t)[i] == NewItem(e, BaseItems(t)[i].slug);
        var k :| 0 <= k < |t| && t[k] == e;
        assert s[k] == e;
      }
    }
  }

  type Index = map<string, nat>

  /** `{item.event_id: position for position, item in enumerate(items)}`. */
  ghost predicate Indexes(index: Index, items: seq<LogItem>) {
    && (forall id :: id in index <==> id in Known(items))
    && (forall id :: id in index ==> index[id] < |items| && items[index[id]].eventId == id)
  }

  method BuildIndex(items: seq<LogItem>) returns (index: Index)
    ensures Indexes(index, items)
  {
    index := map[];
    for i := 0 to |items|
      invariant forall id :: id in index <==> exists k :: 0 <= k < i && items[k].eventId == id
      invariant forall id :: id in index ==> index[id] < i && items[index[id]].eventId == id
    {
      index := index[items[i].eventId := i];
    }
  }

  function WithStatus(items: seq<LogItem>, changes: seq<Entry>): seq<LogItem> {
    seq(|items|, i requires 0 <= i < |items| => items[i].(status := StatusAfter(changes, items[i].eventId)))
  }

  function WithTags(items: seq<LogItem>, changes: seq<Entry>): seq<LogItem> {
    seq(|items|, i requires 0 <= i < |items| => items[i].(tags := TagsAfter(changes, items[i].eventId, items[i].tags)))
  }

  lemma NextStatus(items: seq<LogItem>, changes: seq<Entry>, j: nat, index: Index)
    requires DistinctItems(items) && Indexes(index, items) && j < |changes| && changes[j].body.StatusChanged?
    ensures var (now, next, c) := (WithStatus(items, changes[..j]), WithStatus(items, changes[..j + 1]), changes[j].body);
      next == if c.item in index then now[index[c.item] := now[index[c.item]].(status := c.to)] else now
  {
    assert changes[..j + 1][..j] == changes[..j];
    var c := changes[j].body;
    assert forall k :: 0 <= k < |items| && items[k].eventId == c.item ==> c.item in index && k == index[c.item];
  }

  lemma NextTags(items: seq<LogItem>, changes: seq<Entry>, j: nat, index: Index)
    requires DistinctItems(items) && Indexes(index, items) && j < |changes| && changes[j].body.ItemTagsChanged?
    ensures var (now, next, c) := (WithTags(items, changes[..j]), WithTags(items, changes[..j + 1]), changes[j].body);
      next == if c.item in index
        then now[index[c.item] := now[index[c.item]].(tags := SortedNames(Elements(now[index[c.item]].tags) + Elements(c.tags)))]
        else now
  {
    assert changes[..j + 1][..j] == changes[..j];
    var c := changes[j].body;
    assert forall k :: 0 <= k < |items| && items[k].eventId == c.item ==> c.item in index && k == index[c.item];
  }

  /** The loop over pending status changes: items are replaced in place, changes without an item are orphans. */
  method ApplyStatus(items0: seq<LogItem>, pending: seq<Entry>, index: Index)
    returns (items: seq<LogItem>, kept: seq<Entry>, orphaned: nat)
    requires DistinctItems(items0) && Indexes(index, items0)
    requires forall i :: 0 <= i < |items0| ==> items0[i].status == "open"
    requires forall e :: e in pending ==> IsStatus(e)
    ensures items == WithStatus(items0, pending)
    ensures kept == Filter(pending, AttachedTo(Known(items0))) && orphaned == |pending| - |kept|
  {
    items, kept, orphaned := items0, [], 0;
    var known := AttachedTo(Known(items0));
    for j := 0 to |pending|
      invariant items == WithStatus(items0, pending[..j])
      invariant kept == Filter(pending[..j], known) && orphaned == j - |kept|
    {
      var change := pending[j];
      assert change in pending;
      NextStatus(items0, pending, j, index);
      FilterPrefix(pending, known, j);
      if change.body.item in index {
        var position := index[change.body.item];
        items := items[position := items[position].(status := change.body.to)];
        kept := kept + [change];
      } else {
        orphaned := orphaned + 1;
      }
    }
    assert pending[..|pending|] == pending;
  }

  method ApplyTags(items0: seq<LogItem>, pending: seq<Entry>, index: Index) returns (items: seq<LogItem>, orphaned: nat)
    requires DistinctItems(items0) && Indexes(index, items0)
    requires forall e :: e in pending ==> IsTags(e)
    ensures items == WithTags(items0, pending)
    ensures orphaned == |pending| - |Filter(pending, AttachedTo(Known(items0)))|
  {
    items, orphaned := items0, 0;
    ghost var known := AttachedTo(Known(items0));
    for j := 0 to |pending|
      invariant items == WithTags(items0, pending[..j])
      invariant orphaned == j - |Filter(pending[..j], known)|
    {
      var change := pending[j];
      assert change in pending;
      NextTags(items0, pending, j, index);
      FilterPrefix(pending, known, j);
      if change.body.item in index {
        var position := index[change.body.item];
        items := items[position := items[position].(tags := SortedNames(Elements(items[position].tags) + Elements(change.body.tags)))];
      } else {
        orphaned := orphaned + 1;
      }
    }
    assert pending[..|pending|] == pending;
  }

  /** The loops over pending occurrences and adoptions: keep what names only known items, count the rest. */
  method Attach(pending: seq<Entry>, known: set<string>) returns (kept: seq<Entry>, orphaned: nat)
    ensures kept == Filter(pending, AttachedTo(known)) && orphaned == |pending| - |kept|
  {
    kept, orphaned := [], 0;
    for j := 0 to |pending|
      invariant kept == Filter(pending[..j], AttachedTo(known)) && orphaned == j - |kept|
    {
      FilterPrefix(pending, AttachedTo(known), j);
      if Attached(known, pending[j]) {
        kept := kept + [pending[j]];
      } else {
        orphaned := orphaned + 1;
      }
    }
    assert pending[..|pending|] == pending;
  }

  method OrderEvents(events: seq<Event>) returns (ordered: seq<Event>)
    ensures ordered == Ordered(events)
  {
    var values: seq<Event> := [];
    for i := 0 to |events|
      invariant values == ById(events[..i])
    {
      assert events[..i + 1][..i] == events[..i];
      values := Upsert(values, events[i]);
    }
    assert events[..|events|] == events;
    ordered := Sort(values, EventLess);
  }

  lemma EntriesPrefix(s: seq<Event>, i: nat)
    requires i < |s|
    ensures Entries(s[..i + 1]) == Entries(s[..i]) + [Entry(s[i].id, s[i].body)]
    ensures Entries(s)[..i] == Entries(s[..i])
  {
  }

  lemma SlugsPrefix(items: seq<LogItem>, item: LogItem)
    ensures Slugs(items + [item]) == Slugs(items) + {item.slug}
  {
    var more := items + [item];
    assert forall i :: 0 <= i < |items| ==> more[i] == items[i];
    assert more[|items|] == item;
  }

  datatype Pending = Pending(occurrences: seq<Entry>, status: seq<Entry>, adoptions: seq<Entry>, tags: seq<Entry>)

  ghost predicate Dispatched(es: seq<Entry>, p: Pending) {
    && p.occurrences == Filter(es, IsOccurrence) && p.status == Filter(es, IsStatus)
    && p.adoptions == Filter(es, IsAdoption) && p.tags == Filter(es, IsTags)
  }

  lemma DispatchOne(es: seq<Entry>, p: Pending, e: Entry)
    requires Dispatched(es, p)
    ensures Dispatched(es + [e],
      match e.body
      case ItemAdded(_, _, _, _, _) => p
      case ItemTagsChanged(_, _) => p.(tags := p.tags + [e])
      case OccurrenceAppended(_, _, _, _, _, _, _, _) => p.(occurrences := p.occurrences + [e])
      case StatusChanged(_, _, _, _, _) => p.(status := p.status + [e])
      case AdoptionRecorded(_, _, _, _, _, _, _) => p.(adoptions := p.adoptions + [e]))
  {
    assert (es + [e])[..|es|] == es;
  }

  /** The first loop: items get their slugs, everything else waits. */
  method Dispatch(ordered: seq<Event>) returns (items: seq<LogItem>, pending: Pending)
    ensures items == BaseItems(ordered) && Dispatched(Entries(ordered), pending)
  {
    var slugs: set<string> := {};
    items, pending := [], Pending([], [], [], []);
    for i := 0 to |ordered|
      invariant items == BaseItems(ordered[..i]) && slugs == Slugs(items)
      invariant Dispatched(Entries(ordered[..i]), pending)
    {
      var event := ordered[i];
      var entry := Entry(event.id, event.body);
      assert ordered[..i + 1][..i] == ordered[..i];
      EntriesPrefix(ordered, i);
      DispatchOne(Entries(ordered[..i]), pending, entry);
      match event.body {
        case ItemAdded(title, _, _, _, _) =>
          var base := ComputeSafeSlug(title);
          var slug := FindUniqueSlug(slugs, base);
          slugs := slugs + {slug};
          SlugsPrefix(items, NewItem(event, slug));
          items := items + [NewItem(event, slug)];
        case ItemTagsChanged(_, _) => pending := pending.(tags := pending.tags + [entry]);
        case OccurrenceAppended(_, _, _, _, _, _, _, _) => pending := pending.(occurrences := pending.occurrences + [entry]);
        case StatusChanged(_, _, _, _, _) => pending := pending.(status := pending.status + [entry]);
        case AdoptionRecorded(_, _, _, _, _, _, _) => pending := pending.(adoptions := pending.adoptions + [entry]);
      }
    }
    assert ordered[..|ordered|] == ordered;
  }

  lemma FinishInSteps(items: seq<LogItem>, es: seq<Entry>)
    ensures WithTags(WithStatus(items, Filter(es, IsStatus)), Filter(es, IsTags)) == FinishAll(items, es, es)
  {
    forall i | 0 <= i < |items|
      ensures WithTags(WithStatus(items, Filter(es, IsStatus)), Filter(es, IsTags))[i] == FinishAll(items, es, es)[i]
    {
      StatusFromPending(es, items[i].eventId);
      TagsFromPending(es, items[i].eventId, items[i].tags);
    }
  }

  lemma SameKnown(items: seq<LogItem>, changes: seq<Entry>)
    ensures Known(WithStatus(items, changes)) == Known(items)
  {
    var after := WithStatus(items, changes);
    assert forall i :: 0 <= i < |items| ==> after[i].eventId == items[i].eventId;
  }

  method Fold(events: seq<Event>) returns (state: LogState)
    ensures state == FoldOf(events)
  {
    var ordered := OrderEvents(events);
    OrderedFacts(events);
    EventLessDistinct(ordered, events);
    BaseItemsDistinct(ordered);
    var base, pending := Dispatch(ordered);
    var index := BuildIndex(base);
    var items, statusChanges, orphans := ApplyStatus(base, pending.status, index);
    SameKnown(base, pending.status);
    var occurrences, lost := Attach(pending.occurrences, index.Keys);
    assert index.Keys == Known(base);
    var finished, untagged := ApplyTags(items, pending.tags, index);
    var adoptions, unadopted := Attach(pending.adoptions, index.Keys);
    FinishInSteps(base, Entries(ordered));
    state := LogState(finished, occurrences, statusChanges, adoptions, orphans + lost + untagged + unadopted);
  }

  /** The ordered log lists each id once. */
  lemma EventLessDistinct(ordered: seq<Event>, events: seq<Event>)
    requires ordered == Ordered(events)
    ensures DistinctIds(ordered)
  {
    OrderedFacts(events);
    ByIdFacts(events);
    EventLessIsStrictOrder();
    forall i, j | 0 <= i < j < |ordered| ensures ordered[i].id != ordered[j].id {
      assert ordered[i] in ById(events) && ordered[j] in ById(events);
      assert !EventLess(ordered[i], ordered[i]);
    }
  }
}

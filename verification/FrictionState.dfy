/**
 What the folded state of a log holds, said of the ordered log alone: which items with which fields, slugs and
 tags, which lines of each other kind, and which lines are orphans.
 */
module FrictionState {
  import opened Basics
  import opened FrictionFold
  import opened Ordering
  import opened PyText
  import opened Seqs

  // ----- the order of the log

  /** The ordered log is sorted by time stamp, and by id within one time stamp. */
  lemma LogOrder(events: seq<Event>, i: nat, j: nat)
    requires i < j < |Ordered(events)|
    ensures var a, b := Ordered(events)[i], Ordered(events)[j];
      StrLess(a.ts, b.ts) || (a.ts == b.ts && StrLess(a.id, b.id))
  {
    OrderedFacts(events);
  }

  /** Of the lines with one id the log keeps the last: the one after which the id does not come again. */
  lemma LastLineKept(before: seq<Event>, e: Event, after: seq<Event>, x: Event)
    requires x.id == e.id && forall y :: y in after ==> y.id != e.id
    ensures x in Ordered(before + [e] + after) <==> x == e
  {
    var all := before + [e] + after;
    OrderedFacts(all);
    ByIdFacts(after);
    ByIdJoin(before + [e], after, x);
    ByIdSnoc(before, e, x);
    assert e.id !in Ids(after);
  }

  // ----- what is kept

  predicate HasItem(items: seq<LogItem>, id: string) {
    exists i :: 0 <= i < |items| && items[i].eventId == id
  }

  /** An occurrence, or a status change, that names an item of the list. */
  function OccurrenceOf(items: seq<LogItem>): Entry -> bool {
    (e: Entry) => e.body.OccurrenceAppended? && HasItem(items, e.body.item)
  }

  function ChangeOf(items: seq<LogItem>): Entry -> bool {
    (e: Entry) => e.body.StatusChanged? && HasItem(items, e.body.item)
  }

  /** An adoption that names no item outside the list. */
  function AdoptionOf(items: seq<LogItem>): Entry -> bool {
    (e: Entry) => e.body.AdoptionRecorded? && forall id :: id in e.body.items ==> HasItem(items, id)
  }

  /** A line of any other kind than an addition that names an item outside the list. */
  predicate Strays(items: seq<LogItem>, body: Body) {
    match body
    case ItemAdded(_, _, _, _, _) => false
    case ItemTagsChanged(id, _) => !HasItem(items, id)
    case OccurrenceAppended(id, _, _, _, _, _, _, _) => !HasItem(items, id)
    case StatusChanged(id, _, _, _, _) => !HasItem(items, id)
    case AdoptionRecorded(_, _, _, ids, _, _, _) => exists id :: id in ids && !HasItem(items, id)
  }

  function OrphanOf(items: seq<LogItem>): Entry -> bool {
    (e: Entry) => Strays(items, e.body)
  }

  lemma HasItemIsKnown(events: seq<Event>, id: string)
    ensures HasItem(FoldOf(events).items, id) <==> id in Known(BaseItems(Ordered(events)))
  {
    var items, base := FoldOf(events).items, BaseItems(Ordered(events));
    forall i | 0 <= i < |base| ensures items[i].eventId == base[i].eventId {
    }
    if id in Known(base) {
      var i :| 0 <= i < |base| && base[i].eventId == id;
      assert items[i].eventId == id;
    }
  }

  lemma KeptIsAttached(events: seq<Event>, e: Entry)
    ensures var items, known := FoldOf(events).items, Known(BaseItems(Ordered(events)));
      && (OccurrenceOf(items)(e) <==> IsOccurrence(e) && Attached(known, e))
      && (ChangeOf(items)(e) <==> IsStatus(e) && Attached(known, e))
      && (AdoptionOf(items)(e) <==> IsAdoption(e) && Attached(known, e))
      && (Strays(items, e.body) <==> !IsItem(e) && !Attached(known, e))
  {
    forall id ensures HasItem(FoldOf(events).items, id) <==> id in Known(BaseItems(Ordered(events))) {
      HasItemIsKnown(events, id);
    }
  }

  /**
   The folded state keeps, in log order, exactly the occurrences and status changes whose item it has and the
   adoptions all of whose items it has.
   */
  lemma KeptInLogOrder(events: seq<Event>)
    ensures var state, log := FoldOf(events), Entries(Ordered(events));
      && state.occurrences == Filter(log, OccurrenceOf(state.items))
      && state.statusChanges == Filter(log, ChangeOf(state.items))
      && state.adoptions == Filter(log, AdoptionOf(state.items))
  {
    var state, log := FoldOf(events), Entries(Ordered(events));
    var known := AttachedTo(Known(BaseItems(Ordered(events))));
    forall e ensures OccurrenceOf(state.items)(e) == (IsOccurrence(e) && known(e))
                  && ChangeOf(state.items)(e) == (IsStatus(e) && known(e))
                  && AdoptionOf(state.items)(e) == (IsAdoption(e) && known(e))
    {
      KeptIsAttached(events, e);
    }
    FilterTwice(log, IsOccurrence, known, OccurrenceOf(state.items));
    FilterTwice(log, IsStatus, known, ChangeOf(state.items));
    FilterTwice(log, IsAdoption, known, AdoptionOf(state.items));
  }

  /** An entry of the log is that of one of its events. */
  lemma EntryOfEvent(events: seq<Event>, x: Entry)
    ensures x in Entries(Ordered(events)) <==> exists e :: e in Ordered(events) && x == Entry(e.id, e.body)
  {
    var s := Ordered(events);
    if x in Entries(s) {
      var i :| 0 <= i < |s| && Entries(s)[i] == x;
      assert s[i] in s;
    }
    if exists e :: e in s && x == Entry(e.id, e.body) {
      var e :| e in s && x == Entry(e.id, e.body);
      var i :| 0 <= i < |s| && s[i] == e;
      assert Entries(s)[i] == x;
    }
  }

  /** An entry is kept if and only if it is that of an event of its kind whose items are all in the state. */
  lemma KeptIff(events: seq<Event>, x: Entry)
    ensures var state, logged := FoldOf(events), exists e :: e in Ordered(events) && x == Entry(e.id, e.body);
      && (x in state.occurrences <==> logged && x.body.OccurrenceAppended? && HasItem(state.items, x.body.item))
      && (x in state.statusChanges <==> logged && x.body.StatusChanged? && HasItem(state.items, x.body.item))
      && (x in state.adoptions <==>
            logged && x.body.AdoptionRecorded? && forall id :: id in x.body.items ==> HasItem(state.items, id))
  {
    KeptInLogOrder(events);
    EntryOfEvent(events, x);
  }

  // ----- the orphans

  function Not<T>(p: T -> bool): T -> bool {
    (x: T) => !p(x)
  }

  lemma {:induction false} FilterRest<T>(s: seq<T>, p: T -> bool)
    ensures |s| == |Filter(s, p)| + |Filter(s, Not(p))|
  {
    if s != [] { FilterRest(s[..|s| - 1], p); }
  }

  function Outside(kind: Entry -> bool, known: Entry -> bool): Entry -> bool {
    (e: Entry) => kind(e) && !known(e)
  }

  lemma LostOfKind(log: seq<Entry>, kind: Entry -> bool, known: Entry -> bool)
    ensures |Filter(log, kind)| - |Filter(Filter(log, kind), known)| == |Filter(log, Outside(kind, known))|
  {
    FilterRest(Filter(log, kind), known);
    FilterTwice(log, kind, Not(known), Outside(kind, known));
  }

  lemma {:induction false} LostAddUp(log: seq<Entry>, known: Entry -> bool, orphan: Entry -> bool)
    requires forall e :: orphan(e) <==> !IsItem(e) && !known(e)
    ensures |Filter(log, orphan)| == |Filter(log, Outside(IsStatus, known))| + |Filter(log, Outside(IsOccurrence, known))|
                                     + |Filter(log, Outside(IsTags, known))| + |Filter(log, Outside(IsAdoption, known))|
  {
    if log != [] { LostAddUp(log[..|log| - 1], known, orphan); }
  }

  /** The orphans counted are exactly the lines that name an item the state does not have. */
  lemma OrphansAreStrays(events: seq<Event>)
    ensures var state := FoldOf(events);
      state.orphaned == |Filter(Entries(Ordered(events)), OrphanOf(state.items))|
  {
    var items, log := FoldOf(events).items, Entries(Ordered(events));
    var known := AttachedTo(Known(BaseItems(Ordered(events))));
    forall e ensures OrphanOf(items)(e) <==> !IsItem(e) && !known(e) {
      KeptIsAttached(events, e);
    }
    LostAddUp(log, known, OrphanOf(items));
    LostOfKind(log, IsStatus, known);
    LostOfKind(log, IsOccurrence, known);
    LostOfKind(log, IsTags, known);
    LostOfKind(log, IsAdoption, known);
  }

  // ----- the items

  function IsAddition(e: Event): bool {
    e.body.ItemAdded?
  }

  /** The slug an item gets after others have been given theirs. */
  ghost predicate SlugAfter(taken: set<string>, title: string, slug: string) {
    var base := SafeSlug(title);
    if base !in taken then slug == base
    else exists n: nat :: n >= 2 && slug == Numbered(base, n) && slug !in taken
                          && forall k: nat :: 2 <= k < n ==> Numbered(base, k) in taken
  }

  /** The item was added by this event, and has the least free slug of its title among the items before it. */
  ghost predicate AddedBy(item: LogItem, e: Event, before: seq<LogItem>) {
    && e.body.ItemAdded?
    && item.eventId == e.id && item.title == e.body.title && item.source == e.body.source
    && item.repoRoot == e.body.repoRoot && item.target == e.body.target && item.createdAt == e.ts
    && SlugAfter(Slugs(before), e.body.title, item.slug)
  }

  /** Item by item. */
  ghost predicate AddedInTurn(items: seq<LogItem>, adds: seq<Event>) {
    |items| == |adds| && forall i :: 0 <= i < |items| ==> AddedBy(items[i], adds[i], items[..i])
  }

  lemma AddedNext(items: seq<LogItem>, adds: seq<Event>, item: LogItem, e: Event)
    requires AddedInTurn(items, adds) && AddedBy(item, e, items)
    ensures AddedInTurn(items + [item], adds + [e])
  {
    var all := items + [item];
    forall i | 0 <= i < |all| ensures AddedBy(all[i], (adds + [e])[i], all[..i]) {
      assert all[..i] == items[..i];
    }
  }

  lemma NewItemAdded(e: Event, before: seq<LogItem>)
    requires e.body.ItemAdded?
    ensures AddedBy(NewItem(e, UniqueSlug(Slugs(before), SafeSlug(e.body.title))), e, before)
  {
  }

  lemma {:induction false} BaseItemsAdded(s: seq<Event>)
    ensures AddedInTurn(BaseItems(s), Filter(s, IsAddition))
  {
    if s != [] {
      var t, e := s[..|s| - 1], s[|s| - 1];
      BaseItemsAdded(t);
      if e.body.ItemAdded? {
        NewItemAdded(e, BaseItems(t));
        AddedNext(BaseItems(t), Filter(t, IsAddition), NewItem(e, UniqueSlug(Slugs(BaseItems(t)), SafeSlug(e.body.title))), e);
      }
    }
  }

  lemma FinishKeepsAdded(base: seq<LogItem>, adds: seq<Event>, changes: seq<Entry>)
    requires AddedInTurn(base, adds)
    ensures AddedInTurn(FinishAll(base, changes, changes), adds)
  {
    var items := FinishAll(base, changes, changes);
    forall i | 0 <= i < |items| ensures AddedBy(items[i], adds[i], items[..i]) {
      assert AddedBy(base[i], adds[i], base[..i]);
      assert forall k :: 0 <= k < i ==> items[..i][k].slug == base[..i][k].slug;
      assert Slugs(items[..i]) == Slugs(base[..i]);
    }
  }

  /** The items are the additions of the log, in its order, each with the fields of its event and its slug. */
  lemma ItemsAreAdditions(events: seq<Event>)
    ensures AddedInTurn(FoldOf(events).items, Filter(Ordered(events), IsAddition))
  {
    var s := Ordered(events);
    BaseItemsAdded(s);
    FinishKeepsAdded(BaseItems(s), Filter(s, IsAddition), Entries(s));
  }

  // ----- the tags

  function Retags(id: string): Entry -> bool {
    (e: Entry) => e.body.ItemTagsChanged? && e.body.item == id
  }

  lemma {:induction false} TagsForm(log: seq<Entry>, id: string, start: seq<string>)
    ensures if Filter(log, Retags(id)) == [] then TagsAfter(log, id, start) == start
            else Ascending(TagsAfter(log, id, start), StrLess)
  {
    if log != [] {
      var t := log[..|log| - 1];
      TagsForm(t, id, start);
      if Retags(id)(log[|log| - 1]) {
        SortedNamesAscending(Elements(TagsAfter(t, id, start)) + Elements(log[|log| - 1].body.tags));
      }
    }
  }

  function InitialTags(e: Event): seq<string> {
    if e.body.ItemAdded? && e.body.initial.Some? then e.body.initial.value else []
  }

  lemma {:induction false} BaseTags(s: seq<Event>, i: nat)
    requires i < |BaseItems(s)|
    ensures i < |Filter(s, IsAddition)| && BaseItems(s)[i].tags == InitialTags(Filter(s, IsAddition)[i])
  {
    var t := s[..|s| - 1];
    BaseItemsAdded(t);
    if i < |BaseItems(t)| { BaseTags(t, i); }
  }

  /** Tags that no change touches are as they were added, and otherwise sorted without repetition. */
  lemma TagsKeptOrSorted(events: seq<Event>, i: nat)
    requires i < |FoldOf(events).items|
    ensures var adds, item := Filter(Ordered(events), IsAddition), FoldOf(events).items[i];
      i < |adds| && if Filter(Entries(Ordered(events)), Retags(item.eventId)) == [] then item.tags == InitialTags(adds[i])
                    else Ascending(item.tags, StrLess)
  {
    var s := Ordered(events);
    BaseTags(s, i);
    TagsForm(Entries(s), BaseItems(s)[i].eventId, BaseItems(s)[i].tags);
  }

  // ----- safe slugs

  /** The words of a title: its runs of ASCII letters and digits, in lower case. */
  function Words(title: string): seq<string> {
    if title == [] then []
    else
      var rest, c := title[..|title| - 1], title[|title| - 1];
      var words := Words(rest);
      if !IsAlnum(c) then words
      else if rest != [] && IsAlnum(rest[|rest| - 1]) && words != []
      then words[..|words| - 1] + [words[|words| - 1] + [Lower(c)]]
      else words + [[Lower(c)]]
  }

  function Dashed(title: string): string {
    Join(Words(title), "-")
  }

  /** The first 80 characters, and one more where that would leave a dash at the end. */
  function Shortened(s: string): string {
    if |s| <= 80 then s else if s[79] == '-' then s[..81] else s[..80]
  }

  lemma {:induction false} JoinSnoc(words: seq<string>, word: string)
    ensures Join(words + [word], "-") == if words == [] then word else Join(words, "-") + "-" + word
  {
    if words == [] {
      assert words + [word] == [word];
    } else {
      assert words == [words[0]] + words[1..];
      assert words + [word] == [words[0]] + (words[1..] + [word]);
      JoinSnoc(words[1..], word);
      JoinFirst(words[0], words[1..] + [word]);
      if |words| > 1 {
        JoinFirst(words[0], words[1..]);
        Associative(words[0] + "-", Join(words[1..], "-"), "-" + word);
        Associative(Join(words[1..], "-"), "-", word);
        Associative(Join(words, "-"), "-", word);
      } else {
        assert words[1..] + [word] == [word];
      }
    }
  }

  lemma JoinFirst(word: string, words: seq<string>)
    requires words != []
    ensures Join([word] + words, "-") == word + "-" + Join(words, "-")
  {
    assert ([word] + words)[1..] == words;
  }

  /** What one more character does to the dashed title. */
  function Longer(dashed: string, c: char, gap: bool): string {
    if IsAlnum(c) then dashed + (if gap && dashed != [] then "-" else "") + [Lower(c)] else dashed
  }

  /** The last word is not empty, and a title that ends in a word has one. */
  lemma {:induction false} WordsFilled(title: string)
    ensures Words(title) != [] ==> Words(title)[|Words(title)| - 1] != []
    ensures title != [] && IsAlnum(title[|title| - 1]) ==> Words(title) != []
  {
    if title != [] { WordsFilled(title[..|title| - 1]); }
  }

  lemma DashedFilled(title: string)
    ensures Dashed(title) == [] <==> Words(title) == []
  {
    var words := Words(title);
    if words != [] {
      WordsFilled(title);
      SplitLast(words);
      JoinSnoc(words[..|words| - 1], words[|words| - 1]);
    }
  }

  lemma DashedNext(title: string, c: char)
    ensures Dashed(title + [c]) == Longer(Dashed(title), c, title != [] && !IsAlnum(title[|title| - 1]))
  {
    var words := Words(title);
    assert (title + [c])[..|title|] == title;
    WordsFilled(title);
    DashedFilled(title);
    if IsAlnum(c) {
      if title != [] && IsAlnum(title[|title| - 1]) {
        var rest, last := words[..|words| - 1], words[|words| - 1];
        SplitLast(words);
        JoinSnoc(rest, last);
        JoinSnoc(rest, last + [Lower(c)]);
        Associative(Join(rest, "-") + "-", last, [Lower(c)]);
      } else {
        JoinSnoc(words, [Lower(c)]);
      }
    }
  }

  lemma {:induction false} DashedGrows(title: string, i: nat)
    requires i <= |title|
    ensures Dashed(title[..i]) <= Dashed(title)
  {
    if i < |title| {
      var t, c := title[..|title| - 1], title[|title| - 1];
      SplitLast(title);
      DashedGrows(t, i);
      DashedNext(t, c);
      assert t[..i] == title[..i];
    } else {
      assert title[..i] == title;
    }
  }

  lemma ShortenedAt(slug: string, c: char, gap: bool, dashed: string)
    requires |slug| < 80 <= |Longer(slug, c, gap)| && Longer(slug, c, gap) <= dashed
    ensures Shortened(dashed) == Longer(slug, c, gap)
  {
    var next := Longer(slug, c, gap);
    assert next[|next| - 1] == Lower(c) != '-' && next[79] == dashed[79];
  }

  lemma {:induction false} SlugFromWords(title: string, i: nat)
    requires i <= |title| && |Dashed(title[..i])| < 80
    ensures SlugFrom(title[i..], Dashed(title[..i]), i > 0 && !IsAlnum(title[i - 1])) == Shortened(Dashed(title))
    decreases |title| - i
  {
    if i == |title| {
      assert title[..i] == title && title[i..] == [];
    } else {
      var slug, c, gap := Dashed(title[..i]), title[i], i > 0 && !IsAlnum(title[i - 1]);
      assert title[..i + 1] == title[..i] + [c] && title[i..][0] == c && title[i..][1..] == title[i + 1..];
      DashedNext(title[..i], c);
      if |Longer(slug, c, gap)| >= 80 {
        DashedGrows(title, i + 1);
        ShortenedAt(slug, c, gap, Dashed(title));
      } else {
        SlugFromWords(title, i + 1);
      }
    }
  }

  /**
   A safe slug is the title's words joined by dashes and shortened, `friction` when there is no word, and
   marked as a friction slug when it would be a bare number.
   */
  lemma SafeSlugIsWords(title: string)
    ensures var slug := Shortened(Join(Words(title), "-"));
      SafeSlug(title) == if Words(title) == [] then "friction"
                         else if forall i :: 0 <= i < |slug| ==> IsDigit(slug[i]) then "friction-" + slug
                         else slug
  {
    DashedFilled(title);
    assert title[..0] == [] && title[0..] == title;
    SlugFromWords(title, 0);
    SlugFromShape(title, "", false);
    assert RStripDashes(SlugFrom(title, "", false)) == SlugFrom(title, "", false);
  }
}

/**
 The SQLite projection of the line queues: import writes a file's rows and layout into the store, and
 export brings file drift in first and then renders the store, skipping the import when the hash it
 recorded last is the hash of the file.
 */
module QueueLineSync {
  import opened Basics
  import opened PyText
  import opened Seqs
  import opened Ordering
  import opened QueueLine

  datatype Extra = Extra(task: string, values: map<string, string>, tail: string, line: string, strict: bool)

  datatype StoredItem = StoredItem(queue: string, order: nat, extra: Extra)

  /** An encoded layout entry: a kept line, or the task whose row stands there. */
  datatype Slot = Kept(text: string) | Task(task: string)

  datatype Meta = Meta(exported: Option<string>, layout: seq<Slot>)

  /** `queue_items`: the id is the primary key over all queues. */
  type Items = map<string, StoredItem>

  datatype Store = Store(items: Items, metas: map<string, Meta>)

  datatype Report = Report(added: nat, updated: nat, same: nat, conflicts: seq<string>)

  datatype ExportError = Invalid(error: FormatError) | NotFound(id: string) | NoLayout

  type Hash = string -> string

  ghost predicate Injective(hash: Hash) {
    forall a, b :: hash(a) == hash(b) ==> a == b
  }

  // ----- ids

  /** Queue name and task, joined; two queues can make the same id. */
  function IdOf(queue: string, task: string): string {
    queue + "#" + task
  }

  /** `store.get` finds the task's item. */
  predicate Known(items: Items, queue: string, task: string) {
    IdOf(queue, task) in items && items[IdOf(queue, task)].queue == queue
  }

  /** Another queue has an item with this id, so an insert is ignored and nothing is found. */
  predicate Taken(items: Items, queue: string, task: string) {
    IdOf(queue, task) in items && items[IdOf(queue, task)].queue != queue
  }

  // ----- import

  function ToMap(values: seq<(string, string)>): map<string, string> {
    if values == [] then map[]
    else ToMap(values[..|values| - 1])[values[|values| - 1].0 := values[|values| - 1].1]
  }

  function ItemOf(queue: string, row: Row, order: nat): StoredItem {
    StoredItem(queue, order, Extra(row.task, ToMap(row.values), row.tail, row.raw, row.strict))
  }

  /** The rows stored so far with the counters; `refused` is the id at which an insert raised. */
  datatype Tally = Tally(items: Items, added: nat, updated: nat, same: nat, refused: Option<string>)

  function PutRow(t: Tally, queue: string, row: Row, order: nat): Tally {
    var id, item := IdOf(queue, row.task), ItemOf(queue, row, order);
    if t.refused.Some? then t
    else if Taken(t.items, queue, row.task) then t.(refused := Some(id))
    else if !Known(t.items, queue, row.task) then Tally(t.items[id := item], t.added + 1, t.updated, t.same, None)
    else if t.items[id] == item then t.(same := t.same + 1)
    else Tally(t.items[id := item], t.added, t.updated + 1, t.same, None)
  }

  function PutRows(items: Items, queue: string, rows: seq<Row>): Tally {
    if rows == [] then Tally(items, 0, 0, 0, None)
    else PutRow(PutRows(items, queue, rows[..|rows| - 1]), queue, rows[|rows| - 1], |rows| - 1)
  }

  function Tasks(rows: seq<Row>): (r: seq<string>)
    ensures |r| == |rows|
    ensures forall j :: 0 <= j < |rows| ==> r[j] == rows[j].task
  {
    seq(|rows|, j requires 0 <= j < |rows| => rows[j].task)
  }

  function Repeated(ids: seq<string>): set<string> {
    set id | id in ids && multiset(ids)[id] > 1
  }

  function SlotOf(rows: seq<Row>, entry: Entry): Slot
    requires entry.Item? ==> entry.index < |rows|
  {
    match entry
    case Raw(text) => Kept(text)
    case Item(j) => Task(rows[j].task)
  }

  function Encode(q: LineQueue): (r: seq<Slot>)
    requires Renderable(q)
  {
    seq(|q.layout|, k requires 0 <= k < |q.layout| =>
      assert q.layout[k] in q.layout;
      SlotOf(q.rows, q.layout[k]))
  }

  /** The file is the one the queue was exported as. */
  predicate Matched(s: Store, queue: string, text: string, hash: Hash) {
    queue in s.metas && s.metas[queue].exported == Some(hash(text))
  }

  /** What an import leaves, and its report; an id of another queue raises midway with the rows before it kept. */
  function Import(s: Store, queue: string, text: string, hash: Hash): (Store, Result<Report, string>) {
    var q := Parse(text);
    RenderParse(text);
    var repeated := Repeated(Tasks(q.rows));
    if Matched(s, queue, text, hash) then (s, Ok(Report(0, 0, |q.rows|, [])))
    else if repeated != {} then (s, Ok(Report(0, 0, 0, SortedNames(repeated))))
    else
      var t := PutRows(s.items, queue, q.rows);
      if t.refused.Some? then (s.(items := t.items), Err(t.refused.value))
      else (Store(t.items, s.metas[queue := Meta(None, Encode(q))]), Ok(Report(t.added, t.updated, t.same, [])))
  }

  // ----- render and export

  /** The line stored for a task; an item's id and its stored task always name the same task. */
  function SlotText(items: Items, queue: string, slot: Slot): string {
    match slot
    case Kept(text) => text
    case Task(task) => if Known(items, queue, task) then items[IdOf(queue, task)].extra.line else []
  }

  function SlotTexts(items: Items, queue: string, layout: seq<Slot>): (r: seq<string>)
    ensures |r| == |layout|
    ensures forall k :: 0 <= k < |layout| ==> r[k] == SlotText(items, queue, layout[k])
  {
    seq(|layout|, k requires 0 <= k < |layout| => SlotText(items, queue, layout[k]))
  }

  function Shown(s: Store, queue: string): string
    requires queue in s.metas
  {
    Concat(SlotTexts(s.items, queue, s.metas[queue].layout))
  }

  /** The end of an export: render, then record the hash of what was rendered. */
  function Record(s: Store, queue: string, hash: Hash): (Store, Result<string, ExportError>) {
    if queue !in s.metas then (s, Err(NoLayout))
    else
      var text := Shown(s, queue);
      (s.(metas := s.metas[queue := s.metas[queue].(exported := Some(hash(text)))]), Ok(text))
  }

  function Export(s: Store, queue: string, source: string, hash: Hash): (Store, Result<string, ExportError>) {
    if Matched(s, queue, source, hash) then Record(s, queue, hash)
    else
      var (next, report) := Import(s, queue, source, hash);
      match report
      case Err(id) => (next, Err(NotFound(id)))
      case Ok(r) =>
        if r.conflicts != [] && Validate(source).Err? then (next, Err(Invalid(Validate(source).error)))
        else Record(next, queue, hash)
  }

  // ----- the store the code works on

  class LineStore {
    var items: Items
    var metas: map<string, Meta>
    const hash: Hash

    ghost function State(): Store
      reads this
    {
      Store(items, metas)
    }

    constructor (hash: Hash)
      ensures State() == Store(map[], map[]) && this.hash == hash
    {
      this.hash := hash;
      items, metas := map[], map[];
    }

    /** `INSERT OR IGNORE`, then a look for the row under this queue. */
    method Enqueue(id: string, item: StoredItem) returns (found: bool)
      modifies this`items
      ensures found == (id !in old(items) || old(items)[id].queue == item.queue)
      ensures items == if id in old(items) then old(items) else old(items)[id := item]
    {
      if id !in items {
        items := items[id := item];
      }
      found := items[id].queue == item.queue;
    }

    method StoreRows(queue: string, rows: seq<Row>) returns (added: nat, updated: nat, same: nat, refused: Option<string>)
      modifies this`items
      ensures Tally(items, added, updated, same, refused) == PutRows(old(items), queue, rows)
    {
      added, updated, same, refused := 0, 0, 0, None;
      for order := 0 to |rows|
        invariant refused == None
        invariant Tally(items, added, updated, same, refused) == PutRows(old(items), queue, rows[..order])
      {
        var row := rows[order];
        var id, item := IdOf(queue, row.task), ItemOf(queue, row, order);
        PutRowsNext(old(items), queue, rows, order);
        if id !in items || items[id].queue != queue {
          var found := Enqueue(id, item);
          if !found {
            refused := Some(id);
            RefusedStays(old(items), queue, rows, order + 1);
            return;
          }
          added := added + 1;
        } else if items[id].extra == item.extra && items[id].order == order {
          same := same + 1;
        } else {
          items := items[id := item];
          updated := updated + 1;
        }
      }
      assert rows[..|rows|] == rows;
    }

    method ImportText(queue: string, text: string) returns (report: Result<Report, string>)
      modifies this
      ensures (State(), report) == Import(old(State()), queue, text, hash)
    {
      var parsed := ParseLineQueue(text);
      RenderParse(text);
      if queue in metas && metas[queue].exported == Some(hash(text)) {
        return Ok(Report(0, 0, |parsed.rows|, []));
      }
      var repeated := Repeated(Tasks(parsed.rows));
      if repeated != {} {
        return Ok(Report(0, 0, 0, SortedNames(repeated)));
      }
      var added, updated, same, refused := StoreRows(queue, parsed.rows);
      if refused.Some? {
        return Err(refused.value);
      }
      metas := metas[queue := Meta(None, Encode(parsed))];
      report := Ok(Report(added, updated, same, []));
    }

    method RenderStore(queue: string) returns (text: string)
      requires queue in metas
      ensures text == Shown(State(), queue)
    {
      var output: seq<string> := [];
      var layout := metas[queue].layout;
      ghost var texts := SlotTexts(items, queue, layout);
      for k := 0 to |layout|
        invariant Concat(output) == Concat(texts[..k])
      {
        assert texts[..k + 1] == texts[..k] + [texts[k]];
        ConcatAppend(texts[..k], [texts[k]]);
        match layout[k] {
          case Kept(kept) =>
            ConcatAppend(output, [kept]);
            output := output + [kept];
          case Task(task) =>
            if Known(items, queue, task) {
              ConcatAppend(output, [items[IdOf(queue, task)].extra.line]);
              output := output + [items[IdOf(queue, task)].extra.line];
            }
        }
      }
      assert texts[..|layout|] == texts;
      text := Concat(output);
    }

    method ExportLineQueue(queue: string, source: string) returns (r: Result<string, ExportError>)
      modifies this
      ensures (State(), r) == Export(old(State()), queue, source, hash)
    {
      if queue !in metas || metas[queue].exported != Some(hash(source)) {
        var report := ImportText(queue, source);
        if report.Err? {
          return Err(NotFound(report.error));
        }
        if report.value.conflicts != [] {
          var valid := ValidateLineQueue(source);
          if valid.Err? {
            return Err(Invalid(valid.error));
          }
        }
      }
      if queue !in metas {
        return Err(NoLayout);
      }
      var text := RenderStore(queue);
      metas := metas[queue := metas[queue].(exported := Some(hash(text)))];
      r := Ok(text);
    }
  }

  lemma PutRowsNext(items: Items, queue: string, rows: seq<Row>, n: nat)
    requires n < |rows|
    ensures PutRows(items, queue, rows[..n + 1]) == PutRow(PutRows(items, queue, rows[..n]), queue, rows[n], n)
  {
    assert rows[..n + 1][..n] == rows[..n];
  }

  /** Once an insert has raised no later row is stored. */
  lemma {:induction false} RefusedStays(items: Items, queue: string, rows: seq<Row>, n: nat)
    requires n <= |rows| && PutRows(items, queue, rows[..n]).refused.Some?
    ensures PutRows(items, queue, rows) == PutRows(items, queue, rows[..n])
    decreases |rows| - n
  {
    if n == |rows| {
      assert rows[..n] == rows;
    } else {
      PutRowsNext(items, queue, rows, n);
      RefusedStays(items, queue, rows, n + 1);
    }
  }

  // ----- what the rows of an import leave in the store

  /** How many rows an import stores before an id of another queue stops it. */
  function Written(items: Items, queue: string, rows: seq<Row>): (n: nat)
    ensures n <= |rows|
    ensures forall j :: 0 <= j < n ==> !Taken(items, queue, rows[j].task)
    ensures n < |rows| ==> Taken(items, queue, rows[n].task)
  {
    if rows == [] then 0
    else
      var n := Written(items, queue, rows[..|rows| - 1]);
      if n < |rows| - 1 || Taken(items, queue, rows[|rows| - 1].task) then n else |rows|
  }

  ghost predicate Stores(items: Items, queue: string, row: Row, order: nat) {
    Known(items, queue, row.task) && items[IdOf(queue, row.task)] == ItemOf(queue, row, order)
  }

  /** The two stores hold the same items under the queue. */
  ghost predicate SameQueue(before: Items, after: Items, queue: string) {
    forall id :: (id in before && before[id].queue == queue <==> id in after && after[id].queue == queue)
                 && (id in before && before[id].queue == queue ==> before[id] == after[id])
  }

  lemma IdInjective(queue: string, a: string, b: string)
    requires IdOf(queue, a) == IdOf(queue, b)
    ensures a == b
  {
    assert a == IdOf(queue, a)[|queue| + 1..] && b == IdOf(queue, b)[|queue| + 1..];
  }

  /** No id changes its owner, items of other queues stay, and new items belong to `queue`. */
  ghost predicate OnlyOwn(before: Items, after: Items, queue: string) {
    && (forall id :: id in before ==> id in after && after[id].queue == before[id].queue)
    && (forall id :: id in before && before[id].queue != queue ==> after[id] == before[id])
    && (forall id :: id in after && id !in before ==> after[id].queue == queue)
  }

  lemma PutRowFrame(t: Tally, queue: string, row: Row, order: nat)
    ensures var after := PutRow(t, queue, row, order).items;
      && OnlyOwn(t.items, after, queue)
      && (forall id :: id != IdOf(queue, row.task) ==> (id in t.items <==> id in after) && (id in t.items ==> after[id] == t.items[id]))
  {
  }

  lemma {:induction false} PutRowsFrame(items: Items, queue: string, rows: seq<Row>)
    ensures OnlyOwn(items, PutRows(items, queue, rows).items, queue)
  {
    if rows != [] {
      var rest := rows[..|rows| - 1];
      PutRowsFrame(items, queue, rest);
      PutRowFrame(PutRows(items, queue, rest), queue, rows[|rows| - 1], |rows| - 1);
    }
  }

  lemma OthersSame(before: Items, after: Items, queue: string, other: string)
    requires OnlyOwn(before, after, queue) && other != queue
    ensures SameQueue(before, after, other)
  {
  }

  /** An import never takes or frees an id for its own queue. */
  lemma TakenStays(items: Items, queue: string, rows: seq<Row>, task: string)
    ensures Taken(PutRows(items, queue, rows).items, queue, task) <==> Taken(items, queue, task)
  {
    PutRowsFrame(items, queue, rows);
  }

  lemma {:induction false} PutRowsRefused(items: Items, queue: string, rows: seq<Row>)
    ensures var n := Written(items, queue, rows);
      PutRows(items, queue, rows).refused == if n == |rows| then None else Some(IdOf(queue, rows[n].task))
  {
    if rows != [] {
      var rest := rows[..|rows| - 1];
      PutRowsRefused(items, queue, rest);
      TakenStays(items, queue, rest, rows[|rows| - 1].task);
    }
  }

  lemma TasksOfRest(rows: seq<Row>)
    requires rows != [] && Distinct(Tasks(rows))
    ensures Distinct(Tasks(rows[..|rows| - 1]))
    ensures forall j :: 0 <= j < |rows| - 1 ==> rows[j].task != rows[|rows| - 1].task
  {
    var n := |rows| - 1;
    assert forall j :: 0 <= j < n ==> Tasks(rows[..n])[j] == Tasks(rows)[j];
    forall j | 0 <= j < n ensures rows[j].task != rows[n].task {
      assert Tasks(rows)[j] != Tasks(rows)[n];
    }
  }

  /** Of rows that name different tasks, those written are in the store, whatever was there before. */
  lemma {:induction false} PutRowsStores(items: Items, queue: string, rows: seq<Row>)
    requires Distinct(Tasks(rows))
    ensures forall j :: 0 <= j < Written(items, queue, rows) ==> Stores(PutRows(items, queue, rows).items, queue, rows[j], j)
  {
    if rows != [] {
      var n := |rows| - 1;
      var rest := rows[..n];
      TasksOfRest(rows);
      PutRowsStores(items, queue, rest);
      PutRowsRefused(items, queue, rest);
      TakenStays(items, queue, rest, rows[n].task);
      StoresNext(PutRows(items, queue, rest), queue, rest, rows[n], Written(items, queue, rest));
      assert forall j :: 0 <= j < n ==> rest[j] == rows[j];
    }
  }

  lemma StoresNext(t: Tally, queue: string, rest: seq<Row>, row: Row, written: nat)
    requires written <= |rest| && forall j :: 0 <= j < |rest| ==> rest[j].task != row.task
    requires forall j :: 0 <= j < written ==> Stores(t.items, queue, rest[j], j)
    ensures var u := PutRow(t, queue, row, |rest|);
      && (forall j :: 0 <= j < written ==> Stores(u.items, queue, rest[j], j))
      && (u.refused.None? ==> Stores(u.items, queue, row, |rest|))
  {
    forall j | 0 <= j < written ensures Stores(PutRow(t, queue, row, |rest|).items, queue, rest[j], j) {
      StoredStays(t, queue, row, |rest|, rest[j], j);
    }
  }

  lemma StoredStays(t: Tally, queue: string, row: Row, order: nat, other: Row, n: nat)
    requires Stores(t.items, queue, other, n) && other.task != row.task
    ensures Stores(PutRow(t, queue, row, order).items, queue, other, n)
  {
    if IdOf(queue, row.task) == IdOf(queue, other.task) { IdInjective(queue, row.task, other.task); }
    PutRowFrame(t, queue, row, order);
  }

  /** Tasks the written rows do not name keep what they had. */
  lemma {:induction false} PutRowsKeeps(items: Items, queue: string, rows: seq<Row>, task: string)
    requires forall j :: 0 <= j < Written(items, queue, rows) ==> rows[j].task != task
    ensures var after, id := PutRows(items, queue, rows).items, IdOf(queue, task);
      (id in items <==> id in after) && (id in items ==> after[id] == items[id])
  {
    if rows != [] {
      var n := |rows| - 1;
      var rest := rows[..n];
      PutRowsKeeps(items, queue, rest, task);
      PutRowsRefused(items, queue, rest);
      TakenStays(items, queue, rest, rows[n].task);
      if Written(items, queue, rows) == |rows| {
        if IdOf(queue, rows[n].task) == IdOf(queue, task) { IdInjective(queue, rows[n].task, task); }
        PutRowFrame(PutRows(items, queue, rest), queue, rows[n], n);
      }
    }
  }

  lemma RepeatedIff(q: LineQueue)
    ensures Repeated(Tasks(q.rows)) == {} <==> Distinct(Tasks(q.rows))
    ensures Distinct(Tasks(q.rows)) <==> !HasDuplicates(q)
  {
    var ids := Tasks(q.rows);
    RepeatedDistinct(ids);
    if HasDuplicates(q) {
      var i, j :| 0 <= i < j < |q.rows| && q.rows[i].task == q.rows[j].task;
      assert ids[i] == ids[j];
    } else {
      forall i, j | 0 <= i < j < |ids| ensures ids[i] != ids[j] {
        assert q.rows[i].task != q.rows[j].task;
      }
    }
  }

  lemma RepeatedDistinct(ids: seq<string>)
    ensures Repeated(ids) == {} <==> Distinct(ids)
  {
    if Distinct(ids) {
      forall id | id in ids ensures multiset(ids)[id] <= 1 {
        DistinctMultiset(ids, id);
      }
    } else {
      var i, j :| 0 <= i < j < |ids| && ids[i] == ids[j];
      var a, b := ids[..j], ids[j..];
      assert ids == a + b && a[i] == ids[i] && b[0] == ids[j];
      assert multiset(ids) == multiset(a) + multiset(b);
      assert ids[i] in a && ids[i] in b;
      assert ids[i] in Repeated(ids);
    }
  }

  lemma {:induction false} DistinctMultiset(ids: seq<string>, id: string)
    requires Distinct(ids)
    ensures multiset(ids)[id] <= 1
  {
    if ids != [] {
      var rest, last := ids[..|ids| - 1], ids[|ids| - 1];
      assert ids == rest + [last];
      DistinctMultiset(rest, id);
      assert last !in rest;
    }
  }

  /** The queue's item of every row of the text has the row's line. */
  ghost predicate HasLines(items: Items, queue: string, rows: seq<Row>) {
    forall j :: 0 <= j < |rows| ==> SlotText(items, queue, Task(rows[j].task)) == rows[j].raw
  }

  /** A store with the lines of a text renders its layout to that text, stale items or not. */
  lemma StoredLinesRender(items: Items, queue: string, text: string)
    requires Renderable(Parse(text)) && HasLines(items, queue, Parse(text).rows)
    ensures SlotTexts(items, queue, Encode(Parse(text))) == SplitLines(text)
    ensures Concat(SlotTexts(items, queue, Encode(Parse(text)))) == text
  {
    var q, lines := Parse(text), SplitLines(text);
    ParseLaysOut(text);
    var layout := Encode(q);
    forall k | 0 <= k < |lines| ensures SlotText(items, queue, layout[k]) == lines[k] {
      assert EntryOf(q, lines[k], q.layout[k]);
    }
    assert SlotTexts(items, queue, layout) == lines;
    LinesConcat(text);
  }

  lemma ShownElsewhere(before: Store, after: Store, queue: string)
    requires queue in before.metas && queue in after.metas && before.metas[queue].layout == after.metas[queue].layout
    requires SameQueue(before.items, after.items, queue)
    ensures Shown(before, queue) == Shown(after, queue)
  {
    var layout := before.metas[queue].layout;
    forall k | 0 <= k < |layout|
      ensures SlotText(before.items, queue, layout[k]) == SlotText(after.items, queue, layout[k])
    {
      SameSlot(before.items, after.items, queue, layout[k]);
    }
    assert SlotTexts(before.items, queue, layout) == SlotTexts(after.items, queue, layout);
  }

  lemma SameSlot(before: Items, after: Items, queue: string, slot: Slot)
    requires SameQueue(before, after, queue)
    ensures SlotText(before, queue, slot) == SlotText(after, queue, slot)
  {
    if slot.Task? {
      var id := IdOf(queue, slot.task);
      assert id in before && before[id].queue == queue <==> id in after && after[id].queue == queue;
    }
  }
}

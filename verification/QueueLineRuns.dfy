/**
 Runs of line-queue imports and exports over one store, imports cut short and imports that raise at an
 id of another queue included: when an export returns exactly the current text of the file.
 */
module QueueLineRuns {
  import opened Basics
  import opened PyText
  import opened Seqs
  import opened Ordering
  import opened QueueLine
  import opened QueueLineSync

  // ----- one export from any store

  /** Some task of the rows makes an id that another queue has. */
  predicate Clashes(items: Items, queue: string, rows: seq<Row>) {
    Written(items, queue, rows) < |rows|
  }

  lemma ClashesIff(items: Items, queue: string, rows: seq<Row>)
    ensures Clashes(items, queue, rows) <==> exists j :: 0 <= j < |rows| && Taken(items, queue, rows[j].task)
  {
  }

  lemma WrittenLines(items: Items, queue: string, rows: seq<Row>)
    requires Distinct(Tasks(rows)) && !Clashes(items, queue, rows)
    ensures HasLines(PutRows(items, queue, rows).items, queue, rows)
  {
    PutRowsStores(items, queue, rows);
    forall j | 0 <= j < |rows| ensures SlotText(PutRows(items, queue, rows).items, queue, Task(rows[j].task)) == rows[j].raw {
      assert Stores(PutRows(items, queue, rows).items, queue, rows[j], j);
    }
  }

  /** The store an import of rows without a clash leaves. */
  function Imported(s: Store, queue: string, text: string, exported: Option<string>): Store {
    RenderParse(text);
    Store(PutRows(s.items, queue, Parse(text).rows).items, s.metas[queue := Meta(exported, Encode(Parse(text)))])
  }

  lemma ImportedShows(s: Store, queue: string, text: string, exported: Option<string>)
    requires !HasDuplicates(Parse(text)) && !Clashes(s.items, queue, Parse(text).rows)
    ensures HasLines(Imported(s, queue, text, exported).items, queue, Parse(text).rows)
    ensures Shown(Imported(s, queue, text, exported), queue) == text
  {
    RenderParse(text);
    RepeatedIff(Parse(text));
    WrittenLines(s.items, queue, Parse(text).rows);
    StoredLinesRender(Imported(s, queue, text, exported).items, queue, text);
  }

  /** What an import does, case by case, from any store. */
  lemma ImportCases(s: Store, queue: string, text: string, hash: Hash)
    ensures var (after, r) := Import(s, queue, text, hash);
      var rows := Parse(text).rows;
      if Matched(s, queue, text, hash) then after == s && r == Ok(Report(0, 0, |rows|, []))
      else if HasDuplicates(Parse(text)) then
        after == s && r == Ok(Report(0, 0, 0, SortedNames(Repeated(Tasks(rows))))) && r.value.conflicts != []
      else if Clashes(s.items, queue, rows) then
        after == s.(items := PutRows(s.items, queue, rows).items) && r == Err(IdOf(queue, rows[Written(s.items, queue, rows)].task))
      else
        var t := PutRows(s.items, queue, rows);
        after == Imported(s, queue, text, None) && r == Ok(Report(t.added, t.updated, t.same, []))
  {
    RenderParse(text);
    RepeatedIff(Parse(text));
    PutRowsRefused(s.items, queue, Parse(text).rows);
  }

  lemma {:induction false} PutRowsAgain(items: Items, queue: string, rows: seq<Row>, n: nat)
    requires n <= |rows| && forall j :: 0 <= j < |rows| ==> Stores(items, queue, rows[j], j)
    ensures PutRows(items, queue, rows[..n]) == Tally(items, 0, 0, n, None)
  {
    if n > 0 {
      PutRowsNext(items, queue, rows, n - 1);
      PutRowsAgain(items, queue, rows, n - 1);
      assert Stores(items, queue, rows[n - 1], n - 1);
    } else {
      assert rows[..0] == [];
    }
  }

  lemma StoredAgain(items: Items, queue: string, rows: seq<Row>)
    requires Distinct(Tasks(rows)) && !Clashes(items, queue, rows)
    ensures var after := PutRows(items, queue, rows).items; PutRows(after, queue, rows) == Tally(after, 0, 0, |rows|, None)
  {
    PutRowsStores(items, queue, rows);
    PutRowsAgain(PutRows(items, queue, rows).items, queue, rows, |rows|);
    assert rows[..|rows|] == rows;
  }

  /** Importing a text again that an import has just stored changes nothing and counts every row as unchanged. */
  lemma ImportTwice(s: Store, queue: string, text: string, hash: Hash)
    requires Matched(s, queue, text, hash) || (!HasDuplicates(Parse(text)) && !Clashes(s.items, queue, Parse(text).rows))
    ensures var once := Import(s, queue, text, hash).0;
      Import(once, queue, text, hash) == (once, Ok(Report(0, 0, |Parse(text).rows|, [])))
  {
    ImportCases(s, queue, text, hash);
    if !Matched(s, queue, text, hash) { ImportStored(s, queue, text, hash); }
  }

  lemma ImportStored(s: Store, queue: string, text: string, hash: Hash)
    requires !HasDuplicates(Parse(text)) && !Clashes(s.items, queue, Parse(text).rows)
    ensures var once := Imported(s, queue, text, None);
      Import(once, queue, text, hash) == (once, Ok(Report(0, 0, |Parse(text).rows|, [])))
  {
    var rows, once := Parse(text).rows, Imported(s, queue, text, None);
    RepeatedIff(Parse(text));
    StoredAgain(s.items, queue, rows);
    PutRowsRefused(once.items, queue, rows);
    ImportCases(once, queue, text, hash);
    ImportedTwice(s, queue, text);
  }

  lemma ImportedTwice(s: Store, queue: string, text: string)
    requires PutRows(Imported(s, queue, text, None).items, queue, Parse(text).rows).items == Imported(s, queue, text, None).items
    ensures Imported(Imported(s, queue, text, None), queue, text, None) == Imported(s, queue, text, None)
  {
    var once := Imported(s, queue, text, None);
    assert once.metas[queue := once.metas[queue]] == once.metas;
  }

  /** What an export is meant to give: the text of the file, or the error of the first thing wrong with it. */
  function Exact(items: Items, queue: string, source: string): Result<string, ExportError> {
    var rows := Parse(source).rows;
    if Checked(source).Err? then Checked(source)
    else if Clashes(items, queue, rows) then Err(NotFound(IdOf(queue, rows[Written(items, queue, rows)].task)))
    else Ok(source)
  }

  /** The text itself, or the error of the production check for a text with repeated tasks. */
  function Checked(source: string): Result<string, ExportError> {
    if Validate(source).Err? && HasRepeats(Parse(source).rows) then Err(Invalid(Validate(source).error)) else Ok(source)
  }

  predicate HasRepeats(rows: seq<Row>) {
    Repeated(Tasks(rows)) != {}
  }

  /**
   From any store whatever: with a recorded hash that matches, an export returns what the store shows;
   otherwise it raises for repeated tasks and changes nothing, raises for an id of another queue and keeps
   the rows before it, and in every other case returns exactly the text and stores it.
   */
  lemma ExportAnyStore(s: Store, queue: string, source: string, hash: Hash)
    ensures var (after, r) := Export(s, queue, source, hash);
      var rows := Parse(source).rows;
      if Matched(s, queue, source, hash) then
        r == Ok(Shown(s, queue)) && after == s.(metas := s.metas[queue := s.metas[queue].(exported := Some(hash(Shown(s, queue))))])
      else
        && r == Exact(s.items, queue, source)
        && (r.Ok? <==> !HasDuplicates(Parse(source)) && !Clashes(s.items, queue, rows))
        && after == if HasDuplicates(Parse(source)) then s
                    else if r.Err? then s.(items := PutRows(s.items, queue, rows).items)
                    else Imported(s, queue, source, Some(hash(source)))
  {
    ImportCases(s, queue, source, hash);
    RepeatedIff(Parse(source));
    if HasDuplicates(Parse(source)) {
      DuplicatesRaise(source);
    } else if !Matched(s, queue, source, hash) && !Clashes(s.items, queue, Parse(source).rows) {
      RecordImported(s, queue, source, hash);
    }
  }

  lemma RecordImported(s: Store, queue: string, source: string, hash: Hash)
    requires !HasDuplicates(Parse(source)) && !Clashes(s.items, queue, Parse(source).rows)
    ensures Record(Imported(s, queue, source, None), queue, hash) == (Imported(s, queue, source, Some(hash(source))), Ok(source))
  {
    ImportedShows(s, queue, source, None);
    var next := Imported(s, queue, source, None);
    assert next.metas[queue := next.metas[queue].(exported := Some(hash(source)))]
        == Imported(s, queue, source, Some(hash(source))).metas;
  }

  // ----- a queue the store can vouch for

  /** The layout and the lines of the queue are those of one text without repeated tasks, and so is a recorded hash. */
  ghost predicate QueueInv(s: Store, queue: string, hash: Hash)
    requires queue in s.metas
  {
    var text := Shown(s, queue);
    && !HasDuplicates(Parse(text))
    && Renderable(Parse(text)) && s.metas[queue].layout == Encode(Parse(text))
    && HasLines(s.items, queue, Parse(text).rows)
    && (s.metas[queue].exported.Some? ==> s.metas[queue].exported.value == hash(text))
  }

  lemma ImportedInv(s: Store, queue: string, text: string, exported: Option<string>, hash: Hash)
    requires !HasDuplicates(Parse(text)) && !Clashes(s.items, queue, Parse(text).rows)
    requires exported == None || exported == Some(hash(text))
    ensures QueueInv(Imported(s, queue, text, exported), queue, hash)
  {
    RenderParse(text);
    ImportedShows(s, queue, text, exported);
  }

  /** A queue keeps what it shows and its lines when nothing of it changes. */
  lemma UntouchedInv(before: Store, after: Store, queue: string, hash: Hash)
    requires queue in before.metas && queue in after.metas && QueueInv(before, queue, hash)
    requires after.metas[queue].layout == before.metas[queue].layout && SameQueue(before.items, after.items, queue)
    requires after.metas[queue].exported == before.metas[queue].exported
          || after.metas[queue].exported == Some(hash(Shown(before, queue)))
    ensures QueueInv(after, queue, hash) && Shown(after, queue) == Shown(before, queue)
  {
    ShownElsewhere(before, after, queue);
    var rows := Parse(Shown(before, queue)).rows;
    forall j | 0 <= j < |rows| ensures SlotText(after.items, queue, Task(rows[j].task)) == rows[j].raw {
      SameSlot(before.items, after.items, queue, Task(rows[j].task));
      assert SlotText(before.items, queue, Task(rows[j].task)) == rows[j].raw;
    }
  }

  // ----- runs

  /** `CutImport` is an import that stops after some rows: rows are stored in transactions of their own. */
  datatype Op =
    | DoImport(queue: string, text: string)
    | DoExport(queue: string, text: string)
    | CutImport(queue: string, text: string, written: nat)

  function Upto(rows: seq<Row>, n: nat): seq<Row> {
    if n < |rows| then rows[..n] else rows
  }

  /** The import has rows to store: its text is not the exported one, and no task is repeated. */
  predicate Writes(s: Store, queue: string, text: string, hash: Hash) {
    !Matched(s, queue, text, hash) && !HasRepeats(Parse(text).rows)
  }

  function Cut(s: Store, queue: string, text: string, written: nat, hash: Hash): Store {
    if Writes(s, queue, text, hash) then s.(items := PutRows(s.items, queue, Upto(Parse(text).rows, written)).items) else s
  }

  function Step(s: Store, op: Op, hash: Hash): Store {
    match op
    case DoImport(queue, text) => Import(s, queue, text, hash).0
    case DoExport(queue, text) => Export(s, queue, text, hash).0
    case CutImport(queue, text, written) => Cut(s, queue, text, written, hash)
  }

  function Run(ops: seq<Op>, hash: Hash): Store {
    if ops == [] then Store(map[], map[]) else Step(Run(ops[..|ops| - 1], hash), ops[|ops| - 1], hash)
  }

  /** No import of the queue has been cut short or raised at an id since one last finished. */
  predicate Settled(ops: seq<Op>, queue: string, hash: Hash) {
    if ops == [] then true
    else
      var s, op := Run(ops[..|ops| - 1], hash), ops[|ops| - 1];
      if op.queue != queue || !Writes(s, op.queue, op.text, hash) then Settled(ops[..|ops| - 1], queue, hash)
      else !op.CutImport? && !Clashes(s.items, queue, Parse(op.text).rows)
  }

  lemma StepOwnsQueue(s: Store, op: Op, hash: Hash)
    ensures OnlyOwn(s.items, Step(s, op, hash).items, op.queue)
    ensures forall other :: other != op.queue ==>
              (other in s.metas <==> other in Step(s, op, hash).metas)
              && (other in s.metas ==> s.metas[other] == Step(s, op, hash).metas[other])
  {
    PutRowsFrame(s.items, op.queue, Parse(op.text).rows);
    match op
    case DoImport(queue, text) => ImportCases(s, queue, text, hash);
    case DoExport(queue, text) => ExportAnyStore(s, queue, text, hash);
    case CutImport(queue, text, written) => PutRowsFrame(s.items, queue, Upto(Parse(text).rows, written));
  }

  /** No operation on a queue changes what another queue shows, or its record. */
  lemma StepKeepsOthers(s: Store, op: Op, other: string, hash: Hash)
    requires other != op.queue
    ensures SameQueue(s.items, Step(s, op, hash).items, other)
    ensures other in s.metas <==> other in Step(s, op, hash).metas
    ensures other in s.metas ==> Step(s, op, hash).metas[other] == s.metas[other] && Shown(Step(s, op, hash), other) == Shown(s, other)
  {
    StepOwnsQueue(s, op, hash);
    OthersSame(s.items, Step(s, op, hash).items, op.queue, other);
    if other in s.metas { ShownElsewhere(s, Step(s, op, hash), other); }
  }

  /** An import or export that has rows to store and meets no clash settles its queue. */
  lemma FinishedInv(s: Store, op: Op, hash: Hash)
    requires Writes(s, op.queue, op.text, hash) && !op.CutImport? && !Clashes(s.items, op.queue, Parse(op.text).rows)
    ensures op.queue in Step(s, op, hash).metas && QueueInv(Step(s, op, hash), op.queue, hash)
  {
    RepeatedIff(Parse(op.text));
    match op
    case DoImport(queue, text) =>
      ImportCases(s, queue, text, hash);
      ImportedInv(s, queue, text, None, hash);
    case DoExport(queue, text) =>
      ExportAnyStore(s, queue, text, hash);
      ImportedInv(s, queue, text, Some(hash(text)), hash);
  }

  /** An operation without rows to store leaves its queue as it was. */
  lemma IdleKeeps(s: Store, op: Op, hash: Hash)
    requires !Writes(s, op.queue, op.text, hash)
    ensures var after := Step(s, op, hash);
      && after.items == s.items && (op.queue in after.metas <==> op.queue in s.metas)
      && (op.queue in s.metas ==>
            after.metas[op.queue].layout == s.metas[op.queue].layout
            && (after.metas[op.queue].exported == s.metas[op.queue].exported
                || after.metas[op.queue].exported == Some(hash(Shown(s, op.queue)))))
  {
    RepeatedIff(Parse(op.text));
    match op
    case DoImport(queue, text) => ImportCases(s, queue, text, hash);
    case DoExport(queue, text) => ExportAnyStore(s, queue, text, hash);
    case CutImport(queue, text, written) =>
  }

  /** The store can vouch for every settled queue, over any run. */
  lemma {:induction false} SettledInv(ops: seq<Op>, queue: string, hash: Hash)
    requires Settled(ops, queue, hash)
    ensures queue in Run(ops, hash).metas ==> QueueInv(Run(ops, hash), queue, hash)
  {
    if ops != [] {
      var before, op := ops[..|ops| - 1], ops[|ops| - 1];
      var s := Run(before, hash);
      if op.queue == queue && Writes(s, queue, op.text, hash) {
        FinishedInv(s, op, hash);
      } else {
        SettledInv(before, queue, hash);
        if op.queue == queue { IdleKeeps(s, op, hash); } else { StepKeepsOthers(s, op, queue, hash); }
        if queue in s.metas { UntouchedInv(s, Run(ops, hash), queue, hash); }
      }
    }
  }

  /**
   After any run of imports and exports of any queues, cut short and raising ones included: an export of a
   settled queue, or of a text other than the exported one, returns exactly the text, or raises, and raises
   exactly when a task is repeated or, where rows are to be stored, an id belongs to another queue.
   */
  lemma ExportAfterAnyRun(ops: seq<Op>, queue: string, source: string, hash: Hash)
    requires Injective(hash)
    requires Settled(ops, queue, hash) || !Matched(Run(ops, hash), queue, source, hash)
    ensures var s := Run(ops, hash);
      var r := Export(s, queue, source, hash).1;
      && r == (if Matched(s, queue, source, hash) then Ok(source) else Exact(s.items, queue, source))
      && (HasDuplicates(Parse(source)) ==> r.Err?)
      && (r.Ok? <==> !HasDuplicates(Parse(source))
                     && (Matched(s, queue, source, hash) || !Clashes(s.items, queue, Parse(source).rows)))
  {
    var s := Run(ops, hash);
    ExportAnyStore(s, queue, source, hash);
    if Matched(s, queue, source, hash) { SettledInv(ops, queue, hash); }
  }

  // ----- names without a number sign

  /** Every item has the id its queue and task make, and its queue is one of `names`. */
  ghost predicate OwnIds(items: Items, names: set<string>) {
    forall id :: id in items ==> items[id].queue in names && id == IdOf(items[id].queue, items[id].extra.task)
  }

  function QueuesOf(ops: seq<Op>): set<string> {
    set op | op in ops :: op.queue
  }

  lemma {:induction false} PutRowsOwnIds(items: Items, queue: string, rows: seq<Row>, names: set<string>)
    requires OwnIds(items, names) && queue in names
    ensures OwnIds(PutRows(items, queue, rows).items, names)
  {
    if rows != [] { PutRowsOwnIds(items, queue, rows[..|rows| - 1], names); }
  }

  lemma StepOwnIds(s: Store, op: Op, names: set<string>, hash: Hash)
    requires OwnIds(s.items, names) && op.queue in names
    ensures OwnIds(Step(s, op, hash).items, names)
  {
    var rows := Parse(op.text).rows;
    PutRowsOwnIds(s.items, op.queue, rows, names);
    match op
    case DoImport(queue, text) => ImportCases(s, queue, text, hash);
    case DoExport(queue, text) => ExportAnyStore(s, queue, text, hash);
    case CutImport(queue, text, written) => PutRowsOwnIds(s.items, queue, Upto(rows, written), names);
  }

  lemma {:induction false} RunOwnIds(ops: seq<Op>, names: set<string>, hash: Hash)
    requires QueuesOf(ops) <= names
    ensures OwnIds(Run(ops, hash).items, names)
  {
    if ops != [] {
      var op := ops[|ops| - 1];
      assert op.queue in QueuesOf(ops);
      assert QueuesOf(ops[..|ops| - 1]) <= QueuesOf(ops);
      RunOwnIds(ops[..|ops| - 1], names, hash);
      StepOwnIds(Run(ops[..|ops| - 1], hash), op, names, hash);
    }
  }

  lemma {:induction false} FindSign(queue: string, task: string)
    requires '#' !in queue
    ensures Find(IdOf(queue, task), "#") == |queue|
  {
    var id := IdOf(queue, task);
    if queue == [] {
      assert "#" <= id;
    } else {
      assert id[0] == queue[0] && !("#" <= id);
      assert id[1..] == IdOf(queue[1..], task);
      FindSign(queue[1..], task);
    }
  }

  /** Names without `#` make different ids, so no id is ever taken. */
  lemma NoClashWithoutSign(items: Items, names: set<string>, queue: string, rows: seq<Row>)
    requires OwnIds(items, names) && '#' !in queue && forall name :: name in names ==> '#' !in name
    ensures !Clashes(items, queue, rows)
  {
    forall j | 0 <= j < |rows| ensures !Taken(items, queue, rows[j].task) {
      var id := IdOf(queue, rows[j].task);
      if id in items {
        FindSign(queue, rows[j].task);
        FindSign(items[id].queue, items[id].extra.task);
        assert queue == id[..|queue|] && items[id].queue == id[..|items[id].queue|];
      }
    }
  }

  lemma {:induction false} WholeRunsSettle(ops: seq<Op>, queue: string, hash: Hash)
    requires forall op :: op in ops ==> !op.CutImport? && '#' !in op.queue
    ensures Settled(ops, queue, hash)
  {
    if ops != [] {
      var before, op := ops[..|ops| - 1], ops[|ops| - 1];
      WholeRunsSettle(before, queue, hash);
      RunOwnIds(before, QueuesOf(before), hash);
      NoClashWithoutSign(Run(before, hash).items, QueuesOf(before), op.queue, Parse(op.text).rows);
    }
  }

  /**
   Where no plan directory has a `#` in its path and no import is cut short, an export after any run returns
   exactly the text of the file, except that repeated tasks always raise.
   */
  lemma ExportWithoutSign(ops: seq<Op>, queue: string, source: string, hash: Hash)
    requires Injective(hash) && '#' !in queue && forall op :: op in ops ==> !op.CutImport? && '#' !in op.queue
    ensures Export(Run(ops, hash), queue, source, hash).1 == Checked(source)
    ensures Checked(source).Err? <==> HasDuplicates(Parse(source))
  {
    WholeRunsSettle(ops, queue, hash);
    RunOwnIds(ops, QueuesOf(ops), hash);
    NoClashWithoutSign(Run(ops, hash).items, QueuesOf(ops), queue, Parse(source).rows);
    ExportAfterAnyRun(ops, queue, source, hash);
    CheckedIff(source);
  }

  lemma CheckedIff(source: string)
    ensures Checked(source).Err? <==> HasDuplicates(Parse(source))
  {
    RepeatedIff(Parse(source));
    if HasDuplicates(Parse(source)) { DuplicatesRaise(source); }
  }

  // ----- an import cut short

  ghost predicate SingleLines(items: Items) {
    forall id :: id in items ==> SingleLine(items[id].extra.line)
  }

  lemma {:induction false} PutRowsSingle(items: Items, queue: string, rows: seq<Row>)
    requires SingleLines(items) && forall row :: row in rows ==> SingleLine(row.raw)
    ensures SingleLines(PutRows(items, queue, rows).items)
  {
    if rows != [] {
      assert rows[|rows| - 1] in rows;
      PutRowsSingle(items, queue, rows[..|rows| - 1]);
    }
  }

  lemma RowsAreSingle(text: string)
    ensures forall row :: row in Parse(text).rows ==> SingleLine(row.raw)
  {
    var at := ParsedRows(text);
    forall row | row in Parse(text).rows ensures SingleLine(row.raw) {
      var j :| 0 <= j < |Parse(text).rows| && Parse(text).rows[j] == row;
      LinesAreSingle(text, at[j]);
    }
  }

  lemma StepSingle(s: Store, op: Op, hash: Hash)
    requires SingleLines(s.items)
    ensures SingleLines(Step(s, op, hash).items)
  {
    var rows := Parse(op.text).rows;
    RowsAreSingle(op.text);
    PutRowsSingle(s.items, op.queue, rows);
    match op
    case DoImport(queue, text) => ImportCases(s, queue, text, hash);
    case DoExport(queue, text) => ExportAnyStore(s, queue, text, hash);
    case CutImport(queue, text, written) => PutRowsSingle(s.items, queue, Upto(rows, written));
  }

  lemma {:induction false} RunSingle(ops: seq<Op>, hash: Hash)
    ensures SingleLines(Run(ops, hash).items)
  {
    if ops != [] {
      RunSingle(ops[..|ops| - 1], hash);
      StepSingle(Run(ops[..|ops| - 1], hash), ops[|ops| - 1], hash);
    }
  }

  /** Where both name a task they give it the same line. */
  ghost predicate SameLines(rows: seq<Row>, others: seq<Row>) {
    forall i, j :: 0 <= i < |rows| && 0 <= j < |others| && rows[i].task == others[j].task ==> rows[i].raw == others[j].raw
  }

  /** The rows an import cut short leaves behind. */
  function LeftBehind(s: Store, queue: string, text: string, written: nat, hash: Hash): seq<Row> {
    var rows := Upto(Parse(text).rows, written);
    if Writes(s, queue, text, hash) then rows[..Written(s.items, queue, rows)] else []
  }

  lemma UptoDistinct(rows: seq<Row>, n: nat)
    requires Distinct(Tasks(rows))
    ensures Distinct(Tasks(Upto(rows, n)))
  {
    var some := Upto(rows, n);
    assert forall j :: 0 <= j < |some| ==> Tasks(some)[j] == Tasks(rows)[j];
  }

  /** What writing rows does to the line of one task. */
  lemma OverwrittenLine(items: Items, queue: string, rows: seq<Row>, row: Row)
    requires Distinct(Tasks(rows)) && SlotText(items, queue, Task(row.task)) == row.raw
    ensures var n := Written(items, queue, rows);
      SlotText(PutRows(items, queue, rows).items, queue, Task(row.task)) == row.raw <==> SameLines(rows[..n], [row])
  {
    var after, n := PutRows(items, queue, rows).items, Written(items, queue, rows);
    PutRowsStores(items, queue, rows);
    if i :| 0 <= i < n && rows[i].task == row.task {
      assert Stores(after, queue, rows[i], i);
      assert rows[..n][i] == rows[i] && [row][0] == row;
      forall k | 0 <= k < n && rows[k].task == row.task ensures k == i {
        assert Tasks(rows)[k] == Tasks(rows)[i];
      }
    } else {
      PutRowsKeeps(items, queue, rows, row.task);
    }
  }

  /** After rows are written over a queue that has the lines of a text, it still has them exactly if the two agree. */
  lemma OverwrittenLines(items: Items, queue: string, rows: seq<Row>, others: seq<Row>)
    requires Distinct(Tasks(rows)) && HasLines(items, queue, others)
    ensures HasLines(PutRows(items, queue, rows).items, queue, others) <==> SameLines(rows[..Written(items, queue, rows)], others)
  {
    var after, wrote := PutRows(items, queue, rows).items, rows[..Written(items, queue, rows)];
    forall j | 0 <= j < |others|
      ensures SlotText(after, queue, Task(others[j].task)) == others[j].raw <==> SameLines(wrote, [others[j]])
    {
      assert SlotText(items, queue, Task(others[j].task)) == others[j].raw;
      OverwrittenLine(items, queue, rows, others[j]);
    }
    SameLinesEach(wrote, others);
  }

  lemma SameLinesEach(rows: seq<Row>, others: seq<Row>)
    ensures SameLines(rows, others) <==> forall j :: 0 <= j < |others| ==> SameLines(rows, [others[j]])
  {
    if forall j :: 0 <= j < |others| ==> SameLines(rows, [others[j]]) {
      forall i, j | 0 <= i < |rows| && 0 <= j < |others| && rows[i].task == others[j].task ensures rows[i].raw == others[j].raw {
        assert SameLines(rows, [others[j]]) && [others[j]][0] == others[j];
      }
    }
  }

  /** What a queue shows is the text exactly if it has the text's lines: joined lines cannot make up for a changed one. */
  lemma ShowsIffLines(s: Store, queue: string, text: string)
    requires queue in s.metas && Renderable(Parse(text)) && s.metas[queue].layout == Encode(Parse(text)) && SingleLines(s.items)
    requires forall row :: row in Parse(text).rows ==> Known(s.items, queue, row.task)
    ensures Shown(s, queue) == text <==> HasLines(s.items, queue, Parse(text).rows)
  {
    var layout := s.metas[queue].layout;
    var pieces := SlotTexts(s.items, queue, layout);
    if HasLines(s.items, queue, Parse(text).rows) { StoredLinesRender(s.items, queue, text); }
    if Shown(s, queue) == text {
      SlotsAreLines(s.items, queue, text);
      LinesOfPieces(pieces);
      RowsHaveSlots(s.items, queue, text);
    }
  }

  lemma SlotsAreLines(items: Items, queue: string, text: string)
    requires Renderable(Parse(text)) && SingleLines(items)
    requires forall row :: row in Parse(text).rows ==> Known(items, queue, row.task)
    ensures |Encode(Parse(text))| == |SplitLines(text)|
    ensures forall k :: 0 <= k < |Encode(Parse(text))| ==> SingleLine(SlotTexts(items, queue, Encode(Parse(text)))[k])
  {
    var q, lines := Parse(text), SplitLines(text);
    ParseLaysOut(text);
    forall k | 0 <= k < |lines| ensures SingleLine(SlotText(items, queue, Encode(q)[k])) {
      assert EntryOf(q, lines[k], q.layout[k]);
      LinesAreSingle(text, k);
      if q.layout[k].Item? { assert Known(items, queue, q.rows[q.layout[k].index].task); }
    }
  }

  /** Every row stands on a line of its own in the layout. */
  lemma RowsHaveSlots(items: Items, queue: string, text: string)
    requires Renderable(Parse(text)) && SlotTexts(items, queue, Encode(Parse(text))) == SplitLines(text)
    ensures HasLines(items, queue, Parse(text).rows)
  {
    var q, lines := Parse(text), SplitLines(text);
    forall j | 0 <= j < |q.rows| ensures SlotText(items, queue, Task(q.rows[j].task)) == q.rows[j].raw {
      var k := SlotOfRow(text, j);
      ParseLaysOut(text);
      assert EntryOf(q, lines[k], q.layout[k]);
      assert SlotTexts(items, queue, Encode(q))[k] == SlotText(items, queue, Encode(q)[k]);
    }
  }

  lemma SlotOfRow(text: string, j: nat) returns (k: nat)
    requires j < |Parse(text).rows|
    ensures k < |Parse(text).layout| && Parse(text).layout[k] == Item(j)
  {
    k := BuiltSlot(SplitLines(text), IsItem, RowOf, j);
  }

  lemma {:induction false} BuiltSlot(lines: seq<string>, item: string -> bool, row: string -> Row, j: nat) returns (k: nat)
    requires j < |Build(lines, item, row).rows|
    ensures k < |Build(lines, item, row).layout| && Build(lines, item, row).layout[k] == Item(j)
  {
    var rest := Build(lines[..|lines| - 1], item, row);
    if j < |rest.rows| { k := BuiltSlot(lines[..|lines| - 1], item, row, j); } else { k := |rest.layout|; }
  }

  /**
   An import of a settled queue that stops after some rows, by a crash or at an id of another queue: the next
   export still returns exactly the text if and only if, when it trusts the recorded hash, every row left behind
   has the line the text gives its task, and otherwise no task of the text is repeated or has another queue's id.
   */
  lemma CutShortExact(ops: seq<Op>, queue: string, text: string, written: nat, source: string, hash: Hash)
    requires Injective(hash) && Settled(ops, queue, hash)
    ensures var s := Run(ops, hash);
      Export(Cut(s, queue, text, written, hash), queue, source, hash).1 == Ok(source) <==>
        if Matched(s, queue, source, hash) then SameLines(LeftBehind(s, queue, text, written, hash), Parse(source).rows)
        else !HasDuplicates(Parse(source)) && !Clashes(s.items, queue, Parse(source).rows)
  {
    var s := Run(ops, hash);
    var cut := Cut(s, queue, text, written, hash);
    ExportAnyStore(cut, queue, source, hash);
    CutKeepsClashes(s, queue, text, written, hash, Parse(source).rows);
    if Matched(s, queue, source, hash) {
      SettledInv(ops, queue, hash);
      RunSingle(ops, hash);
      CutShows(s, queue, text, written, source, hash);
    }
  }

  lemma CutKeepsClashes(s: Store, queue: string, text: string, written: nat, hash: Hash, rows: seq<Row>)
    ensures Clashes(Cut(s, queue, text, written, hash).items, queue, rows) <==> Clashes(s.items, queue, rows)
  {
    var cut := Cut(s, queue, text, written, hash);
    ClashesIff(cut.items, queue, rows);
    ClashesIff(s.items, queue, rows);
    forall j | 0 <= j < |rows| ensures Taken(cut.items, queue, rows[j].task) <==> Taken(s.items, queue, rows[j].task) {
      TakenStays(s.items, queue, Upto(Parse(text).rows, written), rows[j].task);
    }
  }

  lemma CutShows(s: Store, queue: string, text: string, written: nat, source: string, hash: Hash)
    requires queue in s.metas && QueueInv(s, queue, hash) && Shown(s, queue) == source && SingleLines(s.items)
    ensures Shown(Cut(s, queue, text, written, hash), queue) == source
       <==> SameLines(LeftBehind(s, queue, text, written, hash), Parse(source).rows)
  {
    if Writes(s, queue, text, hash) {
      var rows := Upto(Parse(text).rows, written);
      RepeatedIff(Parse(text));
      UptoDistinct(Parse(text).rows, written);
      OverwrittenLines(s.items, queue, rows, Parse(source).rows);
      StepSingle(s, CutImport(queue, text, written), hash);
      KnownAfterCut(s, queue, text, written, source, hash);
      ShowsIffLines(Cut(s, queue, text, written, hash), queue, source);
    }
  }

  lemma KnownAfterCut(s: Store, queue: string, text: string, written: nat, source: string, hash: Hash)
    requires HasLines(s.items, queue, Parse(source).rows)
    ensures forall row :: row in Parse(source).rows ==> Known(Cut(s, queue, text, written, hash).items, queue, row.task)
  {
    var at := ParsedRows(source);
    PutRowsFrame(s.items, queue, Upto(Parse(text).rows, written));
    forall row | row in Parse(source).rows ensures Known(s.items, queue, row.task) {
      var j :| 0 <= j < |Parse(source).rows| && Parse(source).rows[j] == row;
      LinesAreSingle(source, at[j]);
      assert SlotText(s.items, queue, Task(row.task)) == row.raw != [];
    }
  }

  /** An import that raises at an id of another queue leaves what one cut short there would. */
  lemma RaisingIsCut(s: Store, queue: string, text: string, hash: Hash)
    requires Import(s, queue, text, hash).1.Err?
    ensures Import(s, queue, text, hash).0 == Cut(s, queue, text, |Parse(text).rows|, hash)
  {
    ImportCases(s, queue, text, hash);
    RepeatedIff(Parse(text));
  }

  // ----- runs that end with another text

  ghost predicate OneItem(text: string) {
    SplitLines(text) == [text] && IsItem(text)
  }

  lemma BuildItems(a: string, b: string, item: string -> bool, row: string -> Row)
    requires item(a) && item(b)
    ensures Build([a], item, row) == LineQueue([row(a)], [], [], [Item(0)])
    ensures Build([a, b], item, row).rows == [row(a), row(b)]
  {
    assert [a][..0] == [] && [a, b][..1] == [a];
  }

  lemma ParseOneItem(text: string) returns (row: Row)
    requires OneItem(text)
    ensures row.task == TaskOf(text) && row.raw == text
    ensures Parse(text) == LineQueue([row], [], [], [Item(0)]) && !HasDuplicates(Parse(text))
  {
    row := RowOf(text);
    BuildItems(text, text, IsItem, RowOf);
  }

  lemma ParseTwoItems(a: string, b: string) returns (first: Row, second: Row)
    requires OneItem(a) && OneItem(b) && EndsLine(a)
    ensures first.task == TaskOf(a) && first.raw == a && second.task == TaskOf(b) && second.raw == b
    ensures Parse(a + b).rows == [first, second]
  {
    first, second := RowOf(a), RowOf(b);
    SplitLinesAppend(a, b);
    assert SplitLines(a + b) == [a, b];
    BuildItems(a, b, IsItem, RowOf);
  }

  lemma PutOne(items: Items, queue: string, row: Row)
    requires IdOf(queue, row.task) !in items
    ensures PutRows(items, queue, [row]).items == items[IdOf(queue, row.task) := ItemOf(queue, row, 0)]
    ensures !Clashes(items, queue, [row])
  {
    assert [row][..0] == [];
  }

  /** One item stored whose id is not there yet. */
  lemma StoredOneItem(s: Store, queue: string, text: string, row: Row, exported: Option<string>)
    requires Parse(text) == LineQueue([row], [], [], [Item(0)]) && !HasDuplicates(Parse(text))
    requires queue !in s.metas && IdOf(queue, row.task) !in s.items
    ensures !Clashes(s.items, queue, Parse(text).rows)
    ensures Imported(s, queue, text, exported).items == s.items[IdOf(queue, row.task) := ItemOf(queue, row, 0)]
  {
    PutOne(s.items, queue, row);
  }

  lemma RunNext(ops: seq<Op>, op: Op, hash: Hash)
    ensures Run(ops + [op], hash) == Step(Run(ops, hash), op, hash)
  {
    assert (ops + [op])[..|ops|] == ops;
  }

  lemma ExportedOnce(s: Store, queue: string, text: string, row: Row, hash: Hash)
    requires Parse(text) == LineQueue([row], [], [], [Item(0)]) && !HasDuplicates(Parse(text))
    requires queue !in s.metas && IdOf(queue, row.task) !in s.items
    ensures var after := Export(s, queue, text, hash).0;
      && after.items == s.items[IdOf(queue, row.task) := ItemOf(queue, row, 0)]
      && Matched(after, queue, text, hash)
  {
    StoredOneItem(s, queue, text, row, Some(hash(text)));
    ExportAnyStore(s, queue, text, hash);
  }

  /**
   A trusted hash with another line behind it: when `source` was exported last and rows are left behind that
   give one of its tasks another line, the next export of `source` returns something else.
   */
  lemma LeftBehindBreaks(ops: seq<Op>, queue: string, text: string, written: nat, source: string, hash: Hash)
    requires Injective(hash) && Settled(ops, queue, hash) && Matched(Run(ops, hash), queue, source, hash)
    requires !SameLines(LeftBehind(Run(ops, hash), queue, text, written, hash), Parse(source).rows)
    ensures var r := Export(Run(ops + [CutImport(queue, text, written)], hash), queue, source, hash).1;
      r.Ok? && r.value != source
  {
    RunNext(ops, CutImport(queue, text, written), hash);
    CutShortExact(ops, queue, text, written, source, hash);
    ExportAnyStore(Cut(Run(ops, hash), queue, text, written, hash), queue, source, hash);
  }

  lemma OneExport(queue: string, a: string, hash: Hash)
    requires OneItem(a)
    ensures var ops := [DoExport(queue, a)];
      Settled(ops, queue, hash) && Matched(Run(ops, hash), queue, a, hash) && Known(Run(ops, hash).items, queue, TaskOf(a))
  {
    var row := ParseOneItem(a);
    assert [DoExport(queue, a)][..0] == [];
    ExportedOnce(Store(map[], map[]), queue, a, row, hash);
    RepeatedIff(Parse(a));
  }

  lemma LeftFirst(s: Store, queue: string, text: string, rows: seq<Row>, n: nat, hash: Hash)
    requires rows == Parse(text).rows && rows != [] && !Matched(s, queue, text, hash) && !HasRepeats(rows)
    requires Written(s.items, queue, Upto(rows, n)) == 1
    ensures LeftBehind(s, queue, text, n, hash) == [rows[0]]
  {
  }

  lemma AnotherLine(first: Row, row: Row)
    requires first.task == row.task && first.raw != row.raw
    ensures !SameLines([first], [row])
  {
    assert [first][0].task == [row][0].task;
  }

  /** `a` was exported, an import of `b` for the same task stopped after its row, and the file is `a` again. */
  lemma CutShortBreaksExport(queue: string, a: string, b: string, hash: Hash)
    requires Injective(hash) && OneItem(a) && OneItem(b) && TaskOf(a) == TaskOf(b) && a != b
    ensures var r := Export(Run([DoExport(queue, a)] + [CutImport(queue, b, 1)], hash), queue, a, hash).1;
      r.Ok? && r.value != a
  {
    var row := ParseOneItem(a);
    var other := ParseOneItem(b);
    var ops := [DoExport(queue, a)];
    OneExport(queue, a, hash);
    OneRowWritten(Run(ops, hash), queue, [other]);
    RepeatedIff(Parse(b));
    LeftFirst(Run(ops, hash), queue, b, [other], 1, hash);
    AnotherLine(other, row);
    LeftBehindBreaks(ops, queue, b, 1, a, hash);
  }

  /**
   The same without a crash: queue `other` holds the id that the second item of the new text would have, so the
   import raises after the first item and the file put back is exported as another text.
   */
  lemma ClashBreaksExport(queue: string, other: string, held: string, a: string, b: string, second: string, hash: Hash)
    requires Injective(hash) && OneItem(held) && OneItem(a) && OneItem(b) && OneItem(second) && EndsLine(b)
    requires TaskOf(a) == TaskOf(b) != TaskOf(second) && a != b
    requires other != queue && IdOf(other, TaskOf(held)) == IdOf(queue, TaskOf(second))
    ensures var ops := [DoImport(other, held), DoExport(queue, a)];
      RaisesThenExportsOther(ops, queue, b + second, a, IdOf(queue, TaskOf(second)), hash)
  {
    var ops := [DoImport(other, held), DoExport(queue, a)];
    var s := ClashingStore(queue, other, held, a, second, hash);
    var row := ParseOneItem(a);
    var first, last := ParseTwoItems(b, second);
    DifferentTexts(a, b, second);
    NotMatched(s, queue, a, b + second, hash);
    SecondItemRaises(ops, queue, a, row, b + second, first, last, hash);
  }

  lemma NotMatched(s: Store, queue: string, a: string, text: string, hash: Hash)
    requires Injective(hash) && Matched(s, queue, a, hash) && a != text
    ensures !Matched(s, queue, text, hash)
  {
    assert hash(a) != hash(text);
  }

  lemma SecondItemRaises(ops: seq<Op>, queue: string, a: string, row: Row, text: string, first: Row, last: Row, hash: Hash)
    requires Injective(hash) && Settled(ops, queue, hash)
    requires Matched(Run(ops, hash), queue, a, hash) && !Matched(Run(ops, hash), queue, text, hash)
    requires Parse(a).rows == [row] && Parse(text).rows == [first, last]
    requires first.task == row.task && first.raw != row.raw && first.task != last.task
    requires Known(Run(ops, hash).items, queue, first.task) && Taken(Run(ops, hash).items, queue, last.task)
    ensures RaisesThenExportsOther(ops, queue, text, a, IdOf(queue, last.task), hash)
  {
    RaisesAtSecond(Run(ops, hash), queue, text, first, last, hash);
    AnotherLine(first, row);
    RaisingBreaks(ops, queue, text, a, hash);
  }

  /** After `ops` an import of `text` raises at `id`, and the export of `source` then returns another text. */
  ghost predicate RaisesThenExportsOther(ops: seq<Op>, queue: string, text: string, source: string, id: string, hash: Hash) {
    && Import(Run(ops, hash), queue, text, hash).1 == Err(id)
    && var r := Export(Run(ops + [DoImport(queue, text)], hash), queue, source, hash).1;
      r.Ok? && r.value != source
  }

  lemma RaisingBreaks(ops: seq<Op>, queue: string, text: string, source: string, hash: Hash)
    requires Injective(hash) && Settled(ops, queue, hash) && Matched(Run(ops, hash), queue, source, hash)
    requires Import(Run(ops, hash), queue, text, hash).1.Err?
    requires !SameLines(LeftBehind(Run(ops, hash), queue, text, |Parse(text).rows|, hash), Parse(source).rows)
    ensures RaisesThenExportsOther(ops, queue, text, source, Import(Run(ops, hash), queue, text, hash).1.error, hash)
  {
    RaisingIsCut(Run(ops, hash), queue, text, hash);
    RunNext(ops, DoImport(queue, text), hash);
    RunNext(ops, CutImport(queue, text, |Parse(text).rows|), hash);
    LeftBehindBreaks(ops, queue, text, |Parse(text).rows|, source, hash);
  }

  lemma RaisesAtSecond(s: Store, queue: string, text: string, first: Row, last: Row, hash: Hash)
    requires Parse(text).rows == [first, last] && first.task != last.task && !Matched(s, queue, text, hash)
    requires Known(s.items, queue, first.task) && Taken(s.items, queue, last.task)
    ensures Import(s, queue, text, hash) == (Cut(s, queue, text, 2, hash), Err(IdOf(queue, last.task)))
    ensures LeftBehind(s, queue, text, 2, hash) == [first]
  {
    TwoRowsWritten(s.items, queue, [first, last]);
    TwoTasks(first, last);
    RepeatedIff(Parse(text));
    ImportCases(s, queue, text, hash);
    RaisingIsCut(s, queue, text, hash);
    LeftFirst(s, queue, text, [first, last], 2, hash);
  }

  lemma TwoTasks(first: Row, second: Row)
    requires first.task != second.task
    ensures Distinct(Tasks([first, second])) && Repeated(Tasks([first, second])) == {}
  {
    RepeatedDistinct(Tasks([first, second]));
  }

  lemma DifferentTexts(a: string, b: string, c: string)
    requires SplitLines(a) == [a] && SplitLines(b) == [b] && SplitLines(c) == [c] && EndsLine(b)
    ensures a != b + c
  {
    SplitLinesAppend(b, c);
  }

  lemma TwoRowsWritten(items: Items, queue: string, rows: seq<Row>)
    requires |rows| == 2 && Known(items, queue, rows[0].task) && Taken(items, queue, rows[1].task)
    ensures Written(items, queue, rows) == 1
  {
  }

  /** The store in which `other` holds the id and `a` is exported. */
  lemma ClashingStore(queue: string, other: string, held: string, a: string, second: string, hash: Hash) returns (s: Store)
    requires OneItem(held) && OneItem(a) && TaskOf(a) != TaskOf(second)
    requires other != queue && IdOf(other, TaskOf(held)) == IdOf(queue, TaskOf(second))
    ensures s == Run([DoImport(other, held), DoExport(queue, a)], hash)
    ensures Settled([DoImport(other, held), DoExport(queue, a)], queue, hash) && Matched(s, queue, a, hash)
    ensures Known(s.items, queue, TaskOf(a)) && Taken(s.items, queue, TaskOf(second))
    ensures s.metas[queue].exported == Some(hash(a))
  {
    var empty := Store(map[], map[]);
    var ops := [DoImport(other, held), DoExport(queue, a)];
    var kept := ParseOneItem(held);
    var row := ParseOneItem(a);
    if IdOf(queue, row.task) == IdOf(queue, TaskOf(second)) { IdInjective(queue, row.task, TaskOf(second)); }
    StoredOneItem(empty, other, held, kept, None);
    ImportCases(empty, other, held, hash);
    var before := Step(empty, ops[0], hash);
    assert [ops[0]][..0] == [] && ops[..1] == [ops[0]];
    assert Run([ops[0]], hash) == before;
    ExportedOnce(before, queue, a, row, hash);
    s := Run(ops, hash);
  }

  lemma OneRowWritten(s: Store, queue: string, rows: seq<Row>)
    requires |rows| == 1 && Known(s.items, queue, rows[0].task)
    ensures Written(s.items, queue, rows) == 1
  {
  }

  lemma {:induction false} FindAfterTask(task: string, rest: string)
    requires ' ' !in task
    ensures Find(task + " | " + rest, " | ") == |task|
  {
    var s := task + " | " + rest;
    if task == [] {
      assert s[..3] == " | ";
    } else {
      assert s[0] == task[0] && s[1..] == task[1..] + " | " + rest;
      FindAfterTask(task[1..], rest);
    }
  }

  /** Such texts exist: with any word for a task, and for instance `c` in queue `q#b` and `b#c` in queue `q`. */
  lemma ItemLine(task: string, c: char)
    requires task != [] && task[0] != '#' && !IsSpace(c) && forall x :: x in task ==> !IsSpace(x)
    ensures OneItem(task + " | " + [c] + "\n") && TaskOf(task + " | " + [c] + "\n") == task && EndsLine(task + " | " + [c] + "\n")
  {
    var line := task + " | " + [c];
    LineOfItem(task, c);
    OneLine(line);
    StripsToItself(line);
    StripsToItself(task);
    FindAfterTask(task, [c]);
    assert (line + "\n")[..|line|] == line && RStripNewline(line + "\n") == line;
    assert line[..|task|] == task && Split(line, " | ")[0] == task;
  }

  lemma LineOfItem(task: string, c: char)
    requires task != [] && !IsSpace(c) && forall x :: x in task ==> !IsSpace(x)
    ensures var line := task + " | " + [c]; NoBreak(line) && !IsSpace(line[0]) && line[0] == task[0] && !IsSpace(line[|line| - 1])
    ensures !IsSpace(task[0]) && !IsSpace(task[|task| - 1])
  {
    var line := task + " | " + [c];
    forall x | x in line ensures !IsBreak(x) {
      assert x in task || x in " | " || x == c;
    }
    assert task[0] in task && task[|task| - 1] in task;
  }

  lemma StripsToItself(s: string)
    requires s != [] && !IsSpace(s[0]) && !IsSpace(s[|s| - 1])
    ensures LStrip(s) == s && RStrip(s) == s && Strip(s) == s
  {
  }
}

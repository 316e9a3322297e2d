/** What an import stores for each row of a file, and what its report counts. */
module QueueLineImport {
  import opened Basics
  import opened QueueLine
  import opened QueueLineSync
  import opened Seqs

  // ----- the stored fields

  /** The pair at `i` is the last one with its key, and holds the value. */
  ghost predicate LastAt(values: seq<(string, string)>, i: nat, k: string, v: string) {
    i < |values| && values[i] == (k, v) && forall j :: i < j < |values| ==> values[j].0 != k
  }

  /** A key has the value of the last pair that names it. */
  ghost predicate LastValues(m: map<string, string>, values: seq<(string, string)>) {
    && (forall i :: 0 <= i < |values| ==> values[i].0 in m)
    && (forall k :: k in m ==> exists i: nat :: LastAt(values, i, k, m[k]))
  }

  lemma LastAtStays(rest: seq<(string, string)>, last: (string, string), i: nat, k: string, v: string)
    requires LastAt(rest, i, k, v) && k != last.0
    ensures LastAt(rest + [last], i, k, v)
  {
  }

  lemma LastIsLast(rest: seq<(string, string)>, last: (string, string))
    ensures LastAt(rest + [last], |rest|, last.0, last.1)
  {
  }

  lemma LastValuesNext(m: map<string, string>, rest: seq<(string, string)>, last: (string, string))
    requires LastValues(m, rest)
    ensures LastValues(m[last.0 := last.1], rest + [last])
  {
    var next := m[last.0 := last.1];
    forall k | k in next ensures exists i: nat :: LastAt(rest + [last], i, k, next[k]) {
      if k == last.0 {
        LastIsLast(rest, last);
      } else {
        var i: nat :| LastAt(rest, i, k, m[k]);
        LastAtStays(rest, last, i, k, m[k]);
      }
    }
  }

  lemma {:induction false} ToMapIsLast(values: seq<(string, string)>)
    ensures LastValues(ToMap(values), values)
  {
    if values != [] {
      SplitLast(values);
      ToMapIsLast(values[..|values| - 1]);
      LastValuesNext(ToMap(values[..|values| - 1]), values[..|values| - 1], values[|values| - 1]);
    }
  }

  /** The item that stands for a row: its place in the file and everything that was parsed. */
  ghost predicate StandsFor(item: StoredItem, queue: string, row: Row, place: nat) {
    && item.queue == queue && item.order == place
    && item.extra.task == row.task && item.extra.tail == row.tail && item.extra.line == row.raw
    && item.extra.strict == row.strict && LastValues(item.extra.values, row.values)
  }

  /** After an import of rows with different tasks, each one written is stored with all its fields. */
  lemma RowStored(items: Items, queue: string, rows: seq<Row>, j: nat)
    requires Distinct(Tasks(rows)) && j < Written(items, queue, rows)
    ensures var after, id := PutRows(items, queue, rows).items, queue + "#" + rows[j].task;
      id in after && StandsFor(after[id], queue, rows[j], j)
  {
    PutRowsStores(items, queue, rows);
    assert Stores(PutRows(items, queue, rows).items, queue, rows[j], j);
    ToMapIsLast(rows[j].values);
  }

  // ----- the report

  /** The numbers below `n` that pass the test. */
  function Below(n: nat, p: nat -> bool): set<nat> {
    set j: nat | j < n && p(j)
  }

  lemma BelowNext(n: nat, p: nat -> bool)
    ensures |Below(n + 1, p)| == |Below(n, p)| + if p(n) then 1 else 0
  {
    assert Below(n + 1, p) == Below(n, p) + if p(n) then {n} else {};
  }

  /** Row `j` names a task the queue did not have. */
  function IsFresh(items: Items, queue: string, rows: seq<Row>): nat -> bool {
    (j: nat) => j < |rows| && !Known(items, queue, rows[j].task)
  }

  /** The item of row `j` was already what the import would store. */
  function IsUnchanged(items: Items, queue: string, rows: seq<Row>): nat -> bool {
    (j: nat) => j < |rows| && Known(items, queue, rows[j].task) && items[IdOf(queue, rows[j].task)] == ItemOf(queue, rows[j], j)
  }

  function Fresh(items: Items, queue: string, rows: seq<Row>, n: nat): set<nat> {
    Below(n, IsFresh(items, queue, rows))
  }

  function Unchanged(items: Items, queue: string, rows: seq<Row>, n: nat): set<nat> {
    Below(n, IsUnchanged(items, queue, rows))
  }

  ghost predicate Counts(t: Tally, items: Items, queue: string, rows: seq<Row>, n: nat) {
    && t.added == |Fresh(items, queue, rows, n)| && t.same == |Unchanged(items, queue, rows, n)|
    && t.added + t.updated + t.same == n
  }

  lemma CountNext(items: Items, queue: string, rows: seq<Row>, n: nat)
    requires n < |rows|
    ensures var known := Known(items, queue, rows[n].task);
      var same := known && items[IdOf(queue, rows[n].task)] == ItemOf(queue, rows[n], n);
      && |Fresh(items, queue, rows, n + 1)| == |Fresh(items, queue, rows, n)| + (if known then 0 else 1)
      && |Unchanged(items, queue, rows, n + 1)| == |Unchanged(items, queue, rows, n)| + (if same then 1 else 0)
  {
    BelowNext(n, IsFresh(items, queue, rows));
    BelowNext(n, IsUnchanged(items, queue, rows));
  }

  lemma CountsOfPrefix(t: Tally, items: Items, queue: string, rows: seq<Row>, m: nat, n: nat)
    requires n <= m <= |rows|
    ensures Counts(t, items, queue, rows[..m], n) <==> Counts(t, items, queue, rows, n)
  {
    assert Fresh(items, queue, rows[..m], n) == Fresh(items, queue, rows, n);
    assert Unchanged(items, queue, rows[..m], n) == Unchanged(items, queue, rows, n);
  }

  /** The row's item is as it was before the import: rows before it have other ids. */
  lemma StillAsBefore(items: Items, queue: string, rest: seq<Row>, row: Row)
    requires forall j :: 0 <= j < |rest| ==> rest[j].task != row.task
    ensures var after := PutRows(items, queue, rest).items;
      && (Known(after, queue, row.task) <==> Known(items, queue, row.task))
      && (Known(items, queue, row.task) ==> after[IdOf(queue, row.task)] == items[IdOf(queue, row.task)])
  {
    PutRowsKeeps(items, queue, rest, row.task);
  }

  /**
   The report counts the written rows: as added those whose task was not in the queue, as unchanged those whose item
   was already as imported, and as updated the others.
   */
  lemma {:induction false} ReportCounts(items: Items, queue: string, rows: seq<Row>)
    requires Distinct(Tasks(rows))
    ensures Counts(PutRows(items, queue, rows), items, queue, rows, Written(items, queue, rows))
  {
    if rows != [] {
      var n := |rows| - 1;
      var rest := rows[..n];
      var t := PutRows(items, queue, rest);
      TasksOfRest(rows);
      ReportCounts(items, queue, rest);
      PutRowsRefused(items, queue, rest);
      TakenStays(items, queue, rest, rows[n].task);
      StillAsBefore(items, queue, rest, rows[n]);
      CountsOfPrefix(t, items, queue, rows, n, Written(items, queue, rest));
      CountNext(items, queue, rows, n);
    }
  }
}
